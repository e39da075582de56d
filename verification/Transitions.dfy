/** What connecting, reverting and storing a block make of the disk: the proof steps of the chain's
    methods. */
module Transitions {
  import opened Primitives
  import opened Types
  import opened Ledger
  import opened Weights
  import opened StateRules
  import opened Replay
  import opened Storage
  import opened UtxoStore
  import opened BlockStore
  import opened ChainSpec
  import opened ChainSteps
  import opened Poa
  import opened Signing
  import opened Validators
  import opened Staffing
  import opened Branches
  import opened Rebuilding

  /** StoreBlock's effect. */
  function WithBlock(d: Disk, b: Block): Disk {
    d.(blocks := d.blocks[b.Hash() := b])
  }

  lemma {:induction false} StoreWithBlock(wired: bool, rules: Rules, g: Block, minStake: nat, founders: seq<Bytes>, validators: seq<Bytes>, d: Disk, chain: seq<Block>, b: Block)
    requires |chain| > 0 && StoreOk(d, g) && HeightsAt(d, chain) && LedgerAt(d, chain) && UndosRight(d, chain)
    requires TipIs(d, chain) && TotalsAt(d, chain)
    requires StaffOk(wired, rules, minStake, founders, validators, d, chain)
    requires b.Hash() !in d.blocks && ParentIn(d, b) && Tagged(b) && 1 <= b.header.difficulty <= 2
    ensures var d' := WithBlock(d, b);
            && StoreOk(d', g) && HeightsAt(d', chain) && LedgerAt(d', chain) && UndosRight(d', chain)
            && TipIs(d', chain) && TotalsAt(d', chain) && (HeightsExact(d, chain) ==> HeightsExact(d', chain))
            && StaffOk(wired, rules, minStake, founders, validators, d', chain)
            && d'.checkpoint == d.checkpoint && d'.txs == d.txs && b.Hash() in d'.blocks && d'.blocks[b.Hash()] == b
            && (UndosComplete(d, chain) ==> UndosComplete(d', chain))
  {
    hide Tagged, ParentIn, StoredOk, IndexesOk, Fold, Agrees, SignedChain, NoCoinbaseStake, StoreOk, FixedSet;
    var d' := WithBlock(d, b);
    AboveGenesis(d, b);
    StoreGrows(d, g, b, d');
    forall i | 0 <= i < |chain|
      ensures d'.BlockAt(i) == Some(chain[i])
    {
      StoredUnderHash(d, g, chain, i);
    }
    forall i | 1 <= i < |chain|
      ensures UndoRight(d', chain, i)
    {
      assert UndoRight(d, chain, i);
    }
    SameRegions(d, d');
    if Tracked(wired, rules, minStake, d') {
      TrackedBefore(wired, rules, minStake, d, d', b);
    }
    if FixedSet(wired, founders, d') {
      FixedBefore(wired, founders, d, d');
    }
  }

  lemma WithBlockHeights(d: Disk, g: Block, chain: seq<Block>, b: Block)
    requires StoreOk(d, g) && HeightsAt(d, chain) && b.Hash() !in d.blocks
    ensures HeightsAt(WithBlock(d, b), chain)
  {
    hide StoreOk;
    forall i | 0 <= i < |chain|
      ensures WithBlock(d, b).BlockAt(i) == Some(chain[i])
    {
      StoredUnderHash(d, g, chain, i);
    }
  }

  lemma WithBlockIs(d: Disk, b: Block)
    ensures WithBlock(d, b) == d.(blocks := d.blocks[b.Hash() := b])
  {
  }

  /** What a switch from `last` along `path` leaves when it is interrupted: a database from which a
      restart recovers `persisted`, the old tip's chain or the fork plus part of the branch. Blocks and
      the height index above that chain are untouched; with a fixed validator set it keeps the
      signing window. */
  ghost predicate LeftRecoverable(wired: bool, rules: Rules, g: Block, founders: seq<Bytes>, before: Disk, after: Disk,
                                  last: seq<Block>, path: seq<Block>, persisted: seq<Block>) {
    && Recoverable(rules, g, after, persisted)
    && (persisted == last || PartWay(last, path, persisted))
    && after.blocks == before.blocks && SameAbove(before, after, |persisted|)
    && (FixedSet(wired, founders, after) ==> SignedChain(founders, persisted))
  }

  lemma LeftRecoverableMeans(wired: bool, rules: Rules, g: Block, founders: seq<Bytes>, before: Disk, after: Disk,
                             last: seq<Block>, path: seq<Block>, persisted: seq<Block>)
    ensures LeftRecoverable(wired, rules, g, founders, before, after, last, path, persisted) <==>
            && Recoverable(rules, g, after, persisted)
            && (persisted == last || PartWay(last, path, persisted))
            && after.blocks == before.blocks && SameAbove(before, after, |persisted|)
            && (FixedSet(wired, founders, after) ==> SignedChain(founders, persisted))
  {
  }

  /** One round of the replay loop stopped half-way: what can be recovered is the chain so far, or one
      block more. */
  lemma BrokenBefore(rules: Rules, g: Block, before: Disk, after: Disk, writes: nat, persisted: seq<Block>, b: Block)
    requires Recoverable(rules, g, before, persisted) && StoppedBefore(before, after, writes, b)
    ensures Recoverable(rules, g, after, persisted) && after.blocks == before.blocks && after.heights == before.heights
  {
    RestCarries(rules, g, before, after, persisted);
  }

  lemma BrokenAfter(wired: bool, rules: Rules, g: Block, minStake: nat, founders: seq<Bytes>, validators: seq<Bytes>,
                    before: Disk, after: Disk, cur: seq<Block>, b: Block)
    requires StoppedAfter(rules, g, before, after, cur, b) && after.checkpoint.Some? && before.blocks[b.Hash() := b] == before.blocks
    requires StaffOk(wired, rules, minStake, founders, validators, before, cur) && HeightsAt(before, cur) && b.header.height == |cur|
    requires SignerOf(validators, b.header).Some? && SigningOk(validators, before, b.header)
    ensures Recoverable(rules, g, after, cur + [b]) && after.blocks == before.blocks && SameAbove(before, after, |cur| + 1)
    ensures FixedSet(wired, founders, after) ==> SignedChain(founders, cur + [b])
  {
    hide ChainOk, StoreOk, HeightsAt, CanExtend, StaffOk, FixedSet, SignedChain, SigningOk;
    SameBlocksFixed(wired, founders, before, after);
    SameAboveNext(before, after, |cur|, b.Hash());
    if FixedSet(wired, founders, after) {
      SignedGrowsIn(wired, rules, minStake, founders, before, validators, cur, b);
    }
  }

  lemma ParentInIs(d: Disk, b: Block)
    ensures ParentIn(d, b) <==> b.header.prevHash in d.blocks && d.blocks[b.header.prevHash].header.height + 1 == b.header.height
  {
  }

  lemma AboveGenesis(d: Disk, b: Block)
    requires ParentIn(d, b)
    ensures b.header.height > 0 && b.header.prevHash in d.blocks
    ensures b.header.height == d.blocks[b.header.prevHash].header.height + 1
  {
  }

  lemma CountedIs(b: Block)
    ensures BlockOut(b.txs, IsRegistration) == Registrations(b)
  {
  }

  lemma AdvanceWork(s: State, b: Block)
    ensures Advance(s, b).cumDiff == s.cumDiff + b.header.difficulty
  {
  }

  lemma OneMoreHeight(d: Disk, d': Disk, chain: seq<Block>, b: Block)
    requires d'.heights == d.heights[|chain| := b.Hash()]
    ensures HeightsExact(d, chain) ==> HeightsExact(d', chain + [b])
  {
  }

  lemma StateValidFacts(rules: Rules, utxos: UtxoMap, supply: nat, registered: nat, b: Block)
    requires StateValid(rules, utxos, supply, registered, b)
    ensures |b.txs| > 0 && RewardSumsFit(utxos, b.txs)
  {
    ValidRewardFits(rules, utxos, supply, registered, b);
  }

  lemma RevertedTables(d: Disk, d': Disk)
    requires d'.Rest() == d.Rest().(txs := d'.txs)
    ensures d'.blocks == d.blocks && d'.heights == d.heights && d'.undos == d.undos
    ensures d'.tip == d.tip && d'.height == d.height && d'.supply == d.supply && d'.cumDiff == d.cumDiff && d'.checkpoint == d.checkpoint
  {
    var r, r' := d.Rest(), d'.Rest();
    assert r.blocks == r'.blocks && r.heights == r'.heights && r.undos == r'.undos && r.tip == r'.tip
        && r.height == r'.height && r.supply == r'.supply && r.cumDiff == r'.cumDiff && r.checkpoint == r'.checkpoint;
  }

  /** Reverting the tip block and dropping its record moves the disk one block back. */
  lemma SteppedBack(rules: Rules, g: Block, start: Disk, reverted: Disk, d: Disk, chain: seq<Block>)
    requires StoreOk(start, g) && ChainOk(rules, g, chain) && HeightsAt(start, chain) && UndosRight(start, chain) && |chain| > 1
    requires reverted.blocks == start.blocks && reverted.heights == start.heights && reverted.undos == start.undos
    requires d == reverted.(undos := reverted.undos - {chain[|chain| - 1].Hash()})
    requires reverted.utxos == Fold(chain[..|chain| - 1]).utxos && IndexesOk(reverted)
    ensures var before := chain[..|chain| - 1];
            && ChainOk(rules, g, before) && StoreOk(d, g) && HeightsAt(d, before) && UndosRight(d, before) && LedgerAt(d, before)
            && (UndosComplete(start, chain) ==> UndosComplete(d, before))
  {
    hide StoreOk, ChainOk, HeightsAt, UndosRight, UndosComplete, IndexesOk, Fold;
    var n := |chain| - 1;
    ChainPrefix(rules, g, chain, n);
    SameTablesCarry(rules, g, start, d, chain);
    HeightsPrefix(d, chain, n);
    UndosShrink(rules, g, start, chain, d);
    SameRegions(reverted, d);
  }

  lemma RecordIsUndo(chain: seq<Block>, b: Block, m: UtxoMap, record: Undo)
    requires m == Fold(chain).utxos && record == UndoFor(m, b, 0).(reward := Reward(m, b))
    ensures record == UndoOf(chain + [b], |chain|)
  {
    assert (chain + [b])[..|chain|] == chain;
  }

  lemma CommittedDisk(start: Disk, applied: Disk, b: Block, record: Undo, supply: nat, cumDiff: nat)
    requires applied.Rest() == start.Rest()
    ensures var d' := Committed(applied, b, record, supply, cumDiff);
            && d' == Committed(start, b, record, supply, cumDiff).(utxos := applied.utxos, addrs := applied.addrs, stakes := applied.stakes)
            && d'.heights == start.heights[b.header.height := b.Hash()] && d'.blocks == start.blocks[b.Hash() := b]
            && d'.checkpoint == start.checkpoint && d'.utxos == applied.utxos
            && (IndexesOk(applied) ==> IndexesOk(d'))
  {
    RestFields(start, applied);
  }

  /** The tip moved to `b`, with the work `work` below and in it, whatever the outputs. */
  ghost predicate Tipped(before: Disk, after: Disk, b: Block, work: nat) {
    && after.tip == Some(b.Hash()) && after.height == Some(b.header.height) && after.checkpoint == before.checkpoint
    && CumDiffOf(after) == work
    && after.heights == before.heights[b.header.height := b.Hash()] && after.blocks == before.blocks[b.Hash() := b]
  }

  lemma TippedMeans(before: Disk, after: Disk, b: Block, work: nat)
    requires b.Hash() in before.blocks && before.blocks[b.Hash()] == b
    ensures Tipped(before, after, b, work) ==>
              && after.height == Some(b.header.height) && after.heights == before.heights[b.header.height := b.Hash()]
              && after.blocks == before.blocks && CumDiffOf(after) == work
    ensures after.Rest() == before.Rest() ==>
              after.blocks == before.blocks && after.heights == before.heights && after.height == before.height && CumDiffOf(after) == CumDiffOf(before)
  {
    if after.Rest() == before.Rest() {
      RestFields(before, after);
    }
  }

  lemma StoppedShort(rules: Rules, g: Block, before: Disk, after: Disk, chain: seq<Block>)
    requires Recoverable(rules, g, before, chain) && after.Rest() == before.Rest()
    ensures Recoverable(rules, g, after, chain)
  {
    RestCarries(rules, g, before, after, chain);
  }

  lemma CommittedTip(start: Disk, applied: Disk, b: Block, record: Undo, supply: nat, cumDiff: nat)
    requires applied.Rest() == start.Rest()
    ensures Tipped(start, Committed(applied, b, record, supply, cumDiff), b, cumDiff)
  {
    RestFields(start, applied);
  }

  /** What CommitBlock wrote is the disk of the longer chain. */
  lemma CommittedFacts(start: Disk, applied: Disk, chain: seq<Block>, b: Block, record: Undo, supply: nat, cumDiff: nat)
    requires applied.Rest() == start.Rest()
    requires start.utxos == Fold(chain).utxos && applied.utxos == ApplyBlock(start.utxos, b)
    requires record == UndoFor(start.utxos, b, 0).(reward := Reward(start.utxos, b))
    requires Fold(chain + [b]) == Advance(Fold(chain), b)
    requires supply == Fold(chain + [b]).supply && cumDiff == Fold(chain + [b]).cumDiff
    requires IndexesOk(applied)
    ensures var d' := Committed(applied, b, record, supply, cumDiff);
            && d'.utxos == Fold(chain + [b]).utxos && IndexesOk(d')
            && d' == CommittedOn(start, chain, b).(utxos := d'.utxos, addrs := d'.addrs, stakes := d'.stakes)
            && record == UndoOf(chain + [b], |chain|)
            && d'.heights == start.heights[b.header.height := b.Hash()] && d'.blocks == start.blocks[b.Hash() := b]
            && d'.checkpoint == start.checkpoint
  {
    hide Fold, UndoOf, Reward, ApplyBlock, UndoFor, IndexesOk, Committed;
    RecordIsUndo(chain, b, start.utxos, record);
    CommittedDisk(start, applied, b, record, supply, cumDiff);
  }
}
