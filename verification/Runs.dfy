/** Whole runs: a node started on an empty database and fed any blocks in any order. */
module Runs {
  import opened Primitives
  import opened Types
  import opened Weights
  import opened TxRules
  import opened StateRules
  import opened Replay
  import opened Economics
  import opened Storage
  import opened UtxoStore
  import opened BlockStore
  import opened ChainSpec
  import opened Sorting
  import opened Poa
  import opened Signing
  import opened Staffing
  import opened Branches
  import opened Transitions
  import opened Rebuilding
  import opened Genesis
  import opened Chain

  /** What holds of every database and its counters, said without the node's own invariant: they are
      the fold of one valid chain, and value is conserved and capped. */
  ghost predicate Balanced(rules: Rules, g: Block, d: Disk, supply: nat, cumDiff: nat, registered: nat, chain: seq<Block>) {
    && ChainOk(rules, g, chain)
    && d.utxos == Fold(chain).utxos && IndexesOk(d)
    && HeightsAt(d, chain) && UndosRight(d, chain) && UndosComplete(d, chain)
    && TipIs(d, chain) && SupplyOf(d) == supply && CumDiffOf(d) == cumDiff
    && supply == Fold(chain).supply && cumDiff == Fold(chain).cumDiff
    && registered == Total(d.utxos, IsRegistration)
    && Total(d.utxos, ValueOf) <= supply
    && (rules.maxSupply > 0 && OutSum(g.txs[0], ValueOf) <= rules.maxSupply ==> supply <= rules.maxSupply)
  }

  /** A run that was never interrupted also keeps both indexes of blocks exact. */
  ghost predicate Settled(rules: Rules, g: Block, d: Disk, supply: nat, cumDiff: nat, registered: nat, chain: seq<Block>) {
    && Balanced(rules, g, d, supply, cumDiff, registered, chain)
    && HeightsExact(d, chain) && d.txs == TxIndex(chain)
  }

  lemma MakeBalanced(rules: Rules, g: Block, d: Disk, supply: nat, cumDiff: nat, registered: nat, chain: seq<Block>)
    requires TxHashSound() && ChainOk(rules, g, chain) && |g.txs| > 0
    requires d.utxos == Fold(chain).utxos && IndexesOk(d) && HeightsAt(d, chain)
    requires UndosRight(d, chain) && UndosComplete(d, chain) && |chain| > 0 && TipIs(d, chain) && SupplyOf(d) == supply && CumDiffOf(d) == cumDiff
    requires supply == Fold(chain).supply && cumDiff == Fold(chain).cumDiff && registered == Fold(chain).registered
    ensures Balanced(rules, g, d, supply, cumDiff, registered, chain)
  {
    hide ChainOk, Fold, IndexesOk, HeightsAt, UndosRight, UndosComplete, TipIs, TxIndex;
    RegisteredIsCounted(rules, g, chain);
    ValueUnderSupply(rules, g, chain);
    if rules.maxSupply > 0 && OutSum(g.txs[0], ValueOf) <= rules.maxSupply {
      SupplyUnderCap(rules, g, chain);
    }
  }

  lemma MakeSettled(rules: Rules, g: Block, d: Disk, supply: nat, cumDiff: nat, registered: nat, chain: seq<Block>)
    requires Balanced(rules, g, d, supply, cumDiff, registered, chain) && HeightsExact(d, chain) && d.txs == TxIndex(chain)
    ensures Settled(rules, g, d, supply, cumDiff, registered, chain)
  {
  }

  /** A node between calls whose undo records are complete is balanced. */
  lemma CoreBalances(n: Node)
    requires TxHashSound() && n.Core() && UndosComplete(n.db.disk, n.active) && |n.genesis.txs| > 0
    ensures Balanced(n.rules, n.genesis, n.db.disk, n.supply, n.cumDiff, n.registered, n.active)
    ensures StaffOk(n.wired, n.rules, n.engine.minStake, n.engine.genesisValidators, n.engine.validators, n.db.disk, n.active)
  {
    hide *;
    n.CoreFacts();
    n.LedgerFacts(n.active);
    TotalsMean(n.db.disk, n.active);
    MakeBalanced(n.rules, n.genesis, n.db.disk, n.supply, n.cumDiff, n.registered, n.active);
  }

  /** How a run ends: every block was processed; a reorganisation was interrupted and a restart
      completed; or it stopped, and why. */
  datatype Outcome = Ran(node: Node) | Recovered(node: Node) | Stopped(why: Reason)

  datatype Reason =
    | GenesisRefused   // the allocations overflow, or a write failed
    | FastPathHalted   // a write failed on the fast path, or the registration counter overflowed
    | RestartsCutShort // no restart had the writes to complete

  /** The chains a node has followed, in order: each has more work than those before and is no shorter,
      so no tip comes back. */
  ghost predicate Rising(history: seq<seq<Block>>) {
    forall i, j :: 0 <= i < j < |history| ==> Fold(history[i]).cumDiff < Fold(history[j]).cumDiff && |history[i]| <= |history[j]|
  }

  lemma RisingGrows(history: seq<seq<Block>>, next: seq<Block>)
    requires |history| > 0 && Rising(history)
    requires Fold(next).cumDiff > Fold(history[|history| - 1]).cumDiff && |history[|history| - 1]| <= |next|
    ensures Rising(history + [next])
  {
    hide Fold;
  }

  lemma RisingStarts(chain: seq<Block>)
    ensures Rising([chain])
  {
  }

  /** Arrival i, on the disk `d` that holds `from`, moves the tip to `to`: on top of it, or to the branch
      that the fork choice prefers. */
  ghost predicate Moved(rules: Rules, g: Block, known: set<Block>, arrivals: seq<(Block, nat)>, i: nat, d: Disk, from: seq<Block>, to: seq<Block>) {
    && i < |arrivals| && DiskAt(rules, g, d, from) && StoredArrived(d, known, arrivals, i)
    && (to == from + [arrivals[i].0] || ForkChosen(g, d, from, arrivals[i].0, to))
  }

  /** `to` is what the fork choice makes of `from` when `b` is stored off it. */
  ghost predicate ForkChosen(g: Block, d: Disk, from: seq<Block>, b: Block, to: seq<Block>) {
    var stored := WithBlock(d, b);
    StoreOk(stored, g) && b.Hash() in stored.blocks && to == Chosen(stored, g, from, b)
  }

  ghost predicate MovedBySome(rules: Rules, g: Block, known: set<Block>, arrivals: seq<(Block, nat)>, from: seq<Block>, to: seq<Block>) {
    exists i, d :: Moved(rules, g, known, arrivals, i, d, from, to)
  }

  /** Each chain of the history comes from the one before it by one of the arrivals. */
  ghost predicate Followed(rules: Rules, g: Block, known: set<Block>, arrivals: seq<(Block, nat)>, history: seq<seq<Block>>) {
    forall k :: 0 < k < |history| ==> MovedBySome(rules, g, known, arrivals, history[k - 1], history[k])
  }

  lemma FollowedStarts(rules: Rules, g: Block, known: set<Block>, arrivals: seq<(Block, nat)>, chain: seq<Block>)
    ensures Followed(rules, g, known, arrivals, [chain])
  {
  }

  lemma FollowedGrows(rules: Rules, g: Block, known: set<Block>, arrivals: seq<(Block, nat)>, history: seq<seq<Block>>, i: nat, d: Disk, next: seq<Block>)
    requires |history| > 0 && Followed(rules, g, known, arrivals, history)
    requires Moved(rules, g, known, arrivals, i, d, history[|history| - 1], next)
    ensures Followed(rules, g, known, arrivals, history + [next])
  {
    hide Moved;
    var longer := history + [next];
    forall k | 0 < k < |longer|
      ensures MovedBySome(rules, g, known, arrivals, longer[k - 1], longer[k])
    {
      if k < |history| {
        assert longer[k - 1] == history[k - 1] && longer[k] == history[k];
      } else {
        assert Moved(rules, g, known, arrivals, i, d, longer[k - 1], longer[k]);
      }
    }
  }

  lemma MakeMoved(rules: Rules, g: Block, known: set<Block>, arrivals: seq<(Block, nat)>, i: nat, d: Disk, from: seq<Block>, to: seq<Block>)
    requires i < |arrivals| && DiskAt(rules, g, d, from) && StoredArrived(d, known, arrivals, i)
    requires to == from + [arrivals[i].0] || ForkChosen(g, d, from, arrivals[i].0, to)
    ensures Moved(rules, g, known, arrivals, i, d, from, to)
  {
    hide DiskAt, StoredArrived, ForkChosen;
  }

  lemma MakeForkChosen(g: Block, d: Disk, from: seq<Block>, b: Block, to: seq<Block>)
    requires StoreOk(WithBlock(d, b), g) && b.Hash() in WithBlock(d, b).blocks && to == Chosen(WithBlock(d, b), g, from, b)
    ensures ForkChosen(g, d, from, b, to)
  {
    hide StoreOk, Chosen, WithBlock;
  }

  /** Every stored block was known before or is one of the first n arrivals. */
  ghost predicate StoredArrived(d: Disk, known: set<Block>, arrivals: seq<(Block, nat)>, n: nat)
    requires n <= |arrivals|
  {
    forall h :: h in d.blocks ==> d.blocks[h] in known || exists i :: 0 <= i < n && d.blocks[h] == arrivals[i].0
  }

  lemma ArrivedStep(d: Disk, d': Disk, known: set<Block>, arrivals: seq<(Block, nat)>, n: nat)
    requires n < |arrivals| && StoredArrived(d, known, arrivals, n)
    requires var b := arrivals[n].0; d'.blocks in {d.blocks, d.blocks[b.Hash() := b]}
    ensures StoredArrived(d', known, arrivals, n + 1)
  {
    forall h | h in d'.blocks && d'.blocks[h] !in known
      ensures exists i :: 0 <= i < n + 1 && d'.blocks[h] == arrivals[i].0
    {
      if h in d.blocks && d.blocks[h] == d'.blocks[h] {
        var i :| 0 <= i < n && d.blocks[h] == arrivals[i].0;
      } else {
        assert d'.blocks[h] == arrivals[n].0;
      }
    }
  }

  lemma KnownArrived(d: Disk, arrivals: seq<(Block, nat)>)
    ensures StoredArrived(d, d.blocks.Values, arrivals, 0)
  {
  }

  lemma OnlyGenesisKnown(d: Disk, g: Block)
    requires d.blocks == map[g.Hash() := g]
    ensures d.blocks.Values == {g}
  {
    assert d.blocks[g.Hash()] == g;
  }

  /** The branch that arrival `at` completes, once it is stored next to what was on `before`. */
  ghost predicate Completes(g: Block, arrivals: seq<(Block, nat)>, at: nat, before: Disk, last: seq<Block>, path: seq<Block>)
    requires at < |arrivals|
  {
    var b := arrivals[at].0;
    var stored := WithBlock(before, b);
    && b.Hash() !in before.blocks
    && StoreOk(stored, g) && b.Hash() in stored.blocks
    && path == Path(stored, g, last, b.Hash()) && |path| > 0 && path[0].header.height <= |last|
  }

  /** Arrival `at` set off a switch away from `last`, which was interrupted and left `chain` on the
      disk `after`: the old tip's chain, or the fork and a non-empty part of the branch it completes. */
  ghost predicate OnTheWay(rules: Rules, g: Block, known: set<Block>, arrivals: seq<(Block, nat)>, at: nat, before: Disk, last: seq<Block>,
                           path: seq<Block>, after: Disk, chain: seq<Block>) {
    && at < |arrivals|
    && DiskAt(rules, g, before, last) && StoredArrived(before, known, arrivals, at)
    && Completes(g, arrivals, at, before, last, path)
    && (chain == last || PartWay(last, path, chain))
    && after.blocks == WithBlock(before, arrivals[at].0).blocks && SameAbove(before, after, |chain|)
  }

  lemma MakeOnTheWay(wired: bool, rules: Rules, g: Block, founders: seq<Bytes>, known: set<Block>, arrivals: seq<(Block, nat)>, at: nat, before: Disk,
                     last: seq<Block>, path: seq<Block>, after: Disk, chain: seq<Block>)
    requires at < |arrivals| && DiskAt(rules, g, before, last) && StoredArrived(before, known, arrivals, at)
    requires Completes(g, arrivals, at, before, last, path)
    requires LeftRecoverable(wired, rules, g, founders, WithBlock(before, arrivals[at].0), after, last, path, chain)
    ensures OnTheWay(rules, g, known, arrivals, at, before, last, path, after, chain)
  {
    hide Recoverable, DiskAt, StoredArrived, Completes, PartWay, FixedSet, SignedChain;
    assert WithBlock(before, arrivals[at].0).heights == before.heights;
  }

  lemma StillOnTheWay(rules: Rules, g: Block, known: set<Block>, arrivals: seq<(Block, nat)>, at: nat, before: Disk, last: seq<Block>,
                      path: seq<Block>, after: Disk, left: Disk, chain: seq<Block>)
    requires OnTheWay(rules, g, known, arrivals, at, before, last, path, after, chain) && left.blocks == after.blocks && left.heights == after.heights
    ensures OnTheWay(rules, g, known, arrivals, at, before, last, path, left, chain)
  {
    hide DiskAt, StoredArrived, Completes, PartWay;
  }

  lemma OnTheWayMeans(rules: Rules, g: Block, known: set<Block>, arrivals: seq<(Block, nat)>, at: nat, before: Disk, last: seq<Block>,
                      path: seq<Block>, after: Disk, chain: seq<Block>)
    requires OnTheWay(rules, g, known, arrivals, at, before, last, path, after, chain)
    ensures at < |arrivals| && SameAbove(before, after, |chain|) && (chain == last || PartWay(last, path, chain))
    ensures ChainOk(rules, g, last) && StoreOk(WithBlock(before, arrivals[at].0), g)
    ensures after.blocks == WithBlock(before, arrivals[at].0).blocks && WithBlock(before, arrivals[at].0).heights == before.heights
    ensures HeightsAt(before, last) && StoreOk(before, g) && arrivals[at].0.Hash() !in before.blocks
    ensures arrivals[at].0.Hash() in WithBlock(before, arrivals[at].0).blocks
    ensures path == Path(WithBlock(before, arrivals[at].0), g, last, arrivals[at].0.Hash()) && |path| > 0 && path[0].header.height <= |last|
    ensures WithBlock(before, arrivals[at].0).blocks[arrivals[at].0.Hash()] == arrivals[at].0
  {
    hide ChainOk, LedgerAt, UndosRight, Fold, PartWay, StoredArrived, SameAbove, StoreOk, HeightsAt, Path;
  }

  /** The block a part-way chain ends with is not on the chain that was left. */
  lemma {:induction false} TipIsOff(rules: Rules, g: Block, known: set<Block>, arrivals: seq<(Block, nat)>, at: nat, before: Disk, last: seq<Block>,
                                    path: seq<Block>, after: Disk, chain: seq<Block>, i: nat)
    requires OnTheWay(rules, g, known, arrivals, at, before, last, path, after, chain) && chain != last && i < |last|
    ensures |chain| > 0 && last[i].Hash() != chain[|chain| - 1].Hash()
  {
    hide *;
    OnTheWayMeans(rules, g, known, arrivals, at, before, last, path, after, chain);
    var b := arrivals[at].0;
    var stored := WithBlock(before, b);
    PathIsBranch(rules, stored, g, last, b.Hash());
    PartWayTip(stored, g, last, b.Hash(), path, chain);
    StoredUnderHash(before, g, last, i);
    WithBlockIs(before, b);
  }

  lemma CompletesIs(g: Block, arrivals: seq<(Block, nat)>, at: nat, before: Disk, last: seq<Block>, path: seq<Block>)
    requires at < |arrivals|
    requires var b := arrivals[at].0; var stored := WithBlock(before, b);
             && b.Hash() !in before.blocks && StoreOk(stored, g) && b.Hash() in stored.blocks
             && path == Path(stored, g, last, b.Hash()) && |path| > 0 && path[0].header.height <= |last|
    ensures Completes(g, arrivals, at, before, last, path)
  {
  }

  /** What an interrupted switch does to the height index: nothing is wrong with it when the chain is
      no shorter than before, but a chain that lost two blocks or more has a stored block whose
      branch the next walk mistakes. */
  lemma {:induction false} HeightsOnTheWay(rules: Rules, g: Block, known: set<Block>, arrivals: seq<(Block, nat)>, at: nat, before: Disk, last: seq<Block>,
                                           path: seq<Block>, after: Disk, chain: seq<Block>)
    requires OnTheWay(rules, g, known, arrivals, at, before, last, path, after, chain) && Recoverable(rules, g, after, chain)
    ensures StoreOk(after, g) && |chain| > 0
    ensures |chain| >= |last| && HeightsExact(before, last) ==> HeightsExact(after, chain)
    ensures |chain| < |last| ==> Torn(after, chain)
    ensures |chain| + 2 <= |last| ==>
              var lost := last[|chain| + 1].Hash();
              && lost in after.blocks && !Clear(after, g, chain, lost)
              && Walk(after, g, lost) != Path(after, g, chain, lost)
  {
    hide *;
    OnTheWayMeans(rules, g, known, arrivals, at, before, last, path, after, chain);
    RecoverableParts(rules, g, after, chain);
    var stored := WithBlock(before, arrivals[at].0);
    if |chain| >= |last| {
      if HeightsExact(before, last) {
        ExactStays(before, after, last, chain);
      }
    } else {
      WithBlockHeights(before, g, last, arrivals[at].0);
      SameAboveOf(stored, before, |chain|);
      SameAboveChain(stored, before, after, |chain|, |chain|);
      TipIsOff(rules, g, known, arrivals, at, before, last, path, after, chain, |chain| - 1);
      CutBackTears(rules, g, stored, last, after, chain);
      if |chain| + 2 <= |last| {
        CutBackLeavesStale(rules, g, stored, last, after, |chain|);
        WalkExactlyPath(after, g, chain, last[|chain| + 1].Hash());
      }
    }
  }

  /** Restarts on a recoverable database. */
  method Recover(disk: Disk, budgets: seq<nat>, founders: seq<Bytes>, blockTime: nat, wired: bool, minStake: Uint64, rules: Rules,
                 ghost g: Block, ghost chain: seq<Block>) returns (r: Outcome, left: Disk)
    requires |founders| > 0 && blockTime > 0 && SortedBy(LexLe, founders) && TxHashSound()
    requires Recoverable(rules, g, disk, chain) && g.Hash() != ZERO_HASH && |g.txs| > 0
    requires FixedSet(wired, founders, disk) ==> SignedChain(founders, chain)
    ensures r.Recovered? || r == Stopped(RestartsCutShort)
    ensures r.Recovered? ==>
              var n := r.node;
              && n.active == chain && n.rules == rules && n.genesis == g && n.engine.genesisValidators == founders
              && n.Core() && Balanced(rules, g, n.db.disk, n.supply, n.cumDiff, n.registered, chain)
              && StaffOk(wired, rules, minStake, founders, n.engine.validators, n.db.disk, chain)
              && n.db.disk == left && (HeightsExact(disk, chain) ==> n.Valid())
    ensures left.blocks == disk.blocks && left.heights == disk.heights
    ensures r.Stopped? && MostKeys(disk, chain) <= MAX_U64 && Fold(chain).registered <= MAX_U64 ==>
              forall i :: 0 <= i < |budgets| ==> budgets[i] < MostKeys(disk, chain) + ReplayWrites(chain) + 5
  {
    hide *;
    var restarted;
    restarted, left := RestartUntilDone(disk, budgets, founders, blockTime, wired, minStake, rules, g, chain);
    if restarted.None? {
      return Stopped(RestartsCutShort), left;
    }
    CoreBalances(restarted.value);
    return Recovered(restarted.value), left;
  }

  lemma SortedEngine(engine: Engine)
    requires engine.Valid() && engine.validators == engine.genesisValidators
    ensures |engine.genesisValidators| > 0 && SortedBy(LexLe, engine.genesisValidators)
  {
  }

  /** How feeding ends. */
  datatype Fate =
    | AllProcessed
    | OutOfWrites        // stopped on the fast path before its first write
    | NodeHalted         // ... or after it
    | ReorgInterrupted
    | LedAstray

  /** What a halt on the fast path leaves once something was written: no chain, unless it was the
      registration counter that overflowed after the block was committed. */
  ghost predicate HaltedAt(rules: Rules, g: Block, chain: seq<Block>, b: Block, after: Disk, left: nat) {
    || (Lost(rules, g, after) && left == 0)
    || Fold(chain).registered + Registrations(b) > MAX_U64
  }

  /** What a reorganisation along a misread branch leaves: the old chain to recover, or the database of no
      chain, from which a restart rebuilds at most the one that its height index spells. */
  ghost predicate AstrayAt(wired: bool, rules: Rules, g: Block, founders: seq<Bytes>, before: Disk, chain: seq<Block>, after: Disk) {
    && |chain| > 0 && !HeightsExact(before, chain)
    && ((Recoverable(rules, g, after, chain) && (FixedSet(wired, founders, after) ==> SignedChain(founders, chain))) || Crossed(rules, g, before, chain, after))
  }

  /** After a fork the node is on the chosen chain, or could not leave its own for want of writes. */
  lemma ForkFollowed(n: Node, before: Disk, last: seq<Block>, b: Block, step: Processed, persisted: seq<Block>)
    requires var stored := WithBlock(before, b); StoreOk(stored, n.genesis) && b.Hash() in stored.blocks && |last| > 0
    requires step.SideBlock? || step.Forked?
    requires step.SideBlock? <==> b.header.height < |last| - 1
    requires step.SideBlock? || (step.Forked? && step.result.NoBranch?) ==> n.active == last
    requires step.Forked? ==> n.AfterFork(WithBlock(before, b), last, b.Hash(), step.result, persisted)
    requires step.Forked? ==> step.result.Kept? || step.result.NoBranch? || step.result.NotStarted? || step.result.Switched?
    ensures n.db.writesLeft > 0 ==> ForkChosen(n.genesis, before, last, b, n.active)
    ensures n.active == last || ForkChosen(n.genesis, before, last, b, n.active)
  {
    hide *;
    var stored := WithBlock(before, b);
    n.ForkChoice(stored, last, b, step, persisted);
    if n.active == Chosen(stored, n.genesis, last, b) {
      MakeForkChosen(n.genesis, before, last, b, n.active);
    }
  }

  /** One arrival at a node whose undo records are complete. `known` are the blocks it had stored. */
  method FeedOne(n: Node, arrivals: seq<(Block, nat)>, i: nat, ghost known: set<Block>) returns (fate: Fate, ghost chain: seq<Block>, ghost path: seq<Block>)
    requires n.Core() && UndosComplete(n.db.disk, n.active) && TxHashSound() && i < |arrivals| && Tagged(arrivals[i].0)
    requires StoredArrived(n.db.disk, known, arrivals, i)
    modifies n.db, n`height, n`tipHash, n`tipTimestamp, n`supply, n`cumDiff, n`registered, n`active, n.engine`validators, n.engine`lastProduced
    ensures n.Objects()
    ensures fate.AllProcessed? ==> n.Core() && UndosComplete(n.db.disk, n.active) && StoredArrived(n.db.disk, known, arrivals, i + 1) && chain == n.active
    ensures fate.AllProcessed? && chain != old(n.active) ==> Fold(chain).cumDiff > Fold(old(n.active)).cumDiff && |chain| >= |old(n.active)|
    ensures fate.AllProcessed? && old(n.Extends(arrivals[i].0, arrivals[i].1)) ==> chain == old(n.active) + [arrivals[i].0]
    ensures fate.AllProcessed? && old(n.Forks(arrivals[i].0, arrivals[i].1)) && n.db.writesLeft > 0 ==>
              ForkChosen(n.genesis, old(n.db.disk), old(n.active), arrivals[i].0, chain)
    ensures fate.AllProcessed? && !old(n.Extends(arrivals[i].0, arrivals[i].1)) && !old(n.Forks(arrivals[i].0, arrivals[i].1)) ==>
              chain == old(n.active) && n.db.disk == old(n.db.disk)
    ensures fate.AllProcessed? && chain != old(n.active) ==>
              Moved(n.rules, n.genesis, known, arrivals, i, old(n.db.disk), old(n.active), chain)
    ensures fate.AllProcessed? && old(n.Valid()) ==> n.Valid()
    ensures fate.AllProcessed? && old(n.Complete(n.active)) ==> n.Complete(n.active)
    ensures DiskAt(n.rules, n.genesis, old(n.db.disk), old(n.active))
    ensures old(n.Valid()) ==> HeightsExact(old(n.db.disk), old(n.active))
    ensures FixedSet(n.wired, n.engine.genesisValidators, old(n.db.disk)) ==> SignedChain(n.engine.genesisValidators, old(n.active))
    ensures fate.OutOfWrites? ==> chain == old(n.active) && n.db.disk == old(n.db.disk) && UndosComplete(n.db.disk, chain)
    ensures fate.OutOfWrites? ==> n.db.writesLeft == 0 || Fold(chain).registered + Registrations(arrivals[i].0) > MAX_U64
    ensures fate.NodeHalted? ==>
              chain == old(n.active) && HaltedAt(n.rules, n.genesis, chain, arrivals[i].0, n.db.disk, n.db.writesLeft)
    ensures fate.LedAstray? ==>
              chain == old(n.active) && !old(n.Valid()) && AstrayAt(n.wired, n.rules, n.genesis, n.engine.genesisValidators, WithBlock(old(n.db.disk), arrivals[i].0), chain, n.db.disk)
    ensures fate.ReorgInterrupted? ==> CutShort(n, known, arrivals, i, old(n.db.disk), old(n.active), path, chain)
  {
    hide *;
    var b := arrivals[i].0;
    var before := n.db.disk;
    ghost var stored := WithBlock(before, b);
    ghost var writes := n.db.writesLeft;
    chain, path := n.active, [];
    n.ValidFacts();
    n.CoreFacts();
    n.MakeDiskAt(n.active);
    n.SignedBelow(chain, |chain|);
    assert chain[..|chain|] == chain;
    ghost var last := n.active;
    n.ForksAreNew(b, arrivals[i].1);
    if n.Extends(b, arrivals[i].1) {
      n.ExtendsNotForks(b, arrivals[i].1);
    }
    if !n.Forks(b, arrivals[i].1) {
      n.NotForked(b, arrivals[i].1);
    }
    WithBlockIs(before, b);
    SameHeights(before, stored, chain);
    SameHeights(stored, before, chain);
    n.CompleteIs(n.active);
    var step, persisted := n.ProcessBlock(b, arrivals[i].1);
    n.CompleteIs(n.active);
    n.StandingIs();
    if step.Halted? {
      n.HowFarMeans(before, writes, chain, b, step);
      if n.db.disk == before {
        return OutOfWrites, chain, path;
      }
      HaltedAtIs(n.rules, n.genesis, chain, b, n.db.disk, n.db.writesLeft);
      return NodeHalted, chain, path;
    }
    if step.Forked? {
      n.AfterForkIs(stored, chain, b.Hash(), step.result, persisted);
      if step.result.Misled? {
        n.MisledIsAstray(stored, chain, b.Hash(), step.result, persisted);
        AstrayAtIs(n.wired, n.rules, n.genesis, n.engine.genesisValidators, stored, chain, n.db.disk);
        return LedAstray, chain, path;
      }
      if step.result.Interrupted? {
        path := Path(stored, n.genesis, chain, b.Hash());
        n.InterruptedIsClear(stored, chain, b.Hash(), step.result, persisted);
        CompletesIs(n.genesis, arrivals, i, before, chain, path);
        MakeOnTheWay(n.wired, n.rules, n.genesis, n.engine.genesisValidators, known, arrivals, i, before, chain, path, n.db.disk, persisted);
        LeftRecoverableMeans(n.wired, n.rules, n.genesis, n.engine.genesisValidators, stored, n.db.disk, chain, path, persisted);
        MakeCutShort(n, known, arrivals, i, before, chain, path, persisted);
        return ReorgInterrupted, persisted, path;
      }
    }
    chain := n.active;
    if step.SideBlock? || step.Forked? {
      n.CoreFacts();
      ForkFollowed(n, before, last, b, step, persisted);
    }
    if chain != last {
      MakeMoved(n.rules, n.genesis, known, arrivals, i, before, last, chain);
    }
    ArrivedStep(before, n.db.disk, known, arrivals, i);
    n.CoreFacts();
    return AllProcessed, chain, path;
  }

  /** An interrupted switch: how far it came, and what is left to recover from. */
  ghost predicate CutShort(n: Node, known: set<Block>, arrivals: seq<(Block, nat)>, at: nat, before: Disk, last: seq<Block>, path: seq<Block>, chain: seq<Block>)
    reads n, n.db, n.engine
  {
    && OnTheWay(n.rules, n.genesis, known, arrivals, at, before, last, path, n.db.disk, chain)
    && Recoverable(n.rules, n.genesis, n.db.disk, chain)
    && (FixedSet(n.wired, n.engine.genesisValidators, n.db.disk) ==> SignedChain(n.engine.genesisValidators, chain))
    && (n.db.writesLeft == 0 || n.Obstructed(last, last[..path[0].header.height], path, chain))
  }

  lemma MakeCutShort(n: Node, known: set<Block>, arrivals: seq<(Block, nat)>, at: nat, before: Disk, last: seq<Block>, path: seq<Block>, chain: seq<Block>)
    requires OnTheWay(n.rules, n.genesis, known, arrivals, at, before, last, path, n.db.disk, chain) && |path| > 0 && path[0].header.height <= |last|
    requires Recoverable(n.rules, n.genesis, n.db.disk, chain)
    requires FixedSet(n.wired, n.engine.genesisValidators, n.db.disk) ==> SignedChain(n.engine.genesisValidators, chain)
    requires n.db.writesLeft == 0 || n.Obstructed(last, last[..path[0].header.height], path, chain)
    ensures CutShort(n, known, arrivals, at, before, last, path, chain)
  {
    hide OnTheWay, Recoverable, FixedSet, SignedChain;
  }

  lemma CutShortMeans(n: Node, known: set<Block>, arrivals: seq<(Block, nat)>, at: nat, before: Disk, last: seq<Block>, path: seq<Block>, chain: seq<Block>)
    requires CutShort(n, known, arrivals, at, before, last, path, chain)
    ensures OnTheWay(n.rules, n.genesis, known, arrivals, at, before, last, path, n.db.disk, chain)
    ensures Recoverable(n.rules, n.genesis, n.db.disk, chain)
    ensures FixedSet(n.wired, n.engine.genesisValidators, n.db.disk) ==> SignedChain(n.engine.genesisValidators, chain)
  {
    hide OnTheWay, Recoverable, FixedSet, SignedChain;
  }

  /** Any blocks, in any order. */
  method Feed(n: Node, arrivals: seq<(Block, nat)>, ghost known: set<Block>)
    returns (fate: Fate, ghost chain: seq<Block>, ghost history: seq<seq<Block>>, ghost at: nat, ghost before: Disk, ghost path: seq<Block>)
    requires n.Core() && UndosComplete(n.db.disk, n.active) && TxHashSound()
    requires forall i :: 0 <= i < |arrivals| ==> Tagged(arrivals[i].0)
    requires StoredArrived(n.db.disk, known, arrivals, 0)
    modifies n.db, n`height, n`tipHash, n`tipTimestamp, n`supply, n`cumDiff, n`registered, n`active, n.engine`validators, n.engine`lastProduced
    ensures n.Objects()
    ensures |history| > 0 && history[0] == old(n.active) && Rising(history)
    ensures Followed(n.rules, n.genesis, known, arrivals, history)
    ensures fate.AllProcessed? ==> n.Core() && UndosComplete(n.db.disk, n.active) && chain == n.active && chain == history[|history| - 1]
    ensures fate.AllProcessed? && old(n.Valid()) ==> n.Valid()
    ensures fate.AllProcessed? && old(n.Complete(n.active)) ==> n.Complete(n.active)
    ensures !fate.AllProcessed? ==> at < |arrivals| && DiskAt(n.rules, n.genesis, before, history[|history| - 1]) && UndosComplete(before, history[|history| - 1])
    ensures !fate.AllProcessed? && old(n.Valid()) ==> HeightsExact(before, history[|history| - 1])
    ensures !fate.AllProcessed? && FixedSet(n.wired, n.engine.genesisValidators, before) ==> SignedChain(n.engine.genesisValidators, history[|history| - 1])
    ensures fate.OutOfWrites? ==> chain == history[|history| - 1] && n.db.disk == before
    ensures fate.OutOfWrites? ==> n.db.writesLeft == 0 || Fold(chain).registered + Registrations(arrivals[at].0) > MAX_U64
    ensures fate.NodeHalted? ==>
              chain == history[|history| - 1] && HaltedAt(n.rules, n.genesis, chain, arrivals[at].0, n.db.disk, n.db.writesLeft)
    ensures fate.LedAstray? ==>
              chain == history[|history| - 1] && AstrayAt(n.wired, n.rules, n.genesis, n.engine.genesisValidators, WithBlock(before, arrivals[at].0), chain, n.db.disk)
    ensures fate.LedAstray? ==> !old(n.Valid())
    ensures fate.ReorgInterrupted? ==> CutShort(n, known, arrivals, at, before, history[|history| - 1], path, chain)
  {
    hide *;
    chain, history, at, before, path := n.active, [n.active], 0, n.db.disk, [];
    RisingStarts(n.active);
    FollowedStarts(n.rules, n.genesis, known, arrivals, n.active);
    for i := 0 to |arrivals|
      invariant n.Core() && UndosComplete(n.db.disk, n.active) && StoredArrived(n.db.disk, known, arrivals, i)
      invariant old(n.Valid()) ==> n.Valid()
      invariant old(n.Complete(n.active)) ==> n.Complete(n.active)
      invariant chain == n.active && |history| > 0 && history[0] == old(n.active) && history[|history| - 1] == chain && Rising(history)
      invariant Followed(n.rules, n.genesis, known, arrivals, history)
    {
      at, before := i, n.db.disk;
      fate, chain, path := FeedOne(n, arrivals, i, known);
      if !fate.AllProcessed? {
        return;
      }
      if chain != history[|history| - 1] {
        RisingGrows(history, chain);
        FollowedGrows(n.rules, n.genesis, known, arrivals, history, i, before, chain);
        history := history + [chain];
      }
    }
    n.CoreFacts();
    return AllProcessed, chain, history, at, before, path;
  }

  lemma HaltedAtIs(rules: Rules, g: Block, chain: seq<Block>, b: Block, after: Disk, left: nat)
    ensures HaltedAt(rules, g, chain, b, after, left) <==>
            || (Lost(rules, g, after) && left == 0) || Fold(chain).registered + Registrations(b) > MAX_U64
  {
    hide Lost;
  }

  lemma AstrayAtIs(wired: bool, rules: Rules, g: Block, founders: seq<Bytes>, before: Disk, chain: seq<Block>, after: Disk)
    ensures AstrayAt(wired, rules, g, founders, before, chain, after) <==>
            && |chain| > 0 && !HeightsExact(before, chain)
            && ((Recoverable(rules, g, after, chain) && (FixedSet(wired, founders, after) ==> SignedChain(founders, chain))) || Crossed(rules, g, before, chain, after))
  {
    hide Crossed, Recoverable, HeightsExact, FixedSet, SignedChain;
  }

  /** The failure is not hypothetical: with a database that takes one more write, every block that
      extends the tip leaves it lost. */
  method StopAfterOneWrite(n: Node, b: Block, now: nat) returns (r: Processed)
    requires n.Valid() && TxHashSound() && n.Extends(b, now) && n.db.writesLeft == 1
    modifies n.db, n`height, n`tipHash, n`tipTimestamp, n`supply, n`cumDiff, n`registered, n`active, n.engine`validators, n.engine`lastProduced
    ensures r.Halted? && n.db.disk.Rest() == old(n.db.disk.Rest()) && Lost(n.rules, n.genesis, n.db.disk)
  {
    hide *;
    n.ValidFacts();
    n.CoreFacts();
    n.ExtendsNotForks(b, now);
    n.NotForked(b, now);
    ghost var before, chain := n.db.disk, n.active;
    ghost var persisted;
    r, persisted := n.ProcessBlock(b, now);
    n.OneWriteLoses(before, chain, b, r);
  }

  /** A node on a database that is empty, or that earlier attempts left without a tip, up to its genesis
      block. */
  method Begin(db: Database, alloc: seq<(Address, Uint64)>, timestamp: Uint64, rules: Rules, founders: seq<Bytes>, blockTime: nat,
               wired: bool, minStake: Uint64) returns (n: Node, ok: bool)
    requires |founders| > 0 && blockTime > 0 && CreateGenesisBlock(alloc, timestamp).Hash() != ZERO_HASH
    requires Startable(db.disk, CreateGenesisBlock(alloc, timestamp))
    modifies db
    ensures fresh(n) && fresh(n.engine) && n.db == db && n.wired == wired && n.engine.minStake == minStake
    ensures multiset(n.engine.genesisValidators) == multiset(founders) && SortedBy(LexLe, n.engine.genesisValidators) && |n.engine.genesisValidators| > 0
    ensures !ok ==> AllocSum(alloc) > MAX_U64 || db.writesLeft == 0
    ensures AllocSum(alloc) > MAX_U64 ==> !ok && db.disk == old(db.disk)
    ensures !ok ==> GenesisCut(rules, CreateGenesisBlock(alloc, timestamp), db.disk, AllocSum(alloc))
    ensures ok ==>
              var g := CreateGenesisBlock(alloc, timestamp);
              && n.Valid() && n.Core() && n.Complete(n.active) && UndosComplete(db.disk, n.active)
              && n.rules == rules && n.genesis == g && n.active == [g] && |g.txs| == 1 && db.disk.blocks.Values == {g}
  {
    hide *;
    var utxos := new Store(db);
    var blocks := new Blocks(db);
    var engine := new Engine(founders, blockTime, wired && minStake > 0, minStake);
    SortedEngine(engine);
    n := new Node.Load(db, utxos, blocks, engine, wired, 0, CreateGenesisBlock(alloc, timestamp), []);
    n.MakeObjects();
    StartableIs(db.disk, CreateGenesisBlock(alloc, timestamp));
    ok := n.InitFromGenesis(alloc, timestamp, rules);
    GenesisPaysOnce(alloc, timestamp);
    if ok {
      OnlyGenesisKnown(db.disk, CreateGenesisBlock(alloc, timestamp));
      n.ValidFacts();
      n.CompleteIs(n.active);
    }
  }

  /** Any run of ProcessBlock calls from genesis, forks and reorganisations included: every change of
      tip adds work. A reorganisation that stops at any write is followed by restarts, of which any
      number are cut short too: `budgets` says after how many writes each of them stops. */
  method RunFromGenesis(db: Database, alloc: seq<(Address, Uint64)>, timestamp: Uint64, rules: Rules, founders: seq<Bytes>, blockTime: nat,
                        wired: bool, minStake: Uint64, arrivals: seq<(Block, nat)>, budgets: seq<nat>)
    returns (r: Outcome, ghost chain: seq<Block>, ghost history: seq<seq<Block>>, ghost at: nat, ghost before: Disk, ghost path: seq<Block>)
    requires TxHashSound() && |founders| > 0 && blockTime > 0 && Startable(db.disk, CreateGenesisBlock(alloc, timestamp))
    requires CreateGenesisBlock(alloc, timestamp).Hash() != ZERO_HASH
    requires forall i :: 0 <= i < |arrivals| ==> Tagged(arrivals[i].0)
    modifies db
    ensures !r.Stopped? ==>
              var n := r.node; var g := CreateGenesisBlock(alloc, timestamp);
              && n.active == chain && n.rules == rules && n.genesis == g
              && multiset(n.engine.genesisValidators) == multiset(founders)
              && n.Core() && Balanced(rules, g, n.db.disk, n.supply, n.cumDiff, n.registered, chain)
              && StaffOk(wired, rules, minStake, n.engine.genesisValidators, n.engine.validators, n.db.disk, chain)
    ensures r.Ran? || r.Recovered? || r == Stopped(FastPathHalted) || r == Stopped(RestartsCutShort) ==>
              && |history| > 0 && history[0] == [CreateGenesisBlock(alloc, timestamp)] && Rising(history)
              && Followed(rules, CreateGenesisBlock(alloc, timestamp), {CreateGenesisBlock(alloc, timestamp)}, arrivals, history)
    ensures r.Ran? ==>
              var n := r.node;
              && n.Valid() && chain == history[|history| - 1]
              && Settled(rules, CreateGenesisBlock(alloc, timestamp), n.db.disk, n.supply, n.cumDiff, n.registered, chain)
    ensures r.Recovered? ==>
              && OnTheWay(rules, CreateGenesisBlock(alloc, timestamp), {CreateGenesisBlock(alloc, timestamp)}, arrivals, at, before, history[|history| - 1], path, r.node.db.disk, chain)
              && (|chain| >= |history[|history| - 1]| ==> r.node.Valid())
    ensures r == Stopped(GenesisRefused) ==> AllocSum(alloc) > MAX_U64 || db.writesLeft == 0
    ensures r == Stopped(FastPathHalted) ==>
              db.writesLeft == 0 || (at < |arrivals| && Fold(history[|history| - 1]).registered + Registrations(arrivals[at].0) > MAX_U64)
    ensures r == Stopped(RestartsCutShort) ==>
              && Recoverable(rules, CreateGenesisBlock(alloc, timestamp), db.disk, chain)
              && (MostKeys(db.disk, chain) <= MAX_U64 && Fold(chain).registered <= MAX_U64 ==>
                    forall i :: 0 <= i < |budgets| ==> budgets[i] < MostKeys(db.disk, chain) + ReplayWrites(chain) + 5)
  {
    hide *;
    chain, history, at, before, path := [], [], 0, db.disk, [];
    var n, ok := Begin(db, alloc, timestamp, rules, founders, blockTime, wired, minStake);
    if !ok {
      return Stopped(GenesisRefused), chain, history, at, before, path;
    }
    ghost var g := CreateGenesisBlock(alloc, timestamp);
    KnownArrived(db.disk, arrivals);
    var fate;
    fate, chain, history, at, before, path := Feed(n, arrivals, {g});
    n.ObjectFacts();
    match fate {
      case OutOfWrites =>
        r := Stopped(FastPathHalted);
      case NodeHalted =>
        HaltedAtIs(rules, g, chain, arrivals[at].0, db.disk, db.writesLeft);
        r := Stopped(FastPathHalted);
      case LedAstray =>
        assert false;
      case ReorgInterrupted =>
        CutShortMeans(n, {g}, arrivals, at, before, history[|history| - 1], path, chain);
        var left;
        r, left := Recover(db.disk, budgets, n.engine.genesisValidators, blockTime, wired, minStake, rules, g, chain);
        StillOnTheWay(rules, g, {g}, arrivals, at, before, history[|history| - 1], path, db.disk, left, chain);
        HeightsOnTheWay(rules, g, {g}, arrivals, at, before, history[|history| - 1], path, db.disk, chain);
      case AllProcessed =>
        n.CompleteIs(chain);
        n.ValidFacts();
        CoreBalances(n);
        MakeSettled(rules, g, db.disk, n.supply, n.cumDiff, n.registered, chain);
        r := Ran(n);
    }
  }

  lemma TotalsMean(d: Disk, chain: seq<Block>)
    requires TotalsAt(d, chain)
    ensures SupplyOf(d) == Fold(chain).supply && CumDiffOf(d) == Fold(chain).cumDiff
  {
  }

  lemma GenesisPaysOnce(alloc: seq<(Address, Uint64)>, timestamp: Uint64)
    ensures |CreateGenesisBlock(alloc, timestamp).txs| == 1
  {
  }
}
