/** The chain state machine (internal/chain): extending the tip, reorganising onto a heavier
    branch, and rebuilding after an interruption. Each method keeps the database and the counters
    equal to the fold of the active chain. */
module Chain {
  import opened Primitives
  import opened Types
  import opened Ledger
  import opened Weights
  import opened BlockRules
  import opened StateRules
  import opened Replay
  import opened Economics
  import opened Storage
  import opened UtxoStore
  import opened BlockStore
  import opened ChainSpec
  import opened ChainSteps
  import opened BlockEffects
  import opened Sorting
  import opened Poa
  import opened Signing
  import opened Validators
  import opened Branches
  import opened Staffing
  import opened Rebuilding
  import opened Genesis
  import opened Transitions

  const MAX_REORG_DEPTH: nat := 1000

  datatype BranchResult = Branch(blocks: seq<Block>) | Missing | TooDeep

  datatype Step =
    | Connected   // the block is on top
    | Refused     // rejected before anything was written
    | Broken      // stopped half-way: only a restart helps

  datatype BackStep =
    | Reverted(block: Block, undo: Undo)
    | NoUndo      // the record is missing: nothing was touched
    | Stuck       // stopped half-way

  datatype Rewind = Rewound | UndoMissing | RewindStuck

  datatype ReorgResult =
    | Kept          // the branch has no more work than the active chain
    | NoBranch      // unknown tip, or a branch beyond the depth limit
    | NotStarted    // the checkpoint could not be written
    | Switched      // the branch is now the active chain
    | Interrupted   // stopped with the checkpoint on disk: a restart recovers
    | Replayed      // an undo record was missing: the branch is active after a replay from genesis
    | ReplayStopped // ... or that replay stopped half-way
    | Misled        // a branch that hangs on a stale height entry was taken for one above the tip

  datatype Rejection =
    | Known | UnknownParent | WrongHeight | BadBlock | BadHeader | FromFuture | BeforeParent | SigningLimit | BadState | NotStored

  datatype Processed =
    | Rejected(why: Rejection)
    | Extended                    // the block is the new tip
    | SideBlock                   // stored off the active chain, below its height
    | Forked(result: ReorgResult) // stored off the active chain, and a reorganisation tried
    | Halted                      // stopped half-way on the fast path

  const MAX_DRIFT: nat := 120   // seconds a block may be ahead of the clock

  /** The fork choice: of a chain and the stored branch that ends in `b`, the branch if it reaches the
      height of the tip, is within the depth limit, and has more work. */
  ghost function Chosen(d: Disk, g: Block, chain: seq<Block>, b: Block): seq<Block>
    requires StoreOk(d, g) && b.Hash() in d.blocks
  {
    var target := Switch(chain, Path(d, g, chain, b.Hash()));
    if b.header.height + 1 < |chain| || |Walk(d, g, b.Hash())| > MAX_REORG_DEPTH || Fold(target).cumDiff <= Fold(chain).cumDiff then chain else target
  }

  /** countRegisteredSubChains: the register outputs among the unspent ones. */
  method CountRegisteredSubChains(store: Store) returns (r: Option<nat>)
    ensures r.Some? <==> Total(store.db.disk.utxos, IsRegistration) <= MAX_U64
    ensures r.Some? ==> r.value == Total(store.db.disk.utxos, IsRegistration)
  {
    var count := 0;
    var rest := store.db.disk.utxos;
    while rest != map[]
      invariant forall op :: op in rest ==> op in store.db.disk.utxos && rest[op] == store.db.disk.utxos[op]
      invariant count + Total(rest, IsRegistration) == Total(store.db.disk.utxos, IsRegistration)
      invariant count <= MAX_U64
      decreases |rest|
    {
      var op :| op in rest;
      var u := rest[op];
      MapSumRemove(rest, op, Lift(IsRegistration));
      assert Lift(IsRegistration)(u) == IsRegistration(AsOutput(u)) == if u.script.kind == Register then 1 else 0;
      rest := rest - {op};
      if u.script.kind != Register {
        continue;
      }
      if count == MAX_U64 {
        return None;
      }
      count := count + 1;
    }
    return Some(count);
  }

  class Node {
    const db: Database
    const utxos: Store
    const blocks: Blocks
    const engine: Engine
    const wired: bool   // the stake handlers are connected; the engine's own stake checker also needs a positive stake

    var rules: Rules
    var height: nat
    var tipHash: Hash
    var supply: nat
    var cumDiff: nat
    var tipTimestamp: nat
    var registered: nat
    var genesisHash: Hash

    ghost var genesis: Block
    ghost var active: seq<Block>

    /** The fields New fills in from the database, before any recovery. Consensus rules are set later. */
    constructor Load(db: Database, utxos: Store, blocks: Blocks, engine: Engine, wired: bool, registered: nat, ghost genesis: Block, ghost chain: seq<Block>)
      ensures this.db == db && this.utxos == utxos && this.blocks == blocks && this.engine == engine && this.wired == wired
      ensures this.genesis == genesis && active == chain && this.registered == registered
      ensures rules == NO_RULES
      ensures tipHash == (if db.disk.tip.Some? then db.disk.tip.value else ZERO_HASH)
      ensures height == (if db.disk.tip.Some? && db.disk.height.Some? then db.disk.height.value else 0)
      ensures supply == (if db.disk.tip.Some? then SupplyOf(db.disk) else 0) && cumDiff == CumDiffOf(db.disk)
      ensures genesisHash == (if db.disk.BlockAt(0).Some? then db.disk.BlockAt(0).value.Hash() else ZERO_HASH)
      ensures tipTimestamp == (if tipHash in db.disk.blocks then db.disk.blocks[tipHash].header.timestamp else 0)
    {
      var d := db.disk;
      var tip := if d.tip.Some? then d.tip.value else ZERO_HASH;
      this.db, this.utxos, this.blocks, this.engine, this.wired := db, utxos, blocks, engine, wired;
      this.rules := NO_RULES;
      this.tipHash := tip;
      this.height := if d.tip.Some? && d.height.Some? then d.height.value else 0;
      this.supply := if d.tip.Some? then SupplyOf(d) else 0;
      this.cumDiff := CumDiffOf(d);
      this.registered := registered;
      this.genesisHash := if d.BlockAt(0).Some? then d.BlockAt(0).value.Hash() else ZERO_HASH;
      this.tipTimestamp := if tip in d.blocks then d.blocks[tip].header.timestamp else 0;
      this.genesis, this.active := genesis, chain;
    }

    ghost predicate Objects()
      reads this, engine
    {
      utxos.db == db && blocks.db == db && engine.Valid()
    }

    ghost predicate TotalsInMemory(chain: seq<Block>)
      reads this
    {
      supply == Fold(chain).supply && cumDiff == Fold(chain).cumDiff && registered == Fold(chain).registered
    }

    ghost predicate TipInMemory(chain: seq<Block>)
      requires |chain| > 0
      reads this
    {
      && height == |chain| - 1
      && tipHash == chain[|chain| - 1].Hash()
      && tipTimestamp == chain[|chain| - 1].header.timestamp
    }

    /** Enough to put a block on top of `chain`: database and counters represent it. */
    ghost predicate Ready(chain: seq<Block>)
      reads this, db
    {
      && StoreOk(db.disk, genesis)
      && ChainOk(rules, genesis, chain)
      && HeightsAt(db.disk, chain)
      && LedgerAt(db.disk, chain)
      && UndosRight(db.disk, chain)
      && TotalsInMemory(chain)
    }

    /** The engine in step with `chain`. */
    ghost predicate Staff(chain: seq<Block>)
      reads this, db, engine
    {
      StaffOk(wired, rules, engine.minStake, engine.genesisValidators, engine.validators, db.disk, chain)
    }

    ghost predicate Complete(chain: seq<Block>)
      reads db
    {
      UndosComplete(db.disk, chain) && db.disk.txs == TxIndex(chain)
    }

    // -------------------------------------------------------------- one block

    method CheckSigningLimit(header: Header) returns (ok: bool)
      ensures ok <==> SigningOk(engine.validators, db.disk, header)
      ensures ok <==> || |engine.validators| <= 1 || SignerOf(engine.validators, header).None?
                      || forall k: nat :: k < header.height <= k + |engine.validators| / 2 ==>
                           db.disk.BlockAt(k).None? || SignerOf(engine.validators, db.disk.BlockAt(k).value.header) != SignerOf(engine.validators, header)
    {
      SigningOkIs(engine.validators, db.disk, header);
      var limit := engine.SigningLimit();
      if limit == 0 {
        return true;
      }
      var signer := engine.IdentifySigner(header);
      if signer.None? {
        return true;
      }
      var i := 1;
      while i < limit
        invariant 1 <= i
        invariant forall k: nat :: k < header.height && header.height - k < i ==> OtherSigner(engine.validators, db.disk, k, signer)
      {
        if header.height < i {
          break;
        }
        var prev := db.disk.BlockAt(header.height - i);
        if prev.Some? {
          var prevSigner := engine.IdentifySigner(prev.value.header);
          if prevSigner == signer {
            assert !OtherSigner(engine.validators, db.disk, header.height - i, signer);
            return false;
          }
        }
        i := i + 1;
      }
      return true;
    }

    /** What connecting `b` to `chain` needs of the block. */
    ghost predicate Candidate(chain: seq<Block>, b: Block)
      reads this, db
    {
      && |chain| > 0
      && b.header.height == |chain|
      && b.header.prevHash == chain[|chain| - 1].Hash()
      && BlockOk(b) && Tagged(b) && 1 <= b.header.difficulty <= 2
      && Storable(db.disk, b)
    }

    /** The part shared by the fast path of ProcessBlock and the replay loop of Reorg: validate `b`
        against the unspent outputs, apply it, commit it. */
    method Connect(b: Block, ghost chain: seq<Block>, ghost lawful: bool) returns (r: Step, spent: seq<Utxo>)
      requires Objects() && TxHashSound()
      requires |b.txs| > 0 && (lawful ==> Ready(chain) && Candidate(chain, b))
      modifies db, this`supply, this`cumDiff, this`registered
      ensures lawful && r.Connected? ==> Ready(chain + [b]) && TipIs(db.disk, chain + [b]) && TotalsAt(db.disk, chain + [b])
      ensures lawful && r.Connected? ==> CanExtend(rules, chain, b)
      ensures lawful && r.Connected? ==> spent == UndoOf(chain + [b], |chain|).spent
      ensures lawful && r.Connected? ==> db.disk.heights == old(db.disk.heights)[|chain| := b.Hash()]
      ensures lawful && r.Connected? ==> db.disk.blocks == old(db.disk.blocks)[b.Hash() := b]
      ensures lawful && r.Connected? && old(UndosComplete(db.disk, chain)) ==> UndosComplete(db.disk, chain + [b])
      ensures lawful && r.Connected? && old(db.disk.txs) == TxIndex(chain) ==> db.disk.txs == TxIndex(chain + [b])
      ensures r.Refused? ==> db.disk == old(db.disk) && supply == old(supply) && cumDiff == old(cumDiff) && registered == old(registered)
      ensures lawful ==> (r.Refused? <==> !CanExtend(rules, chain, b))
      ensures lawful && r.Broken? ==> if old(db.writesLeft <= BlockWrites(db.disk.utxos, b.txs, b.header.height))
                            then StoppedBefore(old(db.disk), db.disk, old(db.writesLeft), b) && db.writesLeft == 0
                            else StoppedAfter(rules, genesis, old(db.disk), db.disk, chain, b) && Fold(chain).registered + Registrations(b) > MAX_U64
      ensures lawful && r.Connected? ==> old(db.writesLeft > BlockWrites(db.disk.utxos, b.txs, b.header.height)) && Fold(chain).registered + Registrations(b) <= MAX_U64
      ensures db.disk.checkpoint == old(db.disk.checkpoint)
      ensures r.Connected? ==> Tipped(old(db.disk), db.disk, b, cumDiff) && cumDiff == old(cumDiff) + b.header.difficulty
      ensures r.Broken? ==> db.disk.Rest() == old(db.disk.Rest()) || Tipped(old(db.disk), db.disk, b, old(cumDiff) + b.header.difficulty)
    {
      hide *;
      spent := [];
      var start := db.disk;
      ObjectFacts();
      if lawful {
        ReadyFacts(chain, b);
      }
      var registrations := ValidateBlockState(rules, db.disk.utxos, supply, registered, b);
      if registrations.None? {
        if lawful {
          NotExtendable(chain, b);
        }
        return Refused, [];
      }
      if lawful {
        StateValidFacts(rules, db.disk.utxos, supply, registered, b);
      }
      var reward := ComputeBlockReward(db.disk.utxos, b);
      var effective := Capped(rules.maxSupply, supply, reward);
      if effective > MAX_U64 - supply || b.header.difficulty > MAX_U64 - cumDiff {
        if lawful {
          Overflows(chain, b);
        }
        return Refused, [];
      }
      var newSupply, newCumDiff := supply + effective, cumDiff + b.header.difficulty;
      if lawful {
        Extendable(chain, b);
        NextBlockFresh(rules, genesis, chain, b);
      }
      var undo := ApplyBlockWithUndo(utxos, b);
      RestCarries(rules, genesis, start, db.disk, chain);
      if lawful {
        MakeStoppedBefore(start, db.disk, old(db.writesLeft), b);
      }
      if undo.None? {
        return Broken, [];
      }
      var record := undo.value.(reward := effective);
      ghost var applied := db.disk;
      var ok := blocks.CommitBlock(b, record, newSupply, newCumDiff);
      if !ok {
        return Broken, [];
      }
      CommittedTip(start, applied, b, record, newSupply, newCumDiff);
      if lawful {
        CommittedFacts(start, applied, chain, b, record, newSupply, newCumDiff);
        CommitAdvances(rules, genesis, start, chain, b, db.disk);
        MakeStoppedAfter(rules, genesis, start, db.disk, chain, b);
      }
      supply, cumDiff := newSupply, newCumDiff;
      CountedIs(b);
      if registered > MAX_U64 - registrations.value {
        return Broken, [];
      }
      registered := registered + registrations.value;
      if lawful {
        MakeReady(chain + [b]);
      }
      return Connected, record.spent;
    }

    /** One round of Reorg's revert loop: take the block at `h` off the top with its undo record. */
    method Disconnect(h: nat, ghost chain: seq<Block>) returns (r: BackStep)
      requires Objects() && TxHashSound()
      requires Ready(chain) && |chain| > 1 && h == |chain| - 1
      modifies db, this`supply, this`cumDiff, this`registered
      ensures db.disk.blocks == old(db.disk.blocks) && db.disk.heights == old(db.disk.heights)
      ensures db.disk.tip == old(db.disk.tip) && db.disk.height == old(db.disk.height) && db.disk.checkpoint == old(db.disk.checkpoint)
      ensures r.Reverted? ==> Ready(chain[..h]) && r.block == chain[h] && r.undo == UndoOf(chain, h)
      ensures r.Reverted? && old(UndosComplete(db.disk, chain)) ==> UndosComplete(db.disk, chain[..h])
      ensures r.Reverted? && old(db.disk.txs) == TxIndex(chain) ==> db.disk.txs == TxIndex(chain[..h])
      ensures r.NoUndo? ==> db.disk == old(db.disk) && supply == old(supply) && cumDiff == old(cumDiff) && registered == old(registered)
      ensures r.NoUndo? ==> chain[h].Hash() !in db.disk.undos
      ensures r.Stuck? ==> db.writesLeft == 0
    {
      hide *;
      var start := db.disk;
      TopFacts(chain);
      var b := db.disk.BlockAt(h).value;
      if b.Hash() !in db.disk.undos {
        return NoUndo;
      }
      var undo := db.disk.undos[b.Hash()];
      BlockReverts(rules, genesis, chain);
      TxIndexReverts(rules, genesis, chain);
      var ok := RevertBlock(utxos, blocks, undo);
      RevertedTables(start, db.disk);
      if !ok {
        return Stuck;
      }
      var registrations := CountRegisterOutputs(b.txs);
      CountedIs(b);
      if undo.reward > supply || registrations > registered || b.header.difficulty > cumDiff {
        assert false;
      }
      supply := supply - undo.reward;
      registered := registered - registrations;
      cumDiff := cumDiff - b.header.difficulty;
      ghost var reverted := db.disk;
      ok := blocks.DeleteUndo(b.Hash());
      if !ok {
        return Stuck;
      }
      SteppedBack(rules, genesis, start, reverted, db.disk, chain);
      MakeReady(chain[..h]);
      return Reverted(b, undo);
    }

    lemma TopFacts(chain: seq<Block>)
      requires Objects() && Ready(chain) && |chain| > 1
      ensures utxos.db == db && blocks.db == db
      ensures var h := |chain| - 1;
              && db.disk.BlockAt(h) == Some(chain[h])
              && (chain[h].Hash() in db.disk.undos ==> db.disk.undos[chain[h].Hash()] == UndoOf(chain, h))
      ensures ChainOk(rules, genesis, chain) && StoreOk(db.disk, genesis) && HeightsAt(db.disk, chain) && UndosRight(db.disk, chain)
      ensures db.disk.utxos == Fold(chain).utxos && IndexesOk(db.disk)
      ensures supply == Fold(chain).supply && cumDiff == Fold(chain).cumDiff && registered == Fold(chain).registered
    {
      hide StoreOk, ChainOk, IndexesOk, Fold, UndoOf;
      assert UndoRight(db.disk, chain, |chain| - 1);
    }

    // -------------------------------------------------------------- the validator set follows

    /** The stake handler, once per staked key. */
    method FireStakes(keys: seq<Bytes>)
      requires engine.Valid()
      modifies engine`validators, engine`lastProduced
      ensures engine.Valid()
      ensures wired ==> Elements(engine.validators) == old(Elements(engine.validators)) + Elements(keys)
      ensures !wired || KeysAmong(keys, engine.genesisValidators) ==> engine.validators == old(engine.validators)
    {
      if !wired {
        return;
      }
      for i := 0 to |keys|
        invariant engine.Valid()
        invariant Elements(engine.validators) == old(Elements(engine.validators)) + Elements(keys[..i])
        invariant KeysAmong(keys, engine.genesisValidators) ==> engine.validators == old(engine.validators)
      {
        engine.AddValidator(keys[i]);
        assert keys[..i + 1] == keys[..i] + [keys[i]];
      }
      assert keys[..|keys|] == keys;
    }

    /** The unstake handler, once per key: a key left without enough stake is removed. */
    method FireUnstakes(keys: seq<Bytes>)
      requires utxos.db == db && engine.Valid()
      requires forall key :: key in keys ==> |key| == PUBKEY_SIZE
      modifies engine`validators
      ensures engine.Valid()
      ensures wired && IndexesOk(db.disk) ==>
                Elements(engine.validators) == Dropped(old(Elements(engine.validators)), Elements(engine.genesisValidators), engine.minStake, db.disk.utxos, keys)
      ensures !wired || KeysAmong(keys, engine.genesisValidators) ==> engine.validators == old(engine.validators)
    {
      if !wired {
        return;
      }
      ghost var genesis := Elements(engine.genesisValidators);
      for i := 0 to |keys|
        invariant engine.Valid()
        invariant IndexesOk(db.disk) ==>
                    Elements(engine.validators) == Dropped(old(Elements(engine.validators)), genesis, engine.minStake, db.disk.utxos, keys[..i])
        invariant KeysAmong(keys, engine.genesisValidators) ==> engine.validators == old(engine.validators)
      {
        ghost var before := Elements(engine.validators);
        var staked := utxos.HasStake(keys[i], engine.minStake);
        if !staked {
          engine.RemoveValidator(keys[i]);
        }
        DroppedStep(old(Elements(engine.validators)), genesis, engine.minStake, db.disk.utxos, keys, i);
        assert keys[i] in genesis <==> keys[i] in engine.genesisValidators;
      }
      assert keys[..|keys|] == keys;
    }

    /** Connect, then the stake handlers for what the block created and the unstake handlers for
        what it spent. */
    method Attach(b: Block, ghost chain: seq<Block>) returns (r: Step)
      requires Objects() && TxHashSound()
      requires Ready(chain) && Candidate(chain, b) && Staff(chain)
      requires SignerOf(engine.validators, b.header).Some? && SigningOk(engine.validators, db.disk, b.header)
      modifies db, this`supply, this`cumDiff, this`registered, engine`validators, engine`lastProduced
      ensures Objects()
      ensures r.Connected? ==> Ready(chain + [b]) && TipIs(db.disk, chain + [b]) && TotalsAt(db.disk, chain + [b]) && Staff(chain + [b])
      ensures r.Connected? ==> db.disk.heights == old(db.disk.heights)[|chain| := b.Hash()]
      ensures r.Connected? ==> db.disk.blocks == old(db.disk.blocks)[b.Hash() := b]
      ensures r.Connected? ==> CanExtend(rules, chain, b)
      ensures r.Connected? && old(UndosComplete(db.disk, chain)) ==> UndosComplete(db.disk, chain + [b])
      ensures r.Connected? && old(db.disk.txs) == TxIndex(chain) ==> db.disk.txs == TxIndex(chain + [b])
      ensures r.Refused? ==> db.disk == old(db.disk) && supply == old(supply) && cumDiff == old(cumDiff) && registered == old(registered)
      ensures r.Refused? ==> engine.validators == old(engine.validators)
      ensures r.Refused? <==> !CanExtend(rules, chain, b)
      ensures r.Broken? ==> if old(db.writesLeft <= BlockWrites(db.disk.utxos, b.txs, b.header.height))
                            then StoppedBefore(old(db.disk), db.disk, old(db.writesLeft), b) && db.writesLeft == 0
                            else StoppedAfter(rules, genesis, old(db.disk), db.disk, chain, b) && Fold(chain).registered + Registrations(b) > MAX_U64
      ensures r.Broken? ==> engine.validators == old(engine.validators)
      ensures r.Connected? ==> old(db.writesLeft > BlockWrites(db.disk.utxos, b.txs, b.header.height)) && Fold(chain).registered + Registrations(b) <= MAX_U64
      ensures db.disk.checkpoint == old(db.disk.checkpoint)
    {
      hide *;
      ghost var validators := engine.validators;
      ghost var before := db.disk;
      ObjectFacts();
      AttachFacts(chain, b);
      StaffFacts(chain);
      var step, spent := Connect(b, chain, true);
      if !step.Connected? {
        MakeObjects();
        return step;
      }
      r := step;
      LedgerFacts(chain + [b]);
      KeyLengths(b.txs, spent);
      FireStakes(KeysOfTxs(b.txs));
      FireUnstakes(KeysOfUtxos(spent));
      MakeObjects();
      StaffFacts(chain + [b]);
      StaffAfterConnect(wired, rules, genesis, engine.minStake, engine.genesisValidators, before, validators, db.disk, engine.validators, chain, b, spent);
    }

    /** Disconnect, then the handlers in the opposite roles. */
    method Detach(h: nat, ghost chain: seq<Block>) returns (r: BackStep)
      requires Objects() && TxHashSound()
      requires Ready(chain) && |chain| > 1 && h == |chain| - 1 && Staff(chain)
      modifies db, this`supply, this`cumDiff, this`registered, engine`validators, engine`lastProduced
      ensures Objects()
      ensures db.disk.blocks == old(db.disk.blocks) && db.disk.heights == old(db.disk.heights)
      ensures db.disk.tip == old(db.disk.tip) && db.disk.height == old(db.disk.height) && db.disk.checkpoint == old(db.disk.checkpoint)
      ensures r.Reverted? ==> Ready(chain[..h]) && Staff(chain[..h])
      ensures r.Reverted? && old(UndosComplete(db.disk, chain)) ==> UndosComplete(db.disk, chain[..h])
      ensures r.Reverted? && old(db.disk.txs) == TxIndex(chain) ==> db.disk.txs == TxIndex(chain[..h])
      ensures r.NoUndo? ==> db.disk == old(db.disk) && supply == old(supply) && cumDiff == old(cumDiff) && registered == old(registered)
      ensures r.NoUndo? ==> engine.validators == old(engine.validators) && chain[h].Hash() !in db.disk.undos && Staff(chain) && Ready(chain)
      ensures r.Stuck? ==> db.writesLeft == 0
    {
      hide *;
      ghost var validators := engine.validators;
      ghost var before := db.disk;
      ObjectFacts();
      LedgerFacts(chain);
      StaffFacts(chain);
      TopFacts(chain);
      r := Disconnect(h, chain);
      if !r.Reverted? {
        MakeObjects();
        StaffFacts(chain);
        if r.NoUndo? {
          MakeReadyOn(chain);
        }
        return;
      }
      LedgerFacts(chain[..h]);
      KeyLengths(r.block.txs, r.undo.spent);
      FireUnstakes(KeysOfTxs(r.block.txs));
      FireStakes(KeysOfUtxos(r.undo.spent));
      MakeObjects();
      StaffFacts(chain[..h]);
      StaffAfterDisconnect(wired, rules, genesis, engine.minStake, engine.genesisValidators, before, validators, db.disk, engine.validators, chain, r.undo.spent);
    }

    lemma ContinuesMeans(base: seq<Block>, path: seq<Block>)
      requires Continues(base, path)
      ensures |base| > 0 && |path| > 0 && Linked(path) && Stored(db.disk, path)
      ensures path[0].header.height == |base| && path[0].header.prevHash == base[|base| - 1].Hash()
      ensures forall i :: 0 <= i < |path| ==> BranchBlockOk(path[i])
    {
    }

    lemma MakeContinues(start: Disk, base: seq<Block>, path: seq<Block>)
      requires |base| > 0 && |path| > 0 && Linked(path) && Stored(start, path) && db.disk.blocks == start.blocks
      requires path[0].header.height == |base| && path[0].header.prevHash == base[|base| - 1].Hash()
      requires forall i :: 0 <= i < |path| ==> BranchBlockOk(path[i])
      ensures Continues(base, path)
    {
    }

    lemma CompleteIs(chain: seq<Block>)
      ensures Complete(chain) <==> UndosComplete(db.disk, chain) && db.disk.txs == TxIndex(chain)
    {
    }

    lemma TargetFacts(chain: seq<Block>)
      requires Ready(chain) && Staff(chain)
      ensures StoreOk(db.disk, genesis) && ChainOk(rules, genesis, chain) && HeightsAt(db.disk, chain) && LedgerAt(db.disk, chain) && UndosRight(db.disk, chain)
      ensures supply == Fold(chain).supply && cumDiff == Fold(chain).cumDiff && registered == Fold(chain).registered
      ensures StaffOk(wired, rules, engine.minStake, engine.genesisValidators, engine.validators, db.disk, chain)
    {
    }

    lemma MakeCandidate(cur: seq<Block>, b: Block)
      requires |cur| > 0 && b.header.height == |cur| && b.header.prevHash == cur[|cur| - 1].Hash()
      requires BlockOk(b) && Tagged(b) && 1 <= b.header.difficulty <= 2 && Storable(db.disk, b)
      ensures Candidate(cur, b)
    {
    }

    lemma SignedBelow(chain: seq<Block>, n: nat)
      requires Staff(chain) && n <= |chain|
      ensures FixedSet(wired, engine.genesisValidators, db.disk) ==> engine.validators == engine.genesisValidators && SignedChain(engine.genesisValidators, chain[..n])
    {
      hide Agrees, SignedChain, Tracked, FixedSet;
      if FixedSet(wired, engine.genesisValidators, db.disk) {
        SignedPrefix(engine.genesisValidators, chain, n);
      }
    }

    lemma RecoverableMeans(chain: seq<Block>)
      requires Recoverable(rules, genesis, db.disk, chain)
      ensures db.disk.checkpoint.Some?
    {
    }

    lemma RecoverableNow(chain: seq<Block>)
      requires Ready(chain) && |chain| > 0 && TipIs(db.disk, chain) && db.disk.checkpoint.Some?
      ensures Recoverable(rules, genesis, db.disk, chain)
    {
    }

    /** Setting or clearing the checkpoint disturbs nothing else. */
    lemma CheckpointOnly(before: Disk, chain: seq<Block>)
      requires db.disk == before.(checkpoint := db.disk.checkpoint)
      requires StoreOk(before, genesis) && ChainOk(rules, genesis, chain) && HeightsAt(before, chain) && LedgerAt(before, chain) && UndosRight(before, chain)
      requires supply == Fold(chain).supply && cumDiff == Fold(chain).cumDiff && registered == Fold(chain).registered
      requires StaffOk(wired, rules, engine.minStake, engine.genesisValidators, engine.validators, before, chain)
      ensures Ready(chain) && Staff(chain)
      ensures |chain| > 0 && TipIs(before, chain) ==> TipIs(db.disk, chain)
      ensures TotalsAt(before, chain) ==> TotalsAt(db.disk, chain)
      ensures UndosComplete(before, chain) ==> UndosComplete(db.disk, chain)
      ensures HeightsExact(before, chain) ==> HeightsExact(db.disk, chain)
    {
      hide StoreOk, ChainOk, HeightsAt, UndosRight, IndexesOk, Fold, Agrees, SignedChain;
      SameTablesCarry(rules, genesis, before, db.disk, chain);
      SameRegions(before, db.disk);
    }

    lemma ValidFacts()
      ensures Valid() <==> Core() && HeightsExact(db.disk, active)
    {
    }

    lemma CoreFacts()
      requires Core()
      ensures Objects() && Ready(active) && Staff(active) && |active| > 0
      ensures StoreOk(db.disk, genesis) && ChainOk(rules, genesis, active) && HeightsAt(db.disk, active)
      ensures LedgerAt(db.disk, active) && UndosRight(db.disk, active)
      ensures supply == Fold(active).supply && cumDiff == Fold(active).cumDiff && registered == Fold(active).registered
      ensures StaffOk(wired, rules, engine.minStake, engine.genesisValidators, engine.validators, db.disk, active)
      ensures TipIs(db.disk, active) && TotalsAt(db.disk, active) && db.disk.checkpoint.None?
      ensures height == |active| - 1 && tipHash == active[|active| - 1].Hash() && tipTimestamp == active[|active| - 1].header.timestamp
      ensures genesisHash == genesis.Hash() && genesisHash != ZERO_HASH && Fold(active).cumDiff <= MAX_U64 && Fits(Fold(active))
    {
      hide StoreOk, ChainOk, HeightsAt, UndosRight, IndexesOk, Fold, Agrees, SignedChain;
    }

    lemma MakeCore()
      requires Objects() && Ready(active) && Staff(active) && |active| > 0
      requires TipIs(db.disk, active) && TotalsAt(db.disk, active) && db.disk.checkpoint.None?
      requires height == |active| - 1 && tipHash == active[|active| - 1].Hash() && tipTimestamp == active[|active| - 1].header.timestamp
      requires genesisHash == genesis.Hash() && genesisHash != ZERO_HASH && Fits(Fold(active))
      ensures Core()
      ensures HeightsExact(db.disk, active) ==> Valid()
    {
    }

    /** The branch that collectBranch returns, as Reorg uses it. */
    lemma BranchFacts(newTip: Hash, path: seq<Block>)
      requires StoreOk(db.disk, genesis) && ChainOk(rules, genesis, active) && newTip in db.disk.blocks
      requires path == Path(db.disk, genesis, active, newTip)
      ensures |path| > 0 && path[0].header.height <= |active|
      ensures forall i :: 0 <= i < |path| ==> path[i].header.difficulty <= 2
      ensures newTip == genesis.Hash() ==> path[0].header.height == 0 && Sum(path, DifficultyOf) == 0
      ensures newTip != genesis.Hash() ==> path[0].header.height > 0 && Continues(active[..path[0].header.height], path)
      ensures path[|path| - 1] == db.disk.blocks[newTip]
      ensures path[|path| - 1].header.height == path[0].header.height + |path| - 1
    {
      hide *;
      PathIsBranch(rules, db.disk, genesis, active, newTip);
      ChainStart(rules, genesis, active);
      BranchUse(db.disk, genesis, active, newTip, path);
      if newTip != genesis.Hash() {
        var base := active[..path[0].header.height];
        MakeContinues(db.disk, base, path);
      }
    }

    /** What the replay loop reads off the branch for its next block. */
    lemma ContinuesFacts(base: seq<Block>, path: seq<Block>, j: nat, start: Disk)
      requires j < |path| && |base| > 0 && Linked(path) && Stored(start, path) && db.disk.blocks == start.blocks
      requires path[0].header.height == |base| && path[0].header.prevHash == base[|base| - 1].Hash()
      requires forall i :: 0 <= i < |path| ==> BranchBlockOk(path[i])
      ensures var b, cur := path[j], base + path[..j];
              && |cur| > 0 && b.header.height == |cur| && b.header.prevHash == cur[|cur| - 1].Hash()
              && Tagged(b) && 1 <= b.header.difficulty <= 2 && Storable(db.disk, b)
              && db.disk.blocks[b.Hash() := b] == db.disk.blocks
    {
      LinkedHeights(path, j);
    }

    lemma StaffFacts(chain: seq<Block>)
      ensures Staff(chain) <==> StaffOk(wired, rules, engine.minStake, engine.genesisValidators, engine.validators, db.disk, chain)
    {
    }

    lemma ObjectFacts()
      requires Objects()
      ensures utxos.db == db && blocks.db == db && engine.Valid()
    {
    }

    lemma MakeObjects()
      requires utxos.db == db && blocks.db == db && engine.Valid()
      ensures Objects()
    {
    }

    lemma LedgerFacts(chain: seq<Block>)
      requires Ready(chain)
      ensures db.disk.utxos == Fold(chain).utxos && IndexesOk(db.disk)
      ensures StoreOk(db.disk, genesis) && HeightsAt(db.disk, chain) && ChainOk(rules, genesis, chain)
    {
    }

    lemma AttachFacts(chain: seq<Block>, b: Block)
      requires Ready(chain) && Candidate(chain, b)
      ensures b.header.height == |chain| && HeightsAt(db.disk, chain) && ChainOk(rules, genesis, chain) && StoreOk(db.disk, genesis)
      ensures Storable(db.disk, b) && |b.txs| > 0
    {
      BlockHasTxs(b);
    }

    // -------------------------------------------------------------- reorganisation

    ghost predicate Quiet(chain: seq<Block>)
      reads this, db
    {
      && |chain| > 0
      && TipIs(db.disk, chain) && TipInMemory(chain)
      && TotalsAt(db.disk, chain)
      && db.disk.checkpoint.None?
      && genesisHash == genesis.Hash() && genesisHash != ZERO_HASH
      && Fits(Fold(chain))
    }

    /** Between calls: database, counters and engine all represent the active chain. */
    ghost predicate Core()
      reads this, db, engine
    {
      Objects() && Ready(active) && Staff(active) && Quiet(active)
    }

    /** ... and the height index ends at the tip, as it does while heights only grow. */
    ghost predicate Valid()
      reads this, db, engine
    {
      Core() && HeightsExact(db.disk, active)
    }

    /** collectBranch: the path from the highest common ancestor, in ascending order. */
    method CollectBranch(newTip: Hash) returns (r: BranchResult)
      requires StoreOk(db.disk, genesis) && genesisHash == genesis.Hash() && HeightsAt(db.disk, active)
      ensures newTip !in db.disk.blocks ==> r == Missing
      ensures newTip in db.disk.blocks ==>
                var w, p := Walk(db.disk, genesis, newTip), Path(db.disk, genesis, active, newTip);
                && r == (if |w| > MAX_REORG_DEPTH then TooDeep else Branch(w))
                && (w == p <==> Clear(db.disk, genesis, active, newTip))
                && 0 < |w| <= |p| && w == p[|p| - |w|..]
                && (w != p ==> |w| < |p| && w[0].header.height > |active| && !ForksHere(active, w[0]))
    {
      hide *;
      if newTip !in db.disk.blocks {
        return Missing;
      }
      var branch: seq<Block> := [];
      var hash := newTip;
      ghost var path := Walk(db.disk, genesis, newTip);
      WalkExactlyPath(db.disk, genesis, active, newTip);
      ReversedEmpty<Block>();
      while true
        invariant hash in db.disk.blocks
        invariant path == Walk(db.disk, genesis, hash) + Reversed(branch)
        invariant |branch| <= MAX_REORG_DEPTH
        decreases db.disk.blocks[hash].header.height
      {
        var b := db.disk.blocks[hash];
        OnWalk(db.disk, genesis, hash);
        IndexedParentIs(db.disk, b);
        ReversedSnoc(branch, b);
        branch := branch + [b];
        if |branch| > MAX_REORG_DEPTH {
          return TooDeep;
        }
        if b.header.height == 0 {
          if genesisHash != ZERO_HASH && b.Hash() != genesisHash {
            assert false;
          }
          break;
        }
        var main := db.disk.BlockAt(b.header.height - 1);
        if main.Some? && main.value.Hash() == b.header.prevHash {
          break;
        }
        hash := b.header.prevHash;
      }
      var slice := new Block[|branch|](i requires 0 <= i < |branch| => branch[i]);
      assert slice[..] == branch;
      ReverseInPlace(slice);
      return Branch(slice[..]);
    }

    /** Reorg's sum over the new branch; it wraps like uint64, which no branch of allowed length reaches. */
    method NewBranchWork(path: seq<Block>) returns (work: nat)
      requires |path| <= MAX_REORG_DEPTH && forall i :: 0 <= i < |path| ==> path[i].header.difficulty <= 2
      ensures work == Sum(path, DifficultyOf)
    {
      work := 0;
      for i := 0 to |path|
        invariant work == Sum(path[..i], DifficultyOf)
      {
        SumPrefix(path, DifficultyOf, i);
        SumMonotone(path, DifficultyOf, i + 1);
        SumBounded(path, 2);
        work := Add64(work, path[i].header.difficulty);
      }
      assert path[..|path|] == path;
    }

    /** Reorg's sum over the old branch, read through the height index. */
    method OldBranchWork(first: nat) returns (work: nat)
      requires |active| > 0 && HeightsAt(db.disk, active) && height == |active| - 1
      requires Fold(active).cumDiff <= MAX_U64 && first <= |active|
      ensures work == Sum(active[first..], DifficultyOf)
    {
      hide *;
      work := 0;
      WorkSplits(active, first);
      ghost var branch := active[first..];
      assert branch[..0] == [];
      SumEmpty();
      for h := first to height + 1
        invariant work == Sum(branch[..h - first], DifficultyOf)
      {
        BlockAtHeight(db.disk, active, h);
        SumPrefix(branch, DifficultyOf, h - first);
        SumMonotone(branch, DifficultyOf, h - first + 1);
        var difficulty := db.disk.BlockAt(h).value.header.difficulty;
        AddFits(work, difficulty);
        DifficultyIs(active[h]);
        work := Add64(work, difficulty);
      }
      assert branch[..|branch|] == branch;
    }

    /** Reorg's revert loop: from the tip down to the fork. */
    method RevertBranch(fork: nat) returns (r: Rewind, ghost left: nat)
      requires Objects() && TxHashSound()
      requires Ready(active) && Staff(active) && Recoverable(rules, genesis, db.disk, active)
      requires fork < |active| && height == |active| - 1
      modifies db, this`supply, this`cumDiff, this`registered, engine`validators, engine`lastProduced
      ensures Objects() && Recoverable(rules, genesis, db.disk, active)
      ensures db.disk.blocks == old(db.disk.blocks) && db.disk.heights == old(db.disk.heights)
      ensures r.Rewound? ==> Ready(active[..fork + 1]) && Staff(active[..fork + 1])
      ensures r.Rewound? && old(UndosComplete(db.disk, active)) ==> UndosComplete(db.disk, active[..fork + 1])
      ensures r.Rewound? && old(db.disk.txs) == TxIndex(active) ==> db.disk.txs == TxIndex(active[..fork + 1])
      ensures old(UndosComplete(db.disk, active)) ==> !r.UndoMissing?
      ensures r.UndoMissing? ==> fork + 1 < left <= |active| && Ready(active[..left]) && Staff(active[..left]) && active[left - 1].Hash() !in db.disk.undos
      ensures r.UndoMissing? && FixedSet(wired, engine.genesisValidators, db.disk) ==> SignedChain(engine.genesisValidators, active[..fork + 1])
      ensures r.RewindStuck? ==> db.writesLeft == 0
    {
      hide *;
      var h := height;
      assert active[..h + 1] == active;
      while h > fork
        invariant fork <= h < |active|
        invariant Objects() && Recoverable(rules, genesis, db.disk, active)
        invariant Ready(active[..h + 1]) && Staff(active[..h + 1])
        invariant db.disk.blocks == old(db.disk.blocks) && db.disk.heights == old(db.disk.heights)
        invariant old(UndosComplete(db.disk, active)) ==> UndosComplete(db.disk, active[..h + 1])
        invariant old(db.disk.txs) == TxIndex(active) ==> db.disk.txs == TxIndex(active[..h + 1])
      {
        ghost var top := active[..h + 1];
        ghost var before := db.disk;
        assert top[..h] == active[..h];
        var step := Detach(h, top);
        StillRecoverable(rules, genesis, before, db.disk, active);
        if step.NoUndo? {
          if UndosComplete(db.disk, top) {
            CompleteHas(db.disk, top, h);
          }
          assert top[..fork + 1] == active[..fork + 1];
          SignedBelow(top, fork + 1);
          return UndoMissing, h + 1;
        }
        if step.Stuck? {
          return RewindStuck, h + 1;
        }
        h := h - 1;
      }
      return Rewound, fork + 1;
    }

    /** A stored branch that continues `base`. */
    ghost predicate Continues(base: seq<Block>, path: seq<Block>)
      reads this, db
    {
      && |base| > 0 && |path| > 0 && Linked(path) && Stored(db.disk, path)
      && path[0].header.height == |base| && path[0].header.prevHash == base[|base| - 1].Hash()
      && forall i :: 0 <= i < |path| ==> BranchBlockOk(path[i])
    }

    /** Why a replay cannot get past `b`: a rule it breaks, or the registration counter. */
    ghost predicate Unfit(cur: seq<Block>, b: Block)
      reads this, db, engine
    {
      engine.blockTime > 0 ==>
        || !BlockOk(b) || !engine.HeaderOk(db.disk, b.header) || !SigningOk(engine.validators, db.disk, b.header)
        || !CanExtend(rules, cur, b) || Fold(cur).registered + Registrations(b) > MAX_U64
    }

    /** A switch from `last` to `base + path` that left `persisted` came to a block of the branch that
        is unfit to follow the part before it. */
    ghost predicate Obstructed(last: seq<Block>, base: seq<Block>, path: seq<Block>, persisted: seq<Block>)
      reads this, db, engine
    {
      exists k :: 0 <= k < |path| && Unfit(base + path[..k], path[k]) && ReachedAt(last, base, path, persisted, k)
    }

    lemma UnfitIs(cur: seq<Block>, b: Block)
      ensures engine.blockTime > 0 ==>
                (Unfit(cur, b) <==>
                   || !BlockOk(b) || !engine.HeaderOk(db.disk, b.header) || !SigningOk(engine.validators, db.disk, b.header)
                   || !CanExtend(rules, cur, b) || Fold(cur).registered + Registrations(b) > MAX_U64)
    {
    }

    lemma ObstructedAt(last: seq<Block>, base: seq<Block>, path: seq<Block>, persisted: seq<Block>, k: nat)
      requires k < |path| && Unfit(base + path[..k], path[k])
      requires persisted == base + path[..k + 1] || persisted == (if k == 0 then last else base + path[..k])
      ensures Obstructed(last, base, path, persisted)
    {
      assert ReachedAt(last, base, path, persisted, k);
    }

    /** One round of Reorg's replay loop: the block with full validation, and one commit. */
    method ReplayBlock(b: Block, ghost cur: seq<Block>, ghost persisted: seq<Block>) returns (ok: bool, ghost committed: bool)
      requires Objects() && TxHashSound()
      requires Ready(cur) && Staff(cur) && Recoverable(rules, genesis, db.disk, persisted)
      requires |cur| > 0 && b.header.height == |cur| && b.header.prevHash == cur[|cur| - 1].Hash()
      requires Tagged(b) && 1 <= b.header.difficulty <= 2 && Storable(db.disk, b) && db.disk.blocks[b.Hash() := b] == db.disk.blocks
      modifies db, this`supply, this`cumDiff, this`registered, engine`validators, engine`lastProduced
      ensures Objects() && db.disk.blocks == old(db.disk.blocks) && db.disk.checkpoint == old(db.disk.checkpoint)
      ensures ok ==> committed && Ready(cur + [b]) && Staff(cur + [b]) && TipIs(db.disk, cur + [b]) && TotalsAt(db.disk, cur + [b]) && Fits(Fold(cur + [b]))
      ensures ok && old(UndosComplete(db.disk, cur)) ==> UndosComplete(db.disk, cur + [b])
      ensures ok && old(db.disk.txs) == TxIndex(cur) ==> db.disk.txs == TxIndex(cur + [b])
      ensures Recoverable(rules, genesis, db.disk, if committed then cur + [b] else persisted)
      ensures SameAbove(old(db.disk), db.disk, if committed then |cur| + 1 else |cur|)
      ensures FixedSet(wired, engine.genesisValidators, db.disk) ==> SignedChain(engine.genesisValidators, if committed then cur + [b] else cur)
      ensures !ok ==> db.writesLeft == 0 || Unfit(cur, b)
    {
      hide *;
      ok, committed := false, false;
      ghost var before := db.disk;
      ghost var writes := db.writesLeft;
      ObjectFacts();
      EngineFacts();
      LedgerFacts(cur);
      StaffFacts(cur);
      SignedBelow(cur, |cur|);
      assert cur[..|cur|] == cur;
      SameAboveOf(before, before, |cur|);
      UnfitIs(cur, b);
      RecoverableMeans(persisted);
      var structural := ValidateBlock(b);
      if !structural {
        return;
      }
      var authorised := engine.VerifyHeader(utxos, b.header);
      if !authorised {
        return;
      }
      var allowed := CheckSigningLimit(b.header);
      if !allowed {
        return;
      }
      MakeCandidate(cur, b);
      ghost var validators := engine.validators;
      var step := Attach(b, cur);
      UnfitIs(cur, b);
      if step.Refused? {
        return;
      }
      if step.Broken? {
        if writes <= BlockWrites(before.utxos, b.txs, b.header.height) {
          BrokenBefore(rules, genesis, before, db.disk, writes, persisted, b);
          SameAboveOf(before, db.disk, |cur|);
          SameBlocksFixed(wired, engine.genesisValidators, before, db.disk);
        } else {
          BrokenAfter(wired, rules, genesis, engine.minStake, engine.genesisValidators, validators, before, db.disk, cur, b);
          committed := true;
        }
        return;
      }
      RecoverableNow(cur + [b]);
      ExtensionFits(rules, cur, b);
      SameAboveNext(before, db.disk, |cur|, b.Hash());
      SignedBelow(cur + [b], |cur + [b]|);
      assert (cur + [b])[..|cur + [b]|] == cur + [b];
      ok, committed := true, true;
    }

    /** Reorg's replay loop: every branch block with full validation, one commit each. */
    method ReplayBranch(path: seq<Block>, ghost base: seq<Block>, ghost full: seq<Block>) returns (ok: bool, ghost done: nat)
      requires Objects() && TxHashSound()
      requires Ready(base) && Staff(base) && Continues(base, path) && Recoverable(rules, genesis, db.disk, full)
      modifies db, this`supply, this`cumDiff, this`registered, engine`validators, engine`lastProduced
      ensures Objects()
      ensures done <= |path| && Recoverable(rules, genesis, db.disk, if done == 0 then full else base + path[..done])
      ensures ok ==> done == |path| && Ready(base + path) && Staff(base + path) && TipIs(db.disk, base + path) && TotalsAt(db.disk, base + path)
      ensures ok && old(UndosComplete(db.disk, base)) ==> UndosComplete(db.disk, base + path)
      ensures ok && old(db.disk.txs) == TxIndex(base) ==> db.disk.txs == TxIndex(base + path)
      ensures db.disk.blocks == old(db.disk.blocks) && SameAbove(old(db.disk), db.disk, |base| + done)
      ensures done > 0 && FixedSet(wired, engine.genesisValidators, db.disk) ==> SignedChain(engine.genesisValidators, base + path[..done])
      ensures ok ==> Fits(Fold(base + path))
      ensures !ok ==> db.writesLeft == 0 || Obstructed(full, base, path, if done == 0 then full else base + path[..done])
    {
      hide *;
      done := 0;
      assert base + path[..0] == base;
      ContinuesMeans(base, path);
      SameAboveOf(db.disk, db.disk, |base|);
      SignedBelow(base, |base|);
      assert base[..|base|] == base;
      assert db.disk.checkpoint.Some? by { RecoverableMeans(full); }
      for j := 0 to |path|
        invariant done == j && Objects() && db.disk.checkpoint == old(db.disk.checkpoint)
        invariant Ready(base + path[..j]) && Staff(base + path[..j])
        invariant Recoverable(rules, genesis, db.disk, if j == 0 then full else base + path[..j])
        invariant j > 0 ==> TipIs(db.disk, base + path[..j]) && TotalsAt(db.disk, base + path[..j])
        invariant old(UndosComplete(db.disk, base)) ==> UndosComplete(db.disk, base + path[..j])
        invariant old(db.disk.txs) == TxIndex(base) ==> db.disk.txs == TxIndex(base + path[..j])
        invariant db.disk.blocks == old(db.disk.blocks) && SameAbove(old(db.disk), db.disk, |base| + j)
        invariant j > 0 ==> Fits(Fold(base + path[..j]))
        invariant FixedSet(wired, engine.genesisValidators, db.disk) ==> SignedChain(engine.genesisValidators, base + path[..j])
      {
        ghost var cur := base + path[..j];
        ghost var before := db.disk;
        var b := path[j];
        assert base + path[..j + 1] == cur + [b];
        ContinuesFacts(base, path, j, old(db.disk));
        ghost var committed;
        ok, committed := ReplayBlock(b, cur, if j == 0 then full else cur);
        if committed {
          done := j + 1;
        }
        SameAboveChain(old(db.disk), before, db.disk, |base| + j, |base| + done);
        if !ok {
          if db.writesLeft > 0 {
            ObstructedAt(full, base, path, if done == 0 then full else base + path[..done], j);
          }
          return;
        }
      }
      assert path[..|path|] == path;
      ok := true;
    }

    /** The second half of Reorg, once the branch is known to have more work: checkpoint, revert,
        replay, and only then the tip in memory. */
    method SwitchOver(path: seq<Block>, ghost base: seq<Block>) returns (r: ReorgResult, ghost persisted: seq<Block>)
      requires Core() && TxHashSound()
      requires |path| > 0 && 0 < path[0].header.height <= |active| && base == active[..path[0].header.height] && Continues(base, path)
      modifies db, this`height, this`tipHash, this`tipTimestamp, this`supply, this`cumDiff, this`registered, this`active,
               engine`validators, engine`lastProduced
      ensures Objects() && db.disk.blocks == old(db.disk.blocks)
      ensures !r.Kept? && !r.NoBranch? && !r.Misled?
      ensures r.NotStarted? ==> Core() && active == old(active) && db.disk == old(db.disk) && db.writesLeft == 0
      ensures r.Switched? ==> active == base + path && Core()
      ensures (r.Switched? || r.Replayed?) && old(HeightsExact(db.disk, active)) && |base + path| >= |old(active)| ==> HeightsExact(db.disk, active)
      ensures r.Switched? && old(Complete(active)) ==> Complete(active)
      ensures r.Switched? && old(UndosComplete(db.disk, active)) ==> UndosComplete(db.disk, active)
      ensures r.Replayed? ==> active == base + path
      ensures r.Replayed? ==> |base| < |persisted| <= |old(active)| && persisted == old(active)[..|persisted|] && AsRebuilt(persisted, base + path, |base| - 1)
      ensures r.Interrupted? ==>
                LeftRecoverable(wired, rules, genesis, engine.genesisValidators, old(db.disk), db.disk, old(active), path, persisted)
      ensures r.Interrupted? ==> db.writesLeft == 0 || Obstructed(old(active), base, path, persisted)
      ensures old(UndosComplete(db.disk, active)) ==> !r.Replayed? && !r.ReplayStopped?
    {
      hide *;
      persisted := active;
      ghost var start := db.disk;
      ghost var previous := active;
      var first := path[0].header.height;
      CoreFacts();
      ObjectFacts();
      CompleteIs(active);
      ContinuesMeans(base, path);
      SignedBelow(active, |active|);
      assert active[..|active|] == active;
      var ok := blocks.PutReorgCheckpoint(first - 1);
      CheckpointOnly(start, active);
      if !ok {
        MakeCore();
        return NotStarted, persisted;
      }
      RecoverableNow(active);
      assert active[..first - 1 + 1] == base;
      var rewind;
      ghost var left;
      rewind, left := RevertBranch(first - 1);
      if rewind.UndoMissing? {
        MakeContinues(start, base, path);
        persisted := active[..left];
        r := SwitchByRebuild(path, first - 1, base, start, persisted);
        return r, persisted;
      }
      if rewind.RewindStuck? {
        SameAboveOf(start, db.disk, |previous|);
        SameBlocksFixed(wired, engine.genesisValidators, start, db.disk);
        LeftRecoverableMeans(wired, rules, genesis, engine.genesisValidators, start, db.disk, previous, path, persisted);
        return Interrupted, persisted;
      }
      MakeContinues(start, base, path);
      SameAboveOf(start, db.disk, |base|);
      CompleteIs(base);
      r, persisted := SwitchForward(path, base, start, active);
    }

    /** ... instead of that, when an undo record is missing. */
    method SwitchByRebuild(path: seq<Block>, fork: nat, ghost base: seq<Block>, ghost start: Disk, ghost from: seq<Block>) returns (r: ReorgResult)
      requires Objects() && TxHashSound() && Ready(from) && Staff(from)
      requires Recoverable(rules, genesis, db.disk, active) && Continues(base, path)
      requires |base| == fork + 1 <= |active| && base == active[..|base|] && genesisHash == genesis.Hash() && genesisHash != ZERO_HASH
      requires db.disk.blocks == start.blocks && db.disk.heights == start.heights
      requires FixedSet(wired, engine.genesisValidators, db.disk) ==> SignedChain(engine.genesisValidators, base)
      modifies db, this`height, this`tipHash, this`tipTimestamp, this`supply, this`cumDiff, this`registered, this`active,
               engine`validators, engine`lastProduced
      ensures Objects() && db.disk.blocks == old(db.disk.blocks)
      ensures r.Replayed? || r.ReplayStopped?
      ensures r.Replayed? ==> active == base + path && AsRebuilt(from, base + path, fork)
      ensures r.Replayed? && HeightsExact(start, old(active)) && |base + path| >= |old(active)| ==> HeightsExact(db.disk, active)
    {
      hide *;
      ghost var previous := active;
      RecoverableParts(rules, genesis, db.disk, active);
      ReplayBase(rules, genesis, db.disk, active, base);
      var ok := RebuildReorg(path, fork, base, from);
      if ok && HeightsExact(start, previous) && |base + path| >= |previous| {
        HeightsFit(start, previous, base + path);
      }
      return if ok then Replayed else ReplayStopped;
    }

    /** ... the second half of that: from the fork up. */
    method SwitchForward(path: seq<Block>, ghost base: seq<Block>, ghost start: Disk, ghost previous: seq<Block>) returns (r: ReorgResult, ghost persisted: seq<Block>)
      requires Objects() && TxHashSound()
      requires Ready(base) && Staff(base) && Continues(base, path) && Recoverable(rules, genesis, db.disk, previous)
      requires |base| <= |previous| && base == previous[..|base|] && genesisHash == genesis.Hash() && genesisHash != ZERO_HASH
      requires db.disk.blocks == start.blocks && SameAbove(start, db.disk, |base|)
      requires FixedSet(wired, engine.genesisValidators, start) ==> SignedChain(engine.genesisValidators, previous)
      modifies db, this`height, this`tipHash, this`tipTimestamp, this`supply, this`cumDiff, this`registered, this`active,
               engine`validators, engine`lastProduced
      ensures Objects() && db.disk.blocks == old(db.disk.blocks)
      ensures r.Switched? || r.Interrupted?
      ensures r.Switched? ==> active == base + path && Core()
      ensures r.Switched? && HeightsExact(start, previous) && |base + path| >= |previous| ==> HeightsExact(db.disk, active)
      ensures r.Switched? && old(Complete(base)) ==> Complete(active)
      ensures r.Switched? && old(UndosComplete(db.disk, base)) ==> UndosComplete(db.disk, active)
      ensures r.Interrupted? ==>
                LeftRecoverable(wired, rules, genesis, engine.genesisValidators, start, db.disk, previous, path, persisted)
      ensures r.Interrupted? ==> db.writesLeft == 0 || Obstructed(previous, base, path, persisted)
    {
      hide *;
      ghost var rewound := db.disk;
      ObjectFacts();
      CompleteIs(base);
      ContinuesMeans(base, path);
      var ok;
      ghost var done;
      ok, done := ReplayBranch(path, base, previous);
      PartWayAt(previous, path, done);
      persisted := if done == 0 then previous else base + path[..done];
      SameAboveChain(start, rewound, db.disk, |base|, |base| + done);
      if done == 0 {
        SameAboveChain(start, db.disk, db.disk, |base|, |previous|);
      }
      SameAboveOf(db.disk, db.disk, |previous|);
      SameBlocksFixed(wired, engine.genesisValidators, start, db.disk);
      LeftRecoverableMeans(wired, rules, genesis, engine.genesisValidators, start, db.disk, previous, path, persisted);
      if !ok {
        return Interrupted, persisted;
      }
      assert path[..|path|] == path;
      CompleteIs(base + path);
      r := Finish(path, base, start, previous);
    }

    /** The end of Reorg: move the tip in memory and clear the checkpoint. */
    method Finish(path: seq<Block>, ghost base: seq<Block>, ghost start: Disk, ghost before: seq<Block>) returns (r: ReorgResult)
      requires Objects() && |path| > 0 && Linked(path) && path[0].header.height == |base|
      requires Ready(base + path) && Staff(base + path) && TipIs(db.disk, base + path) && TotalsAt(db.disk, base + path) && Fits(Fold(base + path))
      requires Recoverable(rules, genesis, db.disk, base + path)
      requires genesisHash == genesis.Hash() && genesisHash != ZERO_HASH
      requires SameAbove(start, db.disk, |base| + |path|)
      modifies db, this`height, this`tipHash, this`tipTimestamp, this`active
      ensures Objects()
      ensures r.Switched? || r.Interrupted?
      ensures r.Switched? ==> active == base + path && Core()
      ensures r.Switched? && HeightsExact(start, before) && |base + path| >= |before| ==> HeightsExact(db.disk, active)
      ensures r.Switched? ==> db.disk.blocks == old(db.disk.blocks)
      ensures r.Switched? && old(UndosComplete(db.disk, base + path)) && old(db.disk.txs) == TxIndex(base + path) ==> Complete(active)
      ensures r.Switched? && old(UndosComplete(db.disk, base + path)) ==> UndosComplete(db.disk, active)
      ensures r.Interrupted? ==> db.disk == old(db.disk) && db.writesLeft == 0
    {
      hide *;
      ghost var target := base + path;
      ghost var replayed := db.disk;
      ObjectFacts();
      TargetFacts(target);
      LinkedHeights(path, |path| - 1);
      var tip := path[|path| - 1];
      tipHash, height, tipTimestamp := tip.Hash(), tip.header.height, tip.header.timestamp;
      active := target;
      var ok := blocks.DeleteReorgCheckpoint();
      MakeObjects();
      if !ok {
        return Interrupted;
      }
      CheckpointOnly(replayed, target);
      MakeCore();
      if HeightsExact(start, before) && |target| >= |before| {
        ExactStays(start, replayed, before, target);
        SameHeights(replayed, db.disk, target);
      }
      CompleteIs(target);
      return Switched;
    }

    /** Reorg along a branch whose fork collectBranch has put above the tip. The old branch is empty, so
        any work is more; nothing is reverted, and the blocks are connected to the state of a chain they
        do not hang on. Stopped before the first of them is committed, the old chain can be recovered;
        after that the database is no chain's, and whether a restart rebuilds one is up to the index. */
    method SwitchAstray(path: seq<Block>) returns (r: ReorgResult)
      requires Core() && TxHashSound() && |path| > 0 && Linked(path) && Stored(db.disk, path) && path[0].header.height > |active|
      modifies db, this`height, this`tipHash, this`tipTimestamp, this`supply, this`cumDiff, this`registered, engine`validators, engine`lastProduced
      ensures Objects() && db.disk.blocks == old(db.disk.blocks)
      ensures r.NotStarted? || r.Misled?
      ensures r.NotStarted? ==> Core() && db.disk == old(db.disk) && db.writesLeft == 0
      ensures |active| > 0
      ensures r.Misled? ==>
                || LeftRecoverable(wired, rules, genesis, engine.genesisValidators, old(db.disk), db.disk, active, path, active)
                || Crossed(rules, genesis, old(db.disk), active, db.disk)
    {
      hide *;
      ghost var start := db.disk;
      CoreFacts();
      ObjectFacts();
      SignedBelow(active, |active|);
      assert active[..|active|] == active;
      var ok := blocks.PutReorgCheckpoint(path[0].header.height - 1);
      CheckpointOnly(start, active);
      if !ok {
        MakeCore();
        return NotStarted;
      }
      RecoverableNow(active);
      AcrossStarts(start, active, path, db.disk);
      for j := 0 to |path|
        invariant Objects() && Across(start, active, path, j, db.disk) && cumDiff == CumDiffOf(db.disk)
        invariant db.disk.blocks == start.blocks && (j == 0 ==> Recoverable(rules, genesis, db.disk, active) && db.disk.heights == start.heights)
      {
        ghost var before := db.disk;
        StoredAt(start, path, j);
        ghost var committed;
        ok, committed := ConnectAstray(path[j]);
        if committed {
          AcrossNext(start, active, path, j, before, db.disk);
        } else {
          AcrossSame(start, active, path, j, before, db.disk);
        }
        if !ok {
          if committed || j > 0 {
            AcrossIsCrossed(rules, genesis, start, active, path, if committed then j + 1 else j, db.disk);
          } else {
            StoppedShort(rules, genesis, before, db.disk, active);
            SameAboveOf(start, db.disk, |active|);
            SameBlocksFixed(wired, engine.genesisValidators, start, db.disk);
            LeftRecoverableMeans(wired, rules, genesis, engine.genesisValidators, start, db.disk, active, path, active);
          }
          return Misled;
        }
      }
      var tip := path[|path| - 1];
      ObjectFacts();
      ghost var done := db.disk;
      tipHash, height, tipTimestamp := tip.Hash(), tip.header.height, tip.header.timestamp;
      ok := blocks.DeleteReorgCheckpoint();
      MakeObjects();
      WorkStays(done, db.disk);
      AcrossSame(start, active, path, |path|, done, db.disk);
      AcrossIsCrossed(rules, genesis, start, active, path, |path|, db.disk);
      return Misled;
    }

    /** What Reorg may leave when the branch to `newTip` is not clear. */
    ghost predicate AfterAstray(before: Disk, chain: seq<Block>, newTip: Hash, r: ReorgResult)
      requires StoreOk(before, genesis) && newTip in before.blocks && |chain| > 0
      reads this, db, engine
    {
      && active == chain && (r.NotStarted? || r.Misled?)
      && (r.NotStarted? ==> Core() && db.disk == before && db.writesLeft == 0)
      && (r.Misled? ==>
            || LeftRecoverable(wired, rules, genesis, engine.genesisValidators, before, db.disk, chain, Walk(before, genesis, newTip), chain)
            || Crossed(rules, genesis, before, chain, db.disk))
    }

    lemma MakeAfterAstray(before: Disk, chain: seq<Block>, newTip: Hash, path: seq<Block>, r: ReorgResult)
      requires StoreOk(before, genesis) && newTip in before.blocks && |chain| > 0 && path == Walk(before, genesis, newTip)
      requires active == chain && (r.NotStarted? || r.Misled?)
      requires r.NotStarted? ==> Core() && db.disk == before && db.writesLeft == 0
      requires r.Misled? ==>
                 || LeftRecoverable(wired, rules, genesis, engine.genesisValidators, before, db.disk, chain, path, chain)
                 || Crossed(rules, genesis, before, chain, db.disk)
      ensures AfterAstray(before, chain, newTip, r)
    {
    }

    /** The walk that Reorg follows when it is not the path: a stored branch above the tip. */
    lemma WalkFacts(newTip: Hash, path: seq<Block>)
      requires StoreOk(db.disk, genesis) && ChainOk(rules, genesis, active) && newTip in db.disk.blocks
      requires var p := Path(db.disk, genesis, active, newTip); 0 < |path| <= |p| && path == p[|p| - |path|..]
      ensures Linked(path) && Stored(db.disk, path) && |path| > 0
    {
      hide *;
      PathIsBranch(rules, db.disk, genesis, active, newTip);
      TailOfBranch(db.disk, genesis, active, newTip, Path(db.disk, genesis, active, newTip), |path|);
    }

    /** One block of that: validated, connected, handlers run. `committed` tells a failure after its batch
        from one before. */
    method ConnectAstray(b: Block) returns (ok: bool, ghost committed: bool)
      requires Objects() && TxHashSound() && b.Hash() in db.disk.blocks && db.disk.blocks[b.Hash()] == b
      modifies db, this`supply, this`cumDiff, this`registered, engine`validators, engine`lastProduced
      ensures Objects() && db.disk.blocks == old(db.disk.blocks)
      ensures ok ==> committed
      ensures committed ==> db.disk.height == Some(b.header.height) && db.disk.heights == old(db.disk.heights)[b.header.height := b.Hash()]
      ensures committed ==> CumDiffOf(db.disk) == old(cumDiff) + b.header.difficulty
      ensures ok ==> cumDiff == CumDiffOf(db.disk)
      ensures !committed ==> db.disk.Rest() == old(db.disk.Rest()) && db.disk.heights == old(db.disk.heights) && db.disk.height == old(db.disk.height)
      ensures !committed ==> CumDiffOf(db.disk) == CumDiffOf(old(db.disk))
    {
      hide *;
      ok, committed := false, false;
      ghost var before := db.disk;
      ObjectFacts();
      var structural := ValidateBlock(b);
      if !structural {
        return;
      }
      var authorised := engine.VerifyHeader(utxos, b.header);
      if !authorised {
        return;
      }
      var allowed := CheckSigningLimit(b.header);
      if !allowed {
        return;
      }
      BlockHasTxs(b);
      ghost var work := cumDiff + b.header.difficulty;
      var step, spent := Connect(b, [], false);
      TippedMeans(before, db.disk, b, work);
      MakeObjects();
      if !step.Connected? {
        committed := step.Broken? && Tipped(before, db.disk, b, work);
        return;
      }
      ObjectFacts();
      KeyLengths(b.txs, spent);
      FireStakes(KeysOfTxs(b.txs));
      FireUnstakes(KeysOfUtxos(spent));
      MakeObjects();
      ok, committed := true, true;
    }

    /** What Reorg leaves when the branch to `newTip` is clear. The chain is kept exactly when the branch
        has no more whole-chain work; otherwise it becomes the target, or it is interrupted, or replayed. */
    ghost predicate AfterSwitch(before: Disk, chain: seq<Block>, newTip: Hash, r: ReorgResult, persisted: seq<Block>)
      requires StoreOk(before, genesis) && newTip in before.blocks && |chain| > 0
      reads this, db, engine
    {
      var path := Path(before, genesis, chain, newTip);
      var target := Switch(chain, path);
      && |path| > 0 && path[0].header.height <= |chain| && !r.Misled? && !r.NoBranch?
      && (r.Kept? <==> Fold(target).cumDiff <= Fold(chain).cumDiff)
      && (r.Kept? || r.NotStarted? ==> Core() && active == chain && db.disk == before)
      && (r.NotStarted? ==> db.writesLeft == 0)
      && (r.Switched? ==> active == target && Core())
      && (r.Replayed? ==>
            && active == target && 0 < path[0].header.height < |persisted| <= |chain| && persisted == chain[..|persisted|]
            && AsRebuilt(persisted, target, path[0].header.height - 1))
      && ((r.Switched? || r.Replayed?) && HeightsExact(before, chain) && |target| >= |chain| ==> HeightsExact(db.disk, active))
      && (r.Interrupted? ==>
            && LeftRecoverable(wired, rules, genesis, engine.genesisValidators, before, db.disk, chain, path, persisted)
            && (db.writesLeft == 0 || Obstructed(chain, chain[..path[0].header.height], path, persisted)))
    }

    lemma AfterSwitchIs(before: Disk, chain: seq<Block>, newTip: Hash, r: ReorgResult, persisted: seq<Block>)
      requires StoreOk(before, genesis) && newTip in before.blocks && |chain| > 0
      ensures AfterSwitch(before, chain, newTip, r, persisted) <==>
              var path := Path(before, genesis, chain, newTip);
              var target := Switch(chain, path);
              && |path| > 0 && path[0].header.height <= |chain| && !r.Misled? && !r.NoBranch?
              && (r.Kept? <==> Fold(target).cumDiff <= Fold(chain).cumDiff)
              && (r.Kept? || r.NotStarted? ==> Core() && active == chain && db.disk == before)
              && (r.NotStarted? ==> db.writesLeft == 0)
              && (r.Switched? ==> active == target && Core())
              && (r.Replayed? ==>
                    && active == target && 0 < path[0].header.height < |persisted| <= |chain| && persisted == chain[..|persisted|]
                    && AsRebuilt(persisted, target, path[0].header.height - 1))
              && ((r.Switched? || r.Replayed?) && HeightsExact(before, chain) && |target| >= |chain| ==> HeightsExact(db.disk, active))
              && (r.Interrupted? ==>
                    && LeftRecoverable(wired, rules, genesis, engine.genesisValidators, before, db.disk, chain, path, persisted)
                    && (db.writesLeft == 0 || Obstructed(chain, chain[..path[0].header.height], path, persisted)))
    {
      hide StoreOk, Core, Fold, Switch, Path, AsRebuilt, LeftRecoverable, Obstructed, HeightsExact;
    }

    /** Reorg, once the walk has found the path: compare the work, and switch if that pays. */
    method SwitchIfHeavier(newTip: Hash, path: seq<Block>) returns (r: ReorgResult, ghost persisted: seq<Block>)
      requires Core() && TxHashSound()
      requires StoreOk(db.disk, genesis) && newTip in db.disk.blocks && path == Path(db.disk, genesis, active, newTip) && |path| <= MAX_REORG_DEPTH
      modifies db, this`height, this`tipHash, this`tipTimestamp, this`supply, this`cumDiff, this`registered, this`active,
               engine`validators, engine`lastProduced
      ensures Objects() && db.disk.blocks == old(db.disk.blocks) && |old(active)| > 0
      ensures AfterSwitch(old(db.disk), old(active), newTip, r, persisted) && !r.NoBranch?
      ensures r.Replayed? && rules.maxSupply == 0 ==> Ready(active) && Quiet(active) && UndosComplete(db.disk, active) && (!wired ==> Core())
      ensures r.Switched? && old(Complete(active)) ==> Complete(active)
      ensures r.Switched? && old(UndosComplete(db.disk, active)) ==> UndosComplete(db.disk, active)
      ensures old(UndosComplete(db.disk, active)) ==> !r.Replayed? && !r.ReplayStopped?
    {
      hide *;
      persisted := active;
      ghost var start := db.disk;
      ghost var chain := active;
      CoreFacts();
      ObjectFacts();
      BranchFacts(newTip, path);
      var first := path[0].header.height;
      SwitchIs(active, path);
      var newWork := NewBranchWork(path);
      var oldWork := OldBranchWork(first);
      BranchWorkIsChainWork(active, path, first);
      if newWork <= oldWork {
        AfterSwitchIs(start, chain, newTip, Kept, persisted);
        return Kept, persisted;
      }
      assert newTip != genesis.Hash();
      r, persisted := SwitchOver(path, active[..first]);
      AfterSwitchIs(start, chain, newTip, r, persisted);
      if r.Replayed? && rules.maxSupply == 0 {
        UncappedRebuilt(persisted, active, first - 1);
      }
    }

    /** Reorg: switch to the branch ending in `newTip` if it has more work than the active chain. */
    method Reorg(newTip: Hash) returns (r: ReorgResult, ghost persisted: seq<Block>)
      requires Core() && TxHashSound()
      modifies db, this`height, this`tipHash, this`tipTimestamp, this`supply, this`cumDiff, this`registered, this`active,
               engine`validators, engine`lastProduced
      ensures Objects() && db.disk.blocks == old(db.disk.blocks) && |old(active)| > 0 && StoreOk(old(db.disk), genesis)
      ensures r.NoBranch? <==> newTip !in old(db.disk.blocks) || |Walk(old(db.disk), genesis, newTip)| > MAX_REORG_DEPTH
      ensures r.NoBranch? ==> Core() && active == old(active) && db.disk == old(db.disk)
      ensures !r.NoBranch? ==>
                if Clear(old(db.disk), genesis, old(active), newTip) then AfterSwitch(old(db.disk), old(active), newTip, r, persisted)
                else AfterAstray(old(db.disk), old(active), newTip, r)
      ensures r.Replayed? && rules.maxSupply == 0 ==> Ready(active) && Quiet(active) && UndosComplete(db.disk, active) && (!wired ==> Core())
      ensures r.Switched? && old(Complete(active)) ==> Complete(active)
      ensures r.Switched? && old(UndosComplete(db.disk, active)) ==> UndosComplete(db.disk, active)
      ensures old(UndosComplete(db.disk, active)) ==> !r.Replayed? && !r.ReplayStopped?
    {
      hide *;
      persisted := active;
      ghost var start := db.disk;
      CoreFacts();
      ObjectFacts();
      var branch := CollectBranch(newTip);
      if !branch.Branch? {
        return NoBranch, persisted;
      }
      var path := branch.blocks;
      BranchOnChain(newTip);
      if path[0].header.height > height + 1 {
        WalkFacts(newTip, path);
        r := SwitchAstray(path);
        MakeAfterAstray(start, active, newTip, path, r);
        AstrayResults(start, active, newTip, r);
        return r, persisted;
      }
      r, persisted := SwitchIfHeavier(newTip, path);
    }

    lemma BranchOnChain(newTip: Hash)
      requires StoreOk(db.disk, genesis) && ChainOk(rules, genesis, active) && newTip in db.disk.blocks
      ensures var p := Path(db.disk, genesis, active, newTip); |p| > 0 && p[0].header.height <= |active|
    {
      hide *;
      BranchFacts(newTip, Path(db.disk, genesis, active, newTip));
    }

    /** What is left when a reorganisation to `newTip` was tried: it is beyond the depth limit, or its
        branch is clear and judged by its work, or it is not. */
    ghost predicate AfterFork(before: Disk, chain: seq<Block>, newTip: Hash, r: ReorgResult, persisted: seq<Block>)
      reads this, db, engine
    {
      && StoreOk(before, genesis) && newTip in before.blocks && |chain| > 0
      && (r.NoBranch? <==> |Walk(before, genesis, newTip)| > MAX_REORG_DEPTH)
      && (!r.NoBranch? ==>
            if Clear(before, genesis, chain, newTip) then AfterSwitch(before, chain, newTip, r, persisted) else AfterAstray(before, chain, newTip, r))
    }

    lemma AfterForkIs(before: Disk, chain: seq<Block>, newTip: Hash, r: ReorgResult, persisted: seq<Block>)
      ensures AfterFork(before, chain, newTip, r, persisted) <==>
              && StoreOk(before, genesis) && newTip in before.blocks && |chain| > 0
              && (r.NoBranch? <==> |Walk(before, genesis, newTip)| > MAX_REORG_DEPTH)
              && (!r.NoBranch? ==>
                    if Clear(before, genesis, chain, newTip) then AfterSwitch(before, chain, newTip, r, persisted) else AfterAstray(before, chain, newTip, r))
    {
      hide StoreOk, Walk, Clear, AfterSwitch, AfterAstray;
    }

    /** Only a branch that is not clear misleads, and only one that is can be interrupted. */
    lemma MisledIsAstray(before: Disk, chain: seq<Block>, newTip: Hash, r: ReorgResult, persisted: seq<Block>)
      requires StoreOk(before, genesis) && newTip in before.blocks && |chain| > 0 && r.Misled?
      requires if Clear(before, genesis, chain, newTip) then AfterSwitch(before, chain, newTip, r, persisted) else AfterAstray(before, chain, newTip, r)
      ensures || (Recoverable(rules, genesis, db.disk, chain) && (FixedSet(wired, engine.genesisValidators, db.disk) ==> SignedChain(engine.genesisValidators, chain)))
              || Crossed(rules, genesis, before, chain, db.disk)
    {
      hide *;
      if Clear(before, genesis, chain, newTip) {
        AfterSwitchIs(before, chain, newTip, r, persisted);
      } else {
        AstrayMeans(before, chain, newTip, r);
      }
    }

    lemma InterruptedIsClear(before: Disk, chain: seq<Block>, newTip: Hash, r: ReorgResult, persisted: seq<Block>)
      requires StoreOk(before, genesis) && newTip in before.blocks && |chain| > 0 && r.Interrupted?
      requires if Clear(before, genesis, chain, newTip) then AfterSwitch(before, chain, newTip, r, persisted) else AfterAstray(before, chain, newTip, r)
      ensures var path := Path(before, genesis, chain, newTip);
              && |path| > 0 && path[0].header.height <= |chain|
              && LeftRecoverable(wired, rules, genesis, engine.genesisValidators, before, db.disk, chain, path, persisted)
              && (db.writesLeft == 0 || Obstructed(chain, chain[..path[0].header.height], path, persisted))
    {
      hide *;
      if Clear(before, genesis, chain, newTip) {
        AfterSwitchIs(before, chain, newTip, r, persisted);
      } else {
        AstrayResults(before, chain, newTip, r);
      }
    }

    lemma AstrayMeans(before: Disk, chain: seq<Block>, newTip: Hash, r: ReorgResult)
      requires StoreOk(before, genesis) && newTip in before.blocks && |chain| > 0 && AfterAstray(before, chain, newTip, r) && r.Misled?
      ensures || (Recoverable(rules, genesis, db.disk, chain) && (FixedSet(wired, engine.genesisValidators, db.disk) ==> SignedChain(engine.genesisValidators, chain)))
              || Crossed(rules, genesis, before, chain, db.disk)
    {
      hide Recoverable, Crossed, FixedSet, SignedChain, PartWay, SameAbove;
    }

    lemma AstrayResults(before: Disk, chain: seq<Block>, newTip: Hash, r: ReorgResult)
      requires StoreOk(before, genesis) && newTip in before.blocks && |chain| > 0 && AfterAstray(before, chain, newTip, r)
      ensures active == chain && (r.NotStarted? || r.Misled?)
      ensures r.NotStarted? ==> Core() && db.disk == before && db.writesLeft == 0
    {
      hide LeftRecoverable, Crossed, Core;
    }

    // -------------------------------------------------------------- rebuilding from the blocks

    /** The ledger part of a rebuild in progress: exactly the fold of the blocks replayed so far. */
    ghost predicate Rebuilt(replayed: seq<Block>, supplySoFar: nat, cumSoFar: nat)
      reads this, db
    {
      && db.disk.utxos == Fold(replayed).utxos && IndexesOk(db.disk)
      && supplySoFar == CappedSupply(rules.maxSupply, replayed) && cumSoFar == Fold(replayed).cumDiff && registered == Fold(replayed).registered
    }

    /** One height of RebuildUTXOs and of rebuildReorg: reward, apply, undo record, cap, totals. */
    method RebuildStep(b: Block, supplySoFar: nat, cumSoFar: nat, ghost sound: bool, ghost actual: Rules, ghost replayed: seq<Block>)
      returns (ok: bool, newSupply: nat, newCum: nat, spent: seq<Utxo>)
      requires Objects() && TxHashSound()
      requires sound ==> Replayable(actual, genesis, replayed, b) && Rebuilt(replayed, supplySoFar, cumSoFar)
      modifies db, this`registered
      ensures db.disk.blocks == old(db.disk.blocks) && db.disk.heights == old(db.disk.heights) && db.disk.txs == old(db.disk.txs)
      ensures db.disk.tip == old(db.disk.tip) && db.disk.height == old(db.disk.height) && db.disk.checkpoint == old(db.disk.checkpoint)
      ensures ok && sound ==> Rebuilt(replayed + [b], newSupply, newCum) && newSupply <= MAX_U64 && newCum <= MAX_U64
      ensures ok && sound ==> db.disk.undos == old(db.disk.undos)[b.Hash() := UndoOf(replayed + [b], |replayed|)]
      ensures ok && sound ==> spent == UndoOf(replayed + [b], |replayed|).spent
      ensures !ok && sound && Fold(replayed).registered + Registrations(b) <= MAX_U64 && Fits(Fold(replayed + [b])) ==>
                db.writesLeft == 0 && old(db.writesLeft) <= BlockWrites(Fold(replayed).utxos, b.txs, b.header.height)
      ensures ok && sound ==> Fold(replayed + [b]).registered <= MAX_U64
      ensures ok && sound ==> db.writesLeft == old(db.writesLeft) - BlockWrites(Fold(replayed).utxos, b.txs, b.header.height) - 1
      ensures OutputKeys(db.disk) + db.writesLeft <= old(OutputKeys(db.disk) + db.writesLeft)
    {
      hide *;
      newSupply, newCum, spent := supplySoFar, cumSoFar, [];
      ghost var start := db.disk;
      ObjectFacts();
      if sound {
        RebuiltMeans(replayed, supplySoFar, cumSoFar);
        ReplayFacts(rules, actual, genesis, replayed, b);
        CappedStep(rules.maxSupply, replayed, b);
        CappedBelow(rules.maxSupply, replayed + [b]);
      }
      var reward := ComputeBlockReward(db.disk.utxos, b);
      var undo := ApplyBlockWithUndo(utxos, b);
      RestFields(start, db.disk);
      if undo.None? {
        ok := false;
        return;
      }
      var record := undo.value.(reward := reward);
      if sound {
        RecordIsUndo(replayed, b, start.utxos, record);
      }
      ghost var applied := db.disk;
      ok := blocks.PutUndo(b.Hash(), record);
      SameKeys(applied, db.disk);
      if !ok {
        return;
      }
      if sound {
        SameRegions(applied, db.disk);
      }
      spent := record.spent;
      var effective := Capped(rules.maxSupply, supplySoFar, reward);
      if effective > MAX_U64 - supplySoFar || b.header.difficulty > MAX_U64 - cumSoFar {
        if sound {
          FitsIs(Fold(replayed + [b]));
        }
        ok := false;
        return;
      }
      newSupply, newCum := supplySoFar + effective, cumSoFar + b.header.difficulty;
      var registrations := CountRegisterOutputs(b.txs);
      CountedIs(b);
      if registered > MAX_U64 - registrations {
        ok := false;
        return;
      }
      registered := registered + registrations;
      if sound {
        MakeRebuilt(replayed + [b], newSupply, newCum);
      }
    }

    /** RebuildUTXOs: clear the unspent outputs and replay every block up to the tip. Cut short
        anywhere, it leaves a database from which it can be run again for the same chain. */
    method RebuildUtxos(ghost actual: Rules, ghost chain: seq<Block>) returns (ok: bool)
      requires Objects() && TxHashSound()
      requires Recoverable(actual, genesis, db.disk, chain) && CapHarmless(rules, actual, genesis)
      requires height == |chain| - 1 && tipHash == chain[|chain| - 1].Hash()
      modifies db, this`supply, this`cumDiff, this`registered
      ensures db.disk.blocks == old(db.disk.blocks) && db.disk.heights == old(db.disk.heights) && db.disk.txs == old(db.disk.txs)
      ensures ok ==> DiskAt(actual, genesis, db.disk, chain) && UndosComplete(db.disk, chain)
      ensures ok ==> supply == Fold(chain).supply && cumDiff == Fold(chain).cumDiff && registered == Fold(chain).registered
      ensures !ok ==> Recoverable(actual, genesis, db.disk, chain)
      ensures ok <==> old(db.writesLeft >= RebuildWrites(db.disk, chain)) && Fold(chain).registered <= MAX_U64
      ensures !ok && Fold(chain).registered <= MAX_U64 ==> OutputKeys(db.disk) <= MostKeys(old(db.disk), chain)
    {
      hide *;
      ghost var start := db.disk;
      ObjectFacts();
      RecoverableParts(actual, genesis, start, chain);
      ChainIsHeighted(actual, genesis, chain);
      RebuildWritesAre(start, chain);
      ok := utxos.ClearAll();
      RestCarries(actual, genesis, start, db.disk, chain);
      if !ok {
        return;
      }
      var supplySoFar, cumSoFar := 0, 0;
      registered := 0;
      assert chain[..0] == [];
      NothingRebuilt(start, db.disk);
      NoKeys(start);
      ghost var budget := db.writesLeft;
      MakeRebuilt([], 0, 0);
      NoUndosYet(db.disk, chain);
      var h := 0;
      while h <= height
        invariant h <= |chain| == height + 1
        invariant utxos.db == db && blocks.db == db && engine.Valid()
        invariant Recoverable(actual, genesis, db.disk, chain)
        invariant Rebuilt(chain[..h], supplySoFar, cumSoFar)
        invariant UndosDone(db.disk, chain, h)
        invariant db.writesLeft == budget - ReplayWrites(chain[..h]) && OutputKeys(db.disk) + db.writesLeft <= budget
        invariant Fold(chain[..h]).registered <= MAX_U64
        invariant db.disk.blocks == start.blocks && db.disk.heights == start.heights && db.disk.txs == start.txs
      {
        ghost var before := db.disk;
        RecoverableParts(actual, genesis, before, chain);
        BlockAtHeight(db.disk, chain, h);
        var b := db.disk.BlockAt(h).value;
        assert chain[..h + 1] == chain[..h] + [b];
        NextToReplay(actual, genesis, chain, h);
        ReplayWritesStep(chain, h);
        ReplayWritesGrow(chain, h + 1);
        assert h == 0 ==> chain[..h] + [b] == [chain[0]];
        MakeObjects();
        var spent;
        ok, supplySoFar, cumSoFar, spent := RebuildStep(b, supplySoFar, cumSoFar, true, actual, chain[..h]);
        StillRecoverable(actual, genesis, before, db.disk, chain);
        if !ok {
          RegisteredBy(chain, h);
          return;
        }
        UndosDoneGrow(genesis, before, db.disk, chain, h);
        h := h + 1;
      }
      assert chain[..h] == chain;
      RebuiltMeans(chain, supplySoFar, cumSoFar);
      HarmlessSupply(rules, actual, genesis, chain);
      supply, cumDiff := supplySoFar, cumSoFar;
      ghost var rebuilt := db.disk;
      RecoverableParts(actual, genesis, rebuilt, chain);
      ok := blocks.SetTip(tipHash, height, supplySoFar);
      SameKeys(rebuilt, db.disk);
      StillRecoverable(actual, genesis, rebuilt, db.disk, chain);
      if !ok {
        return;
      }
      ok := blocks.SetCumulativeDifficulty(cumSoFar);
      SameKeys(rebuilt, db.disk);
      StillRecoverable(actual, genesis, rebuilt, db.disk, chain);
      if !ok {
        return;
      }
      ok := blocks.DeleteReorgCheckpoint();
      SameKeys(rebuilt, db.disk);
      if !ok {
        return;
      }
      RebuiltDisk(actual, genesis, rebuilt, db.disk, chain, supplySoFar, cumSoFar);
    }

    lemma RebuiltMeans(replayed: seq<Block>, supplySoFar: nat, cumSoFar: nat)
      requires Rebuilt(replayed, supplySoFar, cumSoFar)
      ensures db.disk.utxos == Fold(replayed).utxos && IndexesOk(db.disk)
      ensures supplySoFar == CappedSupply(rules.maxSupply, replayed) && cumSoFar == Fold(replayed).cumDiff && registered == Fold(replayed).registered
    {
    }

    lemma MakeRebuilt(replayed: seq<Block>, supplySoFar: nat, cumSoFar: nat)
      requires db.disk.utxos == Fold(replayed).utxos && IndexesOk(db.disk)
      requires supplySoFar == CappedSupply(rules.maxSupply, replayed) && cumSoFar == Fold(replayed).cumDiff && registered == Fold(replayed).registered
      ensures Rebuilt(replayed, supplySoFar, cumSoFar)
    {
    }

    // -------------------------------------------------------------- reorganising without undo records

    /** The validators are those that the unspent outputs `m` demand. */
    ghost predicate InStep(m: UtxoMap)
      reads engine
    {
      wired ==> Agrees(Elements(engine.validators), Elements(engine.genesisValidators), engine.minStake, m)
    }

    lemma InStepMeans(m: UtxoMap)
      ensures InStep(m) <==> (wired ==> Agrees(Elements(engine.validators), Elements(engine.genesisValidators), engine.minStake, m))
    {
    }

    /** rebuildReorg's first loop: the unstake handlers for the branch that is left. */
    method UnstakeBranch(fork: nat)
      requires Objects()
      modifies engine`validators
      ensures Objects()
      ensures FixedSet(wired, engine.genesisValidators, db.disk) ==> engine.validators == old(engine.validators)
      ensures IndexesOk(db.disk) && old(InStep(db.disk.utxos)) ==> Elements(engine.validators) == old(Elements(engine.validators))
    {
      hide *;
      ObjectFacts();
      ghost var validators := Elements(engine.validators);
      ghost var same := IndexesOk(db.disk) && InStep(db.disk.utxos);
      InStepMeans(db.disk.utxos);
      var h := height;
      while h > fork
        invariant utxos.db == db && blocks.db == db && engine.Valid()
        invariant FixedSet(wired, engine.genesisValidators, db.disk) ==> engine.validators == old(engine.validators)
        invariant same ==> Elements(engine.validators) == validators
      {
        var b := db.disk.BlockAt(h);
        if b.Some? {
          KeyLengths(b.value.txs, []);
          if same && wired {
            DroppedNothing(validators, Elements(engine.genesisValidators), engine.minStake, db.disk.utxos, KeysOfTxs(b.value.txs));
          }
          if FixedSet(wired, engine.genesisValidators, db.disk) {
            FixedAt(wired, engine.genesisValidators, db.disk, h);
          }
          FireUnstakes(KeysOfTxs(b.value.txs));
        }
        h := h - 1;
      }
      MakeObjects();
    }

    /** The second loop: the branch takes over the height and transaction indexes. */
    method IndexBranch(path: seq<Block>, ghost base: seq<Block>) returns (ok: bool)
      requires Objects() && StoreOk(db.disk, genesis) && HeightsAt(db.disk, base) && Continues(base, path)
      modifies db
      ensures db.disk.blocks == old(db.disk.blocks)
      ensures ok ==> db.disk.txs == old(db.disk.txs) + TxIndex(path)
      ensures ok ==> StoreOk(db.disk, genesis) && HeightsAt(db.disk, base + path)
      ensures ok ==> forall h :: h in db.disk.heights ==> h in old(db.disk.heights) || h < |base| + |path|
    {
      hide *;
      ObjectFacts();
      ContinuesMeans(base, path);
      assert base + path[..0] == base;
      NothingIndexed(db.disk.heights, db.disk.txs);
      assert path[..0] == [];
      for j := 0 to |path|
        invariant db.disk.blocks == old(db.disk.blocks)
        invariant db.disk.txs == old(db.disk.txs) + TxIndex(path[..j])
        invariant StoreOk(db.disk, genesis) && HeightsAt(db.disk, base + path[..j])
        invariant forall h :: h in db.disk.heights ==> h in old(db.disk.heights) || h < |base| + j
      {
        ghost var before := db.disk;
        ContinuesFacts(base, path, j, old(db.disk));
        assert base + path[..j + 1] == base + path[..j] + [path[j]];
        ok := blocks.PutBlock(path[j]);
        if !ok {
          PutBlockKeepsBlocks(before, db.disk, path[j]);
          return;
        }
        IndexedFields(before, path[j]);
        IndexesStep(before.heights, old(db.disk.txs), path, j);
        SameStore(before, db.disk, genesis);
        HeightsGrow(rules, before, genesis, base + path[..j], path[j], db.disk);
      }
      assert path[..|path|] == path;
      ok := true;
    }

    /** The checks of rebuildReorg on a block of the branch. */
    method ValidateAgain(b: Block) returns (ok: bool)
      requires Objects()
      ensures ok ==> BlockOk(b) && SignerOf(engine.validators, b.header).Some? && SigningOk(engine.validators, db.disk, b.header)
      ensures ok ==> StateValid(rules, db.disk.utxos, supply, registered, b)
    {
      hide *;
      ObjectFacts();
      ok := ValidateBlock(b);
      if !ok {
        return;
      }
      ok := engine.VerifyHeader(utxos, b.header);
      if !ok {
        return;
      }
      ok := CheckSigningLimit(b.header);
      if !ok {
        return;
      }
      BlockHasTxs(b);
      var registrations := ValidateBlockState(rules, db.disk.utxos, supply, registered, b);
      ok := registrations.Some?;
    }

    /** How far a replay has come before height h. */
    ghost predicate ReplayedTo(target: seq<Block>, fork: nat, h: nat, supplySoFar: nat, cumSoFar: nat)
      requires fork < |target| && h <= |target|
      reads this, db
    {
      && Rebuilt(target[..h], supplySoFar, cumSoFar) && UndosDone(db.disk, target, h)
      && ChainOk(Uncapped(rules), genesis, ValidTo(target, fork, h)) && PassedStale(rules, target, fork, supply, h)
    }

    lemma ReplayedToIs(target: seq<Block>, fork: nat, h: nat, supplySoFar: nat, cumSoFar: nat)
      requires fork < |target| && h <= |target|
      ensures ReplayedTo(target, fork, h, supplySoFar, cumSoFar) <==>
              && Rebuilt(target[..h], supplySoFar, cumSoFar) && UndosDone(db.disk, target, h)
              && ChainOk(Uncapped(rules), genesis, ValidTo(target, fork, h)) && PassedStale(rules, target, fork, supply, h)
    {
    }

    /** One height of rebuildReorg's replay, but for the handlers: above the fork the block is validated
        again, against the supply from before the replay. */
    method ReplayHeight(h: nat, fork: nat, supplySoFar: nat, cumSoFar: nat, ghost target: seq<Block>, ghost sound: bool, ghost fixed: bool)
      returns (ok: bool, newSupply: nat, newCum: nat, spent: seq<Utxo>)
      requires Objects() && TxHashSound()
      requires h < |target| && fork < |target| && StoreOk(db.disk, genesis) && HeightsAt(db.disk, target) && Following(target, fork + 1) && Heighted(target)
      requires sound ==> Followable(rules, genesis, target, fork, supply) && ReplayedTo(target, fork, h, supplySoFar, cumSoFar)
      requires fixed ==> engine.validators == engine.genesisValidators && SignedChain(engine.genesisValidators, ValidTo(target, fork, h))
      modifies db, this`registered
      ensures Objects()
      ensures db.disk.blocks == old(db.disk.blocks) && db.disk.heights == old(db.disk.heights) && db.disk.txs == old(db.disk.txs)
      ensures StoreOk(db.disk, genesis) && HeightsAt(db.disk, target)
      ensures ok && sound ==> ReplayedTo(target, fork, h + 1, newSupply, newCum)
      ensures ok && sound ==> spent == UndoOf(target[..h] + [target[h]], h).spent && db.disk.utxos == Fold(target[..h + 1]).utxos && IndexesOk(db.disk)
      ensures ok && sound && h > fork ==> ChainOk(Uncapped(rules), genesis, target[..h]) && CanExtend(Uncapped(rules), target[..h], target[h])
      ensures ok && fixed ==> SignedChain(engine.genesisValidators, ValidTo(target, fork, h + 1))
    {
      hide *;
      newSupply, newCum, spent := supplySoFar, cumSoFar, [];
      ghost var before := db.disk;
      ghost var done := target[..h];
      ghost var lawful := Uncapped(rules);
      ObjectFacts();
      ValidToIs(target, fork, h);
      ReplayedToIs(target, fork, h, supplySoFar, cumSoFar);
      BlockAtHeight(db.disk, target, h);
      var b := db.disk.BlockAt(h).value;
      assert target[..h + 1] == done + [b];
      if sound {
        RebuiltMeans(done, supplySoFar, cumSoFar);
      }
      if h > fork {
        FollowingAt(target, fork + 1, h);
        ok := ValidateAgain(b);
        if !ok {
          return;
        }
        if sound {
          MakePassed(rules, target, supply, h);
          UncappedAcceptable(rules, done, supply, b);
          AcceptableReplayable(lawful, genesis, done, b);
        }
        if fixed {
          HeightsPrefix(db.disk, target, h);
          SignedGrows(engine.genesisValidators, db.disk, done, b);
        }
      } else if sound {
        assert target[..fork + 1][..h] == done && target[..fork + 1][h] == b;
        NextToReplay(lawful, genesis, target[..fork + 1], h);
      }
      ok, newSupply, newCum, spent := RebuildStep(b, supplySoFar, cumSoFar, sound, lawful, done);
      MakeObjects();
      SameStore(before, db.disk, genesis);
      SameHeightIndex(before, db.disk, target);
      if !ok {
        return;
      }
      if sound {
        UndosDoneGrow(genesis, before, db.disk, target, h);
        RebuiltMeans(target[..h + 1], newSupply, newCum);
        PassedGrows(rules, target, fork, supply, h);
        if h > fork {
          ChainFits(lawful, genesis, done);
          FollowableMeans(rules, genesis, target, fork, supply);
          ReplayFits(rules, genesis, target, fork, supply, h);
          AcceptedExtends(lawful, genesis, done, b);
        }
        ReplayedToIs(target, fork, h + 1, newSupply, newCum);
      }
    }

    /** ... and with the handlers, which run above the fork only. */
    method RebuildHeight(h: nat, fork: nat, supplySoFar: nat, cumSoFar: nat, ghost target: seq<Block>, ghost sound: bool, ghost fixed: bool, ghost staff: set<Bytes>)
      returns (ok: bool, newSupply: nat, newCum: nat)
      requires Objects() && TxHashSound()
      requires h < |target| && fork < |target| && StoreOk(db.disk, genesis) && HeightsAt(db.disk, target) && Following(target, fork + 1) && Heighted(target)
      requires sound ==> Followable(rules, genesis, target, fork, supply) && ReplayedTo(target, fork, h, supplySoFar, cumSoFar)
      requires sound && wired ==> Elements(engine.validators) == SetAfter(staff, Elements(engine.genesisValidators), engine.minStake, target, fork + 1, h)
      requires fixed ==> FixedSet(wired, engine.genesisValidators, db.disk) && (wired ==> sound)
      requires fixed ==> engine.validators == engine.genesisValidators && SignedChain(engine.genesisValidators, ValidTo(target, fork, h))
      modifies db, this`registered, engine`validators, engine`lastProduced
      ensures Objects()
      ensures db.disk.blocks == old(db.disk.blocks) && db.disk.heights == old(db.disk.heights) && db.disk.txs == old(db.disk.txs)
      ensures StoreOk(db.disk, genesis) && HeightsAt(db.disk, target)
      ensures ok && sound ==> ReplayedTo(target, fork, h + 1, newSupply, newCum)
      ensures ok && sound && wired ==> Elements(engine.validators) == SetAfter(staff, Elements(engine.genesisValidators), engine.minStake, target, fork + 1, h + 1)
      ensures fixed ==> FixedSet(wired, engine.genesisValidators, db.disk)
      ensures ok && fixed ==> engine.validators == engine.genesisValidators && SignedChain(engine.genesisValidators, ValidTo(target, fork, h + 1))
    {
      hide *;
      ghost var before := db.disk;
      var spent;
      ok, newSupply, newCum, spent := ReplayHeight(h, fork, supplySoFar, cumSoFar, target, sound, fixed);
      SameBlocksFixed(wired, engine.genesisValidators, before, db.disk);
      ObjectFacts();
      if !ok {
        return;
      }
      ghost var validators := Elements(engine.validators);
      SetAfterStep(staff, Elements(engine.genesisValidators), engine.minStake, target, fork + 1, h);
      if h > fork {
        BlockAtHeight(db.disk, target, h);
        var b := db.disk.BlockAt(h).value;
        KeyLengths(b.txs, spent);
        if fixed && wired {
          HeightsPrefix(db.disk, target, h + 1);
          assert target[..h] + [b] == target[..h + 1];
          FixedKeysOn(Uncapped(rules), genesis, engine.genesisValidators, db.disk, target[..h], b, spent);
        }
        if sound {
          SpentKeysAre(target, h, spent);
          ReplayedToIs(target, fork, h + 1, newSupply, newCum);
          RebuiltMeans(target[..h + 1], newSupply, newCum);
        }
        FireStakes(KeysOfTxs(b.txs));
        FireUnstakes(KeysOfUtxos(spent));
        if sound {
          MakeRebuilt(target[..h + 1], newSupply, newCum);
          ReplayedToIs(target, fork, h + 1, newSupply, newCum);
        }
        MakeObjects();
      }
    }

    /** The replay loop of rebuildReorg: every block from genesis, validated again above the fork. The
        cap is checked against the supply from before the replay, so what comes out is a chain that is
        valid but for the cap. */
    method ReplayFromGenesis(fork: nat, last: nat, ghost target: seq<Block>) returns (ok: bool, supplySoFar: nat, cumSoFar: nat)
      requires Objects() && TxHashSound()
      requires StoreOk(db.disk, genesis) && HeightsAt(db.disk, target) && last == |target| - 1 && fork < last
      requires ChainOk(rules, genesis, target[..fork + 1]) && Following(target, fork + 1)
      requires db.disk == db.disk.Rest()
      requires FixedSet(wired, engine.genesisValidators, db.disk) ==> engine.validators == engine.genesisValidators && SignedChain(engine.genesisValidators, target[..fork + 1])
      modifies db, this`registered, engine`validators, engine`lastProduced
      ensures Objects()
      ensures db.disk.blocks == old(db.disk.blocks) && db.disk.heights == old(db.disk.heights) && db.disk.txs == old(db.disk.txs)
      ensures StoreOk(db.disk, genesis) && HeightsAt(db.disk, target)
      ensures ok && Followable(rules, genesis, target, fork, supply) ==> ReplayedTo(target, fork, |target|, supplySoFar, cumSoFar)
      ensures ok && Followable(rules, genesis, target, fork, supply) && wired ==>
                Elements(engine.validators) == SetAfter(old(Elements(engine.validators)), Elements(engine.genesisValidators), engine.minStake, target, fork + 1, |target|)
      ensures ok && (!wired || Followable(rules, genesis, target, fork, supply)) && FixedSet(wired, engine.genesisValidators, db.disk) ==>
                engine.validators == engine.genesisValidators && SignedChain(engine.genesisValidators, target)
    {
      hide *;
      ghost var start := db.disk;
      ghost var staff := Elements(engine.validators);
      ghost var sound := Followable(rules, genesis, target, fork, supply);
      ghost var fixed := (!wired || sound) && FixedSet(wired, engine.genesisValidators, db.disk);
      supplySoFar, cumSoFar := 0, 0;
      ObjectFacts();
      registered := 0;
      TargetHeights(rules, genesis, target, fork + 1);
      UncappedChain(rules, genesis, target[..fork + 1]);
      assert target[..0] == [];
      NothingRebuilt(start, db.disk);
      MakeRebuilt([], 0, 0);
      NoUndosYet(db.disk, target);
      NonePassed(rules, target, fork, supply);
      UnwiredIsFixed(wired, engine.genesisValidators, db.disk);
      ValidToIs(target, fork, 0);
      SetAfterNone(staff, Elements(engine.genesisValidators), engine.minStake, target, fork + 1);
      ReplayedToIs(target, fork, 0, 0, 0);
      var h := 0;
      while h <= last
        invariant h <= |target|
        invariant utxos.db == db && blocks.db == db && engine.Valid()
        invariant db.disk.blocks == start.blocks && db.disk.heights == start.heights && db.disk.txs == start.txs
        invariant StoreOk(db.disk, genesis) && HeightsAt(db.disk, target)
        invariant sound ==> ReplayedTo(target, fork, h, supplySoFar, cumSoFar)
        invariant sound && wired ==> Elements(engine.validators) == SetAfter(staff, Elements(engine.genesisValidators), engine.minStake, target, fork + 1, h)
        invariant fixed ==> FixedSet(wired, engine.genesisValidators, db.disk)
        invariant fixed ==> engine.validators == engine.genesisValidators && SignedChain(engine.genesisValidators, ValidTo(target, fork, h))
      {
        MakeObjects();
        ok, supplySoFar, cumSoFar := RebuildHeight(h, fork, supplySoFar, cumSoFar, target, sound, fixed, staff);
        ObjectFacts();
        if !ok {
          return;
        }
        h := h + 1;
      }
      SameBlocksFixed(wired, engine.genesisValidators, start, db.disk);
      MakeObjects();
      ok := true;
    }

    /** What a rebuild leaves for `target`, in memory and on disk, whatever it minted. */
    ghost predicate Refilled(target: seq<Block>)
      reads this, db
    {
      && |target| > 0 && active == target && TipInMemory(target) && TipIs(db.disk, target) && db.disk.checkpoint.None?
      && StoreOk(db.disk, genesis) && HeightsAt(db.disk, target)
      && LedgerAt(db.disk, target) && UndosRight(db.disk, target) && UndosComplete(db.disk, target)
      && supply == CappedSupply(rules.maxSupply, target) == SupplyOf(db.disk) && cumDiff == Fold(target).cumDiff == CumDiffOf(db.disk)
      && registered == Fold(target).registered && genesisHash == genesis.Hash() && genesisHash != ZERO_HASH
    }

    /** What a rebuild started from `from` amounts to. It refills the ledger with the fold of the target,
        the supply cut down to the cap; that is the state of a valid chain exactly when no block of the
        branch mints more than its true supply allows, and the validators are in step with it exactly
        when the stakes follow. */
    ghost predicate AsRebuilt(from: seq<Block>, target: seq<Block>, fork: nat)
      reads this, db, engine
    {
      var stale := Fold(from).supply;
      fork < |target| && Followable(rules, genesis, target, fork, stale) ==>
        && Refilled(target) && ChainOk(Uncapped(rules), genesis, target)
        && (ChainOk(rules, genesis, target) <==> KeepsCap(rules, target, fork))
        && (SupplyCovers(rules, genesis, target, fork, stale) ==> KeepsCap(rules, target, fork))
        && (Staff(target) <==> Follows(from, target, fork))
        && (FixedSet(wired, engine.genesisValidators, db.disk) ==> Follows(from, target, fork))
        && (CapHarmless(rules, rules, genesis) ==>
              && (Ready(target) && Quiet(target) <==> KeepsCap(rules, target, fork))
              && (Core() <==> KeepsCap(rules, target, fork) && Follows(from, target, fork)))
    }

    ghost predicate Follows(from: seq<Block>, target: seq<Block>, fork: nat)
      requires fork < |target|
      reads this, db, engine
    {
      StakesFollow(wired, rules, engine.minStake, engine.genesisValidators, db.disk, Fold(from).utxos, target, fork + 1)
    }

    /** rebuildReorg: without the undo records of the old branch, index the new one and replay the
        whole chain. `from` is the chain the node stands on when it starts. */
    method RebuildReorg(path: seq<Block>, fork: nat, ghost base: seq<Block>, ghost from: seq<Block>) returns (ok: bool)
      requires Objects() && TxHashSound() && Ready(from) && Staff(from)
      requires ChainOk(rules, genesis, base) && HeightsAt(db.disk, base) && Continues(base, path) && |base| == fork + 1
      requires FixedSet(wired, engine.genesisValidators, db.disk) ==> SignedChain(engine.genesisValidators, base)
      requires genesisHash == genesis.Hash() && genesisHash != ZERO_HASH
      modifies db, this`height, this`tipHash, this`tipTimestamp, this`supply, this`cumDiff, this`registered, this`active,
               engine`validators, engine`lastProduced
      ensures Objects() && db.disk.blocks == old(db.disk.blocks)
      ensures ok ==> active == base + path
      ensures ok ==> db.disk.txs == old(db.disk.txs) + TxIndex(path)
      ensures ok ==> AsRebuilt(from, base + path, fork)
      ensures ok && (forall h :: h in old(db.disk.heights) ==> h < |base| + |path|) ==> HeightsExact(db.disk, active)
    {
      hide *;
      ghost var target := base + path;
      ghost var start := db.disk;
      ghost var staff := Elements(engine.validators);
      ContinuesMeans(base, path);
      ObjectFacts();
      LedgerFacts(from);
      StartFacts(from);
      UnstakeBranch(fork);
      ObjectFacts();
      ok := IndexBranch(path, base);
      if !ok {
        return;
      }
      ghost var indexed := db.disk;
      ok := utxos.ClearAll();
      RestFields(indexed, db.disk);
      if !ok {
        MakeObjects();
        return;
      }
      SameStore(indexed, db.disk, genesis);
      SameHeightIndex(indexed, db.disk, target);
      SameBlocksFixed(wired, engine.genesisValidators, start, db.disk);
      ClearedIsRest(indexed);
      MakeFollowing(base, path);
      assert target[..fork + 1] == base;
      LinkedHeights(path, |path| - 1);
      var tip := path[|path| - 1];
      MakeObjects();
      SameBlocksTracked(wired, rules, engine.minStake, start, db.disk);
      ok := Refill(tip, fork, target, from);
      if ok {
        HeightsNowExact(start, db.disk, target);
      }
    }

    /** The second half of rebuildReorg, on emptied outputs: the replay, and the tip. */
    method Refill(tip: Block, fork: nat, ghost target: seq<Block>, ghost from: seq<Block>) returns (ok: bool)
      requires Objects() && TxHashSound()
      requires StoreOk(db.disk, genesis) && HeightsAt(db.disk, target) && fork < |target| - 1 && tip == target[|target| - 1] && tip.header.height == |target| - 1
      requires ChainOk(rules, genesis, target[..fork + 1]) && Following(target, fork + 1)
      requires db.disk == db.disk.Rest() && supply == Fold(from).supply && genesisHash == genesis.Hash() && genesisHash != ZERO_HASH
      requires FixedSet(wired, engine.genesisValidators, db.disk) ==> engine.validators == engine.genesisValidators && SignedChain(engine.genesisValidators, target[..fork + 1])
      requires FixedSet(wired, engine.genesisValidators, db.disk) && wired ==> StakersAmong(Fold(from).utxos, engine.genesisValidators)
      requires Tracked(wired, rules, engine.minStake, db.disk) ==> Agrees(Elements(engine.validators), Elements(engine.genesisValidators), engine.minStake, Fold(from).utxos)
      modifies db, this`height, this`tipHash, this`tipTimestamp, this`supply, this`cumDiff, this`registered, this`active,
               engine`validators, engine`lastProduced
      ensures Objects()
      ensures db.disk.blocks == old(db.disk.blocks) && db.disk.heights == old(db.disk.heights) && db.disk.txs == old(db.disk.txs)
      ensures ok ==> active == target && AsRebuilt(from, target, fork)
    {
      hide *;
      ghost var start := db.disk;
      ghost var stale := supply;
      ghost var staff := Elements(engine.validators);
      var supplySoFar, cumSoFar;
      ok, supplySoFar, cumSoFar := ReplayFromGenesis(fork, tip.header.height, target);
      if !ok {
        return;
      }
      SameBlocksFixed(wired, engine.genesisValidators, start, db.disk);
      ghost var sound := Followable(rules, genesis, target, fork, stale);
      if sound {
        ReplayedToIs(target, fork, |target|, supplySoFar, cumSoFar);
        ValidToEnd(target, fork);
        ReplayValidExactlyWhen(rules, genesis, target, fork, stale);
      }
      ok := FinishRebuild(tip, supplySoFar, cumSoFar, target, sound);
      if ok {
        SameBlocksFixed(wired, engine.genesisValidators, start, db.disk);
        SameBlocksTracked(wired, rules, engine.minStake, start, db.disk);
        if sound {
          FinishedExactly(from, target, fork, staff);
        }
        MakeAsRebuilt(from, target, fork);
      }
    }

    /** The end of rebuildReorg: tip and totals in memory, then on disk, then the checkpoint. */
    method FinishRebuild(tip: Block, supplySoFar: nat, cumSoFar: nat, ghost target: seq<Block>, ghost sound: bool) returns (ok: bool)
      requires Objects() && |target| > 0 && tip == target[|target| - 1] && tip.header.height == |target| - 1
      requires StoreOk(db.disk, genesis) && HeightsAt(db.disk, target)
      requires genesisHash == genesis.Hash() && genesisHash != ZERO_HASH
      requires sound ==> ChainOk(Uncapped(rules), genesis, target) && Rebuilt(target, supplySoFar, cumSoFar) && UndosDone(db.disk, target, |target|)
      modifies db, this`height, this`tipHash, this`tipTimestamp, this`supply, this`cumDiff, this`active
      ensures Objects() && db.disk.blocks == old(db.disk.blocks) && db.disk.heights == old(db.disk.heights) && db.disk.txs == old(db.disk.txs)
      ensures ok ==> active == target
      ensures ok && sound ==> Refilled(target)
    {
      hide *;
      ghost var rebuilt := db.disk;
      ObjectFacts();
      if sound {
        RebuiltMeans(target, supplySoFar, cumSoFar);
      }
      tipHash, height, tipTimestamp := tip.Hash(), tip.header.height, tip.header.timestamp;
      supply, cumDiff := supplySoFar, cumSoFar;
      active := target;
      ok := blocks.SetTip(tipHash, height, supplySoFar);
      if ok {
        ok := blocks.SetCumulativeDifficulty(cumSoFar);
      }
      if ok {
        ok := blocks.DeleteReorgCheckpoint();
      }
      MakeObjects();
      if ok && sound {
        MakeRefilled(rebuilt, target);
      }
    }

    lemma MakeRefilled(rebuilt: Disk, target: seq<Block>)
      requires |target| > 0 && active == target
      requires StoreOk(rebuilt, genesis) && HeightsAt(rebuilt, target) && ChainOk(Uncapped(rules), genesis, target) && UndosDone(rebuilt, target, |target|)
      requires rebuilt.utxos == Fold(target).utxos && IndexesOk(rebuilt)
      requires supply == CappedSupply(rules.maxSupply, target) && cumDiff == Fold(target).cumDiff && registered == Fold(target).registered
      requires db.disk == rebuilt.(tip := Some(target[|target| - 1].Hash()), height := Some(|target| - 1), supply := Some(supply), cumDiff := Some(cumDiff), checkpoint := None)
      requires height == |target| - 1 && tipHash == target[|target| - 1].Hash() && tipTimestamp == target[|target| - 1].header.timestamp
      requires genesisHash == genesis.Hash() && genesisHash != ZERO_HASH
      ensures Refilled(target)
    {
      hide StoreOk, HeightsAt, IndexesOk, Fold, CappedSupply, ChainOk, UndosDone, UndosRight, UndosComplete;
      RebuiltRegions(genesis, rebuilt, db.disk, target);
    }

    lemma RefilledMeans(target: seq<Block>)
      requires Refilled(target)
      ensures |target| > 0 && active == target && StoreOk(db.disk, genesis) && HeightsAt(db.disk, target)
      ensures supply == CappedSupply(rules.maxSupply, target)
      ensures ChainOk(rules, genesis, target) && supply == Fold(target).supply ==> Ready(target)
      ensures supply == Fold(target).supply && Fits(Fold(target)) ==> Quiet(target)
      ensures Ready(target) ==> ChainOk(rules, genesis, target)
      ensures UndosComplete(db.disk, target)
    {
      hide StoreOk, HeightsAt, IndexesOk, Fold, CappedSupply, ChainOk, UndosRight, UndosComplete, Fits;
    }

    /** What holds before a rebuild of the chain it starts from. */
    lemma StartFacts(from: seq<Block>)
      requires Ready(from) && Staff(from)
      ensures supply == Fold(from).supply && db.disk.utxos == Fold(from).utxos
      ensures Tracked(wired, rules, engine.minStake, db.disk) ==> Agrees(Elements(engine.validators), Elements(engine.genesisValidators), engine.minStake, Fold(from).utxos)
      ensures Tracked(wired, rules, engine.minStake, db.disk) ==> InStep(db.disk.utxos)
      ensures FixedSet(wired, engine.genesisValidators, db.disk) ==> engine.validators == engine.genesisValidators
      ensures FixedSet(wired, engine.genesisValidators, db.disk) && wired ==> StakersAmong(Fold(from).utxos, engine.genesisValidators)
    {
      hide StoreOk, ChainOk, HeightsAt, UndosRight, IndexesOk, Fold, Agrees, SignedChain, FixedSet, StakersAmong, Tracked;
      StaffIs(wired, rules, engine.minStake, engine.genesisValidators, engine.validators, db.disk, from);
      if FixedSet(wired, engine.genesisValidators, db.disk) && wired {
        FixedBlocks(engine.genesisValidators, genesis, db.disk, from);
        ChainStakersAmong(rules, genesis, from, engine.genesisValidators);
      }
    }

    lemma FinishedExactly(from: seq<Block>, target: seq<Block>, fork: nat, staff: set<Bytes>)
      requires Objects() && TxHashSound() && Refilled(target) && fork < |target|
      requires ChainOk(Uncapped(rules), genesis, target) && (ChainOk(rules, genesis, target) <==> KeepsCap(rules, target, fork))
      requires Tracked(wired, rules, engine.minStake, db.disk) ==> Agrees(staff, Elements(engine.genesisValidators), engine.minStake, Fold(from).utxos)
      requires wired ==> Elements(engine.validators) == SetAfter(staff, Elements(engine.genesisValidators), engine.minStake, target, fork + 1, |target|)
      requires FixedSet(wired, engine.genesisValidators, db.disk) ==> engine.validators == engine.genesisValidators && SignedChain(engine.genesisValidators, target)
      requires FixedSet(wired, engine.genesisValidators, db.disk) && wired ==> StakersAmong(Fold(from).utxos, engine.genesisValidators)
      ensures Staff(target) <==> Follows(from, target, fork)
      ensures FixedSet(wired, engine.genesisValidators, db.disk) ==> Follows(from, target, fork)
      ensures CapHarmless(rules, rules, genesis) ==> (Ready(target) && Quiet(target) <==> KeepsCap(rules, target, fork))
      ensures CapHarmless(rules, rules, genesis) ==> (Core() <==> KeepsCap(rules, target, fork) && Follows(from, target, fork))
    {
      hide *;
      RefilledMeans(target);
      StaffFacts(target);
      FollowsIs(from, target, fork);
      CoreIs();
      StaffAfterRebuild(wired, rules, Uncapped(rules), genesis, engine.minStake, engine.genesisValidators, engine.validators, staff, db.disk, Fold(from).utxos, target, fork + 1);
      if FixedSet(wired, engine.genesisValidators, db.disk) {
        FixedFollows(wired, rules, Uncapped(rules), genesis, engine.minStake, engine.genesisValidators, db.disk, Fold(from).utxos, target, fork + 1);
      }
      if CapHarmless(rules, rules, genesis) && KeepsCap(rules, target, fork) {
        HarmlessSupply(rules, rules, genesis, target);
        ChainFits(rules, genesis, target);
      }
    }

    lemma FollowsIs(from: seq<Block>, target: seq<Block>, fork: nat)
      requires fork < |target|
      ensures Follows(from, target, fork) <==> StakesFollow(wired, rules, engine.minStake, engine.genesisValidators, db.disk, Fold(from).utxos, target, fork + 1)
      ensures Uncapped(rules).validatorStake == rules.validatorStake
    {
    }

    lemma CoreIs()
      requires Objects()
      ensures Core() <==> Ready(active) && Staff(active) && Quiet(active)
    {
    }

    /** Without a cap a rebuild always ends on a valid chain, and without handlers in step with it. */
    lemma UncappedRebuilt(from: seq<Block>, target: seq<Block>, fork: nat)
      requires rules.maxSupply == 0 && fork < |target| && AsRebuilt(from, target, fork)
      ensures Ready(target) && Quiet(target) && UndosComplete(db.disk, target)
      ensures !wired ==> Core()
    {
      hide *;
      UncappedCovers(rules, genesis, target, fork, Fold(from).supply);
      FollowableMeans(rules, genesis, target, fork, Fold(from).supply);
      AsRebuiltMeans(from, target, fork);
      UncappedHarmless(rules, genesis);
      RefilledMeans(target);
      UnwiredIsFixed(wired, engine.genesisValidators, db.disk);
    }

    lemma AsRebuiltMeans(from: seq<Block>, target: seq<Block>, fork: nat)
      requires fork < |target| && AsRebuilt(from, target, fork) && Followable(rules, genesis, target, fork, Fold(from).supply)
      ensures Refilled(target) && ChainOk(Uncapped(rules), genesis, target)
      ensures ChainOk(rules, genesis, target) <==> KeepsCap(rules, target, fork)
      ensures SupplyCovers(rules, genesis, target, fork, Fold(from).supply) ==> KeepsCap(rules, target, fork)
      ensures Staff(target) <==> Follows(from, target, fork)
      ensures FixedSet(wired, engine.genesisValidators, db.disk) ==> Follows(from, target, fork)
      ensures CapHarmless(rules, rules, genesis) ==>
                && (Ready(target) && Quiet(target) <==> KeepsCap(rules, target, fork))
                && (Core() <==> KeepsCap(rules, target, fork) && Follows(from, target, fork))
    {
    }

    lemma MakeAsRebuilt(from: seq<Block>, target: seq<Block>, fork: nat)
      requires fork < |target| && Followable(rules, genesis, target, fork, Fold(from).supply) ==>
                 && Refilled(target) && ChainOk(Uncapped(rules), genesis, target)
                 && (ChainOk(rules, genesis, target) <==> KeepsCap(rules, target, fork))
                 && (SupplyCovers(rules, genesis, target, fork, Fold(from).supply) ==> KeepsCap(rules, target, fork))
                 && (Staff(target) <==> Follows(from, target, fork))
                 && (FixedSet(wired, engine.genesisValidators, db.disk) ==> Follows(from, target, fork))
                 && (CapHarmless(rules, rules, genesis) ==>
                       && (Ready(target) && Quiet(target) <==> KeepsCap(rules, target, fork))
                       && (Core() <==> KeepsCap(rules, target, fork) && Follows(from, target, fork)))
      ensures AsRebuilt(from, target, fork)
    {
    }

    // -------------------------------------------------------------- processing a block

    /** What every new block must satisfy, wherever it attaches. */
    ghost predicate Sound(b: Block, now: nat)
      reads this, db, engine
    {
      && engine.blockTime > 0 && b.Hash() !in db.disk.blocks
      && BlockOk(b) && engine.HeaderOk(db.disk, b.header)
      && b.header.timestamp <= now + MAX_DRIFT
    }

    /** A block that extends the tip. */
    ghost predicate Extends(b: Block, now: nat)
      reads this, db, engine
    {
      && |active| > 0 && Sound(b, now) && b.header.timestamp >= active[|active| - 1].header.timestamp
      && SigningOk(engine.validators, db.disk, b.header)
      && CanExtend(rules, active, b)
    }

    /** A block that hangs on another stored block. */
    ghost predicate Forks(b: Block, now: nat)
      reads this, db, engine
    {
      && Sound(b, now)
      && b.header.prevHash != tipHash && ParentIn(db.disk, b)
      && b.header.timestamp >= db.disk.blocks[b.header.prevHash].header.timestamp
    }

    /** What a rejection says is true of the block. */
    ghost predicate Justified(why: Rejection, b: Block, now: nat)
      reads this, db, engine
    {
      var parent := b.header.prevHash;
      match why
      case Known => b.Hash() in db.disk.blocks
      case UnknownParent => parent !in db.disk.blocks
      case WrongHeight => if parent == tipHash then b.header.height != height + 1 else !ParentIn(db.disk, b)
      case BadBlock => !BlockOk(b)
      case BadHeader => engine.blockTime > 0 ==> !engine.HeaderOk(db.disk, b.header)
      case FromFuture => b.header.timestamp > now + MAX_DRIFT
      case BeforeParent => parent in db.disk.blocks && b.header.timestamp < db.disk.blocks[parent].header.timestamp
      case SigningLimit => !SigningOk(engine.validators, db.disk, b.header)
      case BadState => !CanExtend(rules, active, b)
      case NotStored => Forks(b, now)
    }

    /** How far connecting `b` on the fast path comes with `writes` writes before `before` can take no
        more. With none left nothing changes; with too few for the outputs and the batch the database
        is lost; otherwise the block is committed. */
    ghost predicate HowFar(before: Disk, writes: nat, chain: seq<Block>, b: Block, r: Processed)
      requires |chain| > 0
      reads this, db
    {
      var needed := BlockWrites(before.utxos, b.txs, b.header.height);
      && (r.Halted? <==> writes <= needed || Fold(chain).registered + Registrations(b) > MAX_U64)
      && (writes <= needed ==> db.writesLeft == 0 && db.disk.Rest() == before.Rest())
      && (writes == 0 ==> db.disk == before)
      && (0 < writes <= needed ==> Lost(rules, genesis, db.disk))
      && (writes > needed ==> HeightsAt(db.disk, chain + [b]) && TipIs(db.disk, chain + [b]))
    }

    /** Calls after which the node can go on. */
    predicate Standing(r: Processed) {
      !r.Halted? && (r.Forked? ==> r.result.Kept? || r.result.NoBranch? || r.result.NotStarted? || r.result.Switched?)
    }

    /** ProcessBlock. `now` is the clock; coinbases are taken to carry their height, as the miner
        makes them. */
    method ProcessBlock(b: Block, now: nat) returns (r: Processed, ghost persisted: seq<Block>)
      requires Core() && TxHashSound() && Tagged(b)
      modifies db, this`height, this`tipHash, this`tipTimestamp, this`supply, this`cumDiff, this`registered, this`active,
               engine`validators, engine`lastProduced
      ensures Objects() && db.disk.blocks in {old(db.disk.blocks), old(db.disk.blocks)[b.Hash() := b]}
      ensures r.Rejected? ==> Core() && active == old(active) && db.disk == old(db.disk) && old(Justified(r.why, b, now))
      ensures r.Rejected? && !r.why.NotStored? ==> !old(Extends(b, now)) && !old(Forks(b, now))
      ensures r == Rejected(NotStored) ==> db.writesLeft == 0
      ensures r.Extended? ==> old(Extends(b, now)) && Core() && active == old(active) + [b]
      ensures r.Extended? || r.Halted? ==> old(Extends(b, now)) && HowFar(old(db.disk), old(db.writesLeft), old(active), b, r)
      ensures r.SideBlock? || r.Forked? ==> old(Forks(b, now)) && (r.SideBlock? <==> b.header.height < old(height))
      ensures r.SideBlock? ==> Core() && active == old(active) && db.disk == WithBlock(old(db.disk), b)
      ensures r.Forked? && (r.result.Kept? || r.result.NoBranch? || r.result.NotStarted?) ==>
                Core() && active == old(active) && db.disk == WithBlock(old(db.disk), b)
      ensures r.Forked? && r.result.Switched? ==> Core() && |active| >= |old(active)|
      ensures r.Extended? || (r.Forked? && r.result.Switched?) ==> Fold(active).cumDiff > Fold(old(active)).cumDiff
      ensures r.Forked? ==> AfterFork(WithBlock(old(db.disk), b), old(active), b.Hash(), r.result, persisted)
      ensures r.Forked? && old(HeightsExact(db.disk, active)) ==> !r.result.Misled?
      ensures r.Forked? && r.result.NotStarted? ==> db.writesLeft == 0
      ensures old(Valid()) && Standing(r) ==> Valid()
      ensures old(Complete(active)) && (r.Extended? || r.SideBlock? || (r.Forked? && !r.result.Interrupted? && !r.result.Misled?)) ==> Complete(active)
      ensures old(UndosComplete(db.disk, active)) && (r.Extended? || r.SideBlock? || (r.Forked? && !r.result.Interrupted? && !r.result.Misled?)) ==> UndosComplete(db.disk, active)
      ensures old(UndosComplete(db.disk, active)) && r.Forked? ==> !r.result.Replayed? && !r.result.ReplayStopped?
    {
      hide *;
      persisted := active;
      CoreFacts();
      ValidFacts();
      StandingIs();
      ObjectFacts();
      EngineFacts();
      JustifiedIs(b, now);
      if b.Hash() in db.disk.blocks {
        NotSound(b, now);
        return Rejected(Known), persisted;
      }
      Initialised();
      LedgerFacts(active);
      ParentInIs(db.disk, b);
      // checkParentLink
      if height == 0 && tipHash == ZERO_HASH {
        assert false;
      }
      var fork := b.header.prevHash != tipHash;
      if !fork && b.header.height != height + 1 {
        NotHere(b, now);
        return Rejected(WrongHeight), persisted;
      }
      if fork && b.header.prevHash !in db.disk.blocks {
        NotHere(b, now);
        return Rejected(UnknownParent), persisted;
      }
      if fork && b.header.height != db.disk.blocks[b.header.prevHash].header.height + 1 {
        NotHere(b, now);
        return Rejected(WrongHeight), persisted;
      }
      // the structural and consensus validators
      var structural := ValidateBlock(b);
      if !structural {
        NotSound(b, now);
        return Rejected(BadBlock), persisted;
      }
      var authorised := engine.VerifyHeader(utxos, b.header);
      if !authorised {
        NotSound(b, now);
        return Rejected(BadHeader), persisted;
      }
      // timestamps
      if b.header.timestamp > now + MAX_DRIFT {
        NotSound(b, now);
        return Rejected(FromFuture), persisted;
      }
      TipStored();
      if b.header.height > 0 && b.header.prevHash in db.disk.blocks && b.header.timestamp < db.disk.blocks[b.header.prevHash].header.timestamp {
        NotAfter(b, now);
        return Rejected(BeforeParent), persisted;
      }
      MakeSound(b, now);
      if fork {
        r, persisted := ProcessFork(b, now);
      } else {
        r := ProcessNext(b, now);
      }
    }

    /** The fast path of ProcessBlock. */
    method ProcessNext(b: Block, now: nat) returns (r: Processed)
      requires Core() && TxHashSound() && Tagged(b)
      requires Sound(b, now) && 1 <= b.header.difficulty <= 2
      requires b.header.prevHash == tipHash && b.header.height == height + 1 && b.header.timestamp >= tipTimestamp
      modifies db, this`height, this`tipHash, this`tipTimestamp, this`supply, this`cumDiff, this`registered, this`active,
               engine`validators, engine`lastProduced
      ensures Objects() && |old(active)| > 0 && db.disk.blocks in {old(db.disk.blocks), old(db.disk.blocks)[b.Hash() := b]}
      ensures r.Extended? || r.Halted? || r == Rejected(SigningLimit) || r == Rejected(BadState)
      ensures r.Rejected? ==> Core() && active == old(active) && db.disk == old(db.disk) && !old(Extends(b, now)) && !old(Forks(b, now)) && old(Justified(r.why, b, now))
      ensures r.Extended? ==> Core() && active == old(active) + [b] && Fold(active).cumDiff > Fold(old(active)).cumDiff
      ensures r.Extended? || r.Halted? ==> old(Extends(b, now)) && HowFar(old(db.disk), old(db.writesLeft), old(active), b, r)
      ensures (r.Rejected? || r.Extended?) && old(Valid()) ==> Valid()
      ensures r.Extended? && old(Complete(active)) ==> Complete(active)
      ensures r.Extended? && old(UndosComplete(db.disk, active)) ==> UndosComplete(db.disk, active)
    {
      hide *;
      ghost var chain := active;
      ghost var start := db.disk;
      ghost var writes := db.writesLeft;
      ghost var needed := BlockWrites(start.utxos, b.txs, b.header.height);
      CoreFacts();
      ValidFacts();
      ObjectFacts();
      EngineFacts();
      SoundMeans(b, now);
      ExtendsMeans(b, now);
      JustifiedIs(b, now);
      CompleteIs(chain);
      var allowed := CheckSigningLimit(b.header);
      if !allowed {
        return Rejected(SigningLimit);
      }
      MakeCandidate(chain, b);
      MakeDiskAt(chain);
      var step := Attach(b, chain);
      if step.Refused? {
        StillCore(start, chain);
        ValidFacts();
        return Rejected(BadState);
      }
      if step.Broken? {
        if writes <= needed {
          FastPathUnprotected(rules, genesis, start, chain, db.disk, writes, b);
        }
        StoppedMeans(rules, genesis, start, db.disk, writes, chain, b);
        HowFarIs(start, writes, chain, b, Halted);
        return Halted;
      }
      MoveTip(b, chain, start);
      CoreFacts();
      ValidFacts();
      HowFarIs(start, writes, chain, b, Extended);
      FoldStep(chain, b);
      AdvanceWork(Fold(chain), b);
      return Extended;
    }

    /** The end of the fast path: the tip in memory. */
    method MoveTip(b: Block, ghost chain: seq<Block>, ghost start: Disk)
      requires Objects() && Ready(chain + [b]) && Staff(chain + [b]) && TipIs(db.disk, chain + [b]) && TotalsAt(db.disk, chain + [b])
      requires CanExtend(rules, chain, b) && b.header.height == |chain|
      requires db.disk.heights == start.heights[|chain| := b.Hash()] && db.disk.checkpoint.None?
      requires genesisHash == genesis.Hash() && genesisHash != ZERO_HASH
      modifies this`height, this`tipHash, this`tipTimestamp, this`active
      ensures Objects() && Core() && active == chain + [b]
      ensures HeightsExact(start, chain) ==> HeightsExact(db.disk, chain + [b])
      ensures Complete(active) <==> UndosComplete(db.disk, chain + [b]) && db.disk.txs == TxIndex(chain + [b])
    {
      hide *;
      ghost var target := chain + [b];
      TargetFacts(target);
      ObjectFacts();
      ExtensionFits(rules, chain, b);
      ghost var committed := db.disk;
      tipHash, height, tipTimestamp := b.Hash(), b.header.height, b.header.timestamp;
      active := target;
      MakeObjects();
      assert committed == committed.(checkpoint := committed.checkpoint);
      CheckpointOnly(committed, target);
      OneMoreHeight(start, committed, chain, b);
      MakeCore();
      CompleteIs(target);
    }

    /** The fork branch of ProcessBlock: store the block, and switch to it if that pays. */
    method ProcessFork(b: Block, now: nat) returns (r: Processed, ghost persisted: seq<Block>)
      requires Core() && TxHashSound() && Tagged(b)
      requires Sound(b, now) && 1 <= b.header.difficulty <= 2
      requires b.header.prevHash != tipHash && ParentIn(db.disk, b)
      requires b.header.timestamp >= db.disk.blocks[b.header.prevHash].header.timestamp
      modifies db, this`height, this`tipHash, this`tipTimestamp, this`supply, this`cumDiff, this`registered, this`active,
               engine`validators, engine`lastProduced
      ensures Objects() && db.disk.blocks in {old(db.disk.blocks), old(db.disk.blocks)[b.Hash() := b]}
      ensures r == Rejected(NotStored) || r.SideBlock? || r.Forked?
      ensures old(Forks(b, now)) && (r.SideBlock? ==> b.header.height < old(height)) && (r.Forked? ==> b.header.height >= old(height))
      ensures r.Rejected? ==> Core() && active == old(active) && db.disk == old(db.disk) && db.writesLeft == 0
      ensures r.SideBlock? || (r.Forked? && (r.result.Kept? || r.result.NoBranch? || r.result.NotStarted?)) ==>
                Core() && active == old(active) && db.disk == WithBlock(old(db.disk), b)
      ensures r.Forked? && r.result.Switched? ==> Core() && |active| >= |old(active)| && Fold(active).cumDiff > Fold(old(active)).cumDiff
      ensures r.Forked? ==> AfterFork(WithBlock(old(db.disk), b), old(active), b.Hash(), r.result, persisted)
      ensures r.Forked? && old(HeightsExact(db.disk, active)) ==> !r.result.Misled?
      ensures r.Forked? && r.result.NotStarted? ==> db.writesLeft == 0
      ensures old(Valid()) && Standing(r) ==> Valid()
      ensures old(Complete(active)) && (r.SideBlock? || (r.Forked? && !r.result.Interrupted? && !r.result.Misled?)) ==> Complete(active)
      ensures old(UndosComplete(db.disk, active)) && (r.SideBlock? || (r.Forked? && !r.result.Interrupted? && !r.result.Misled?)) ==> UndosComplete(db.disk, active)
      ensures old(UndosComplete(db.disk, active)) && r.Forked? ==> !r.result.Replayed? && !r.result.ReplayStopped?
    {
      hide *;
      persisted := active;
      ghost var chain := active;
      ghost var start := db.disk;
      CoreFacts();
      ValidFacts();
      StandingIs();
      ObjectFacts();
      EngineFacts();
      SoundMeans(b, now);
      MakeForks(b, now);
      CompleteIs(chain);
      var ok := blocks.StoreBlock(b);
      if !ok {
        StillCore(start, chain);
        ValidFacts();
        return Rejected(NotStored), persisted;
      }
      WithBlockIs(start, b);
      StoredBlockKeeps(start, b);
      CompleteIs(chain);
      ValidFacts();
      if b.header.height < height {
        return SideBlock, persisted;
      }
      ghost var stored := db.disk;
      ghost var path := Path(stored, genesis, chain, b.Hash());
      BranchFacts(b.Hash(), path);
      SwitchIs(chain, path);
      if HeightsExact(stored, chain) {
        ExactIsClear(stored, genesis, chain, b.Hash());
      }
      var result;
      result, persisted := Reorg(b.Hash());
      if !result.NoBranch? {
        if Clear(stored, genesis, chain, b.Hash()) {
          AfterSwitchIs(stored, chain, b.Hash(), result, persisted);
        } else {
          AstrayResults(stored, chain, b.Hash(), result);
        }
      }
      AfterForkIs(stored, chain, b.Hash(), result, persisted);
      CompleteIs(active);
      ValidFacts();
      return Forked(result), persisted;
    }

    // -------------------------------------------------------------- the miner's question

    /** IsSigningLimitReached: true exactly when the next block signed by `pubKey` would be refused. */
    method IsSigningLimitReached(pubKey: Bytes) returns (r: bool)
      requires Core()
      ensures r <==> SignedRecently(engine.validators, db.disk, height + 1, pubKey)
      ensures r <==> |engine.validators| > 1 &&
                     exists k: nat :: 1 <= k <= height < k + |engine.validators| / 2 &&
                       db.disk.BlockAt(k).Some? && SignerOf(engine.validators, db.disk.BlockAt(k).value.header) == Some(pubKey)
      ensures forall header: Header :: header.height == height + 1 && SignerOf(engine.validators, header) == Some(pubKey) ==>
                (r <==> !SigningOk(engine.validators, db.disk, header))
    {
      hide Ready, Staff, Quiet, Core, Valid, Objects, StoreOk, ChainOk, HeightsAt, HeightsExact, UndosRight, IndexesOk, SignedRecently, SigningOk,
           StaffOk, LedgerAt, TotalsAt, TipIs, Fits, Fold, SignerOf;
      CoreFacts();
      SignedRecentlyIs(engine.validators, db.disk, height + 1, pubKey);
      GenesisUnsigned(rules, genesis, db.disk, active);
      forall header: Header | header.height == height + 1 && SignerOf(engine.validators, header) == Some(pubKey)
        ensures SignedRecently(engine.validators, db.disk, height + 1, pubKey) <==> !SigningOk(engine.validators, db.disk, header)
      {
        RecentSignerIsRefused(engine.validators, db.disk, header, pubKey);
      }
      var limit := engine.SigningLimit();
      if limit == 0 {
        NoWindow(engine.validators, db.disk, height + 1, pubKey);
        return false;
      }
      var i := 0;
      while i < limit - 1
        invariant 0 <= i
        invariant forall k: nat :: 1 <= k < height + 1 && height - k < i ==> OtherSigner(engine.validators, db.disk, k, Some(pubKey))
      {
        if height < i + 1 {
          break;
        }
        var prev := db.disk.BlockAt(height - i);
        if prev.Some? {
          var prevSigner := engine.IdentifySigner(prev.value.header);
          if prevSigner == Some(pubKey) {
            SignedAt(engine.validators, db.disk, height + 1, pubKey, height - i);
            return true;
          }
        }
        i := i + 1;
      }
      NobodyRecently(engine.validators, db.disk, height + 1, pubKey);
      return false;
    }

    // -------------------------------------------------------------- genesis

    /** InitFromGenesis on a database that is empty, or that earlier calls have left without a tip: the state
        of the one-block chain. */
    method InitFromGenesis(alloc: seq<(Address, Uint64)>, timestamp: Uint64, consensus: Rules) returns (ok: bool)
      requires Objects()
      modifies db, this`rules, this`height, this`tipHash, this`tipTimestamp, this`supply, this`registered, this`genesisHash, this`genesis, this`active
      ensures Objects()
      ensures old(height != 0 || tipHash != ZERO_HASH) ==> !ok && db.disk == old(db.disk) && active == old(active) && rules == old(rules)
      ensures AllocSum(alloc) > MAX_U64 ==> !ok && db.disk == old(db.disk)
      ensures ok && Startable(old(db.disk), CreateGenesisBlock(alloc, timestamp)) && old(cumDiff) == 0 && engine.validators == engine.genesisValidators && CreateGenesisBlock(alloc, timestamp).Hash() != ZERO_HASH ==>
                Valid() && Complete(active) && genesis == CreateGenesisBlock(alloc, timestamp) && active == [genesis] && rules == consensus && supply == AllocSum(alloc)
      ensures !ok && old(height == 0 && tipHash == ZERO_HASH) ==> AllocSum(alloc) > MAX_U64 || db.writesLeft == 0
      ensures !ok && Startable(old(db.disk), CreateGenesisBlock(alloc, timestamp)) ==> GenesisCut(consensus, CreateGenesisBlock(alloc, timestamp), db.disk, AllocSum(alloc))
      ensures ok && Startable(old(db.disk), CreateGenesisBlock(alloc, timestamp)) ==> db.disk.blocks == map[CreateGenesisBlock(alloc, timestamp).Hash() := CreateGenesisBlock(alloc, timestamp)]
    {
      hide *;
      if Startable(db.disk, CreateGenesisBlock(alloc, timestamp)) {
        NotBegun(consensus, CreateGenesisBlock(alloc, timestamp), db.disk, AllocSum(alloc));
        StartableIs(db.disk, CreateGenesisBlock(alloc, timestamp));
      }
      if height != 0 || tipHash != ZERO_HASH {
        return false;
      }
      var total := SumAlloc(alloc);
      if total.None? {
        return false;
      }
      GenesisFacts(alloc, timestamp);
      ok := WriteGenesis(CreateGenesisBlock(alloc, timestamp), total.value, consensus);
    }

    /** The writing half of InitFromGenesis. */
    method WriteGenesis(b: Block, total: Uint64, consensus: Rules) returns (ok: bool)
      requires Objects() && GenesisOk(b) && Fold([b]) == State(ApplyBlock(map[], b), total, 0, 0)
      requires (forall t :: t in b.txs ==> Spends(t) == {}) && Snapshot(map[], b.txs)
      modifies db, this`rules, this`height, this`tipHash, this`tipTimestamp, this`supply, this`registered, this`genesisHash, this`genesis, this`active
      ensures Objects()
      ensures ok && Startable(old(db.disk), b) && old(cumDiff) == 0 && engine.validators == engine.genesisValidators && b.Hash() != ZERO_HASH ==>
                Valid() && Complete(active) && genesis == b && active == [b] && rules == consensus && supply == total
      ensures !ok ==> db.writesLeft == 0
      ensures !ok && Startable(old(db.disk), b) ==> GenesisCut(consensus, b, db.disk, total)
      ensures ok ==> db.disk.blocks == old(db.disk.blocks)[b.Hash() := b]
    {
      hide *;
      ghost var start := db.disk;
      ok := StoreGenesis(b);
      ObjectFacts();
      if !ok {
        if Startable(start, b) {
          NotBegun(consensus, b, db.disk, total);
        }
        return;
      }
      if Startable(start, b) {
        PaidIs(b);
        FreshTip(GenesisPaid(b), b);
      }
      ok := FirstTip(b, total, consensus);
      if Startable(start, b) {
        if !ok {
          TipCut(consensus, b, db.disk, total);
        } else if cumDiff == 0 && engine.validators == engine.genesisValidators && b.Hash() != ZERO_HASH {
          FirstIsCore(GenesisPaid(b), total);
        }
      }
    }

    lemma PaidIs(g: Block)
      requires GenesisOk(g) && Snapshot(map[], g.txs)
      ensures GenesisPaid(g).utxos == ApplyBlock(map[], g) && IndexesOk(GenesisPaid(g)) && GenesisPaid(g).Rest() == EMPTY_DISK.Rest()
    {
      PaidOutputs(g);
    }

    /** The tip in memory and on disk. */
    method FirstTip(b: Block, total: Uint64, consensus: Rules) returns (ok: bool)
      requires Objects()
      modifies db, this`rules, this`height, this`tipHash, this`tipTimestamp, this`supply, this`registered, this`genesisHash, this`genesis, this`active
      ensures Objects() && rules == consensus && genesis == b && active == [b] && height == 0 && tipHash == genesisHash == b.Hash()
      ensures tipTimestamp == b.header.timestamp && supply == total && registered == 0
      ensures ok ==> db.disk == old(db.disk).(tip := Some(b.Hash()), height := Some(0), supply := Some(total))
      ensures db.disk == old(db.disk).(tip := db.disk.tip, height := db.disk.height, supply := db.disk.supply)
      ensures !ok ==> db.writesLeft == 0 && db.disk.supply == old(db.disk.supply)
      ensures db.disk.tip in {old(db.disk.tip), Some(b.Hash())} && db.disk.height in {old(db.disk.height), Some(0)}
      ensures db.disk.tip.None? ==> db.disk.height == old(db.disk.height)
    {
      hide *;
      ObjectFacts();
      height, tipHash, supply, tipTimestamp, genesisHash := 0, b.Hash(), total, b.header.timestamp, b.Hash();
      rules, registered := consensus, 0;
      genesis, active := b, [b];
      ok := blocks.SetTip(b.Hash(), 0, total);
      MakeObjects();
    }

    /** The outputs of the genesis block and the block itself, before the tip. */
    method StoreGenesis(b: Block) returns (ok: bool)
      requires Objects() && GenesisOk(b) && Snapshot(map[], b.txs)
      modifies db
      ensures Objects()
      ensures ok ==> db.disk.blocks == old(db.disk.blocks)[b.Hash() := b]
      ensures ok && Startable(old(db.disk), b) ==> db.disk == Indexed(GenesisPaid(b), b)
      ensures !ok ==> db.writesLeft == 0
      ensures !ok && Startable(old(db.disk), b) ==> Startable(db.disk, b)
    {
      hide *;
      ghost var start := db.disk;
      ObjectFacts();
      OneTransaction(b);
      PaidOutputs(b);
      if Startable(start, b) {
        StartableIs(start, b);
      }
      ok := ApplyUnvalidated(utxos, b, GenesisPaid(b));
      RestFields(start, db.disk);
      ghost var applied := db.disk;
      if Startable(start, b) {
        StillStartable(start, applied, b);
        if ok {
          FilledUp(applied, GenesisPaid(b), b.txs[0], 0, false, 0);
          StartedOver(start, applied, b);
        }
      }
      if ok {
        ok := blocks.PutBlock(b);
        IndexedFields(applied, b);
        if !ok && Startable(start, b) {
          StillStartableIndexed(applied, db.disk, b);
        }
      }
      MakeObjects();
    }

    /** SetTip stopped between its writes. */
    lemma TipCut(consensus: Rules, g: Block, d: Disk, total: nat)
      requires GenesisOk(g) && Fold([g]) == State(ApplyBlock(map[], g), total, 0, 0) && Snapshot(map[], g.txs)
      requires d == Indexed(GenesisPaid(g), g).(tip := d.tip, height := d.height, supply := d.supply)
      requires d.supply.None? && d.height in {None, Some(0)} && d.tip in {None, Some(g.Hash())} && (d.tip.None? ==> d.height.None?)
      ensures GenesisCut(consensus, g, d, total)
    {
      PaidIs(g);
      hide *;
      if d.tip.None? {
        FreshTip(GenesisPaid(g), g);
        SameTip(Indexed(GenesisPaid(g), g), d);
        PaidStartable(g);
        NotBegun(consensus, g, d, total);
      } else {
        FirstDisk(wired, consensus, g, GenesisPaid(g), d.(height := Some(0), supply := Some(total)), engine.minStake, engine.validators, total);
        CutIs(consensus, g, d, total);
      }
    }

    lemma SameTip(d: Disk, d': Disk)
      requires d' == d.(tip := d'.tip, height := d'.height, supply := d'.supply)
      requires d'.tip == d.tip && d'.height == d.height && d'.supply == d.supply
      ensures d' == d
    {
    }

    lemma FreshTip(applied: Disk, g: Block)
      requires applied.Rest() == EMPTY_DISK.Rest()
      ensures var d := Indexed(applied, g); d.tip.None? && d.height.None? && d.supply.None?
    {
      RestFields(EMPTY_DISK, applied);
    }

    /** The fields and the disk that WriteGenesis leaves are those of the one-block chain. */
    lemma FirstIsCore(applied: Disk, total: nat)
      requires Objects() && GenesisOk(genesis) && Fold([genesis]) == State(ApplyBlock(map[], genesis), total, 0, 0)
      requires applied.Rest() == EMPTY_DISK.Rest() && applied.utxos == ApplyBlock(map[], genesis) && IndexesOk(applied)
      requires db.disk == Indexed(applied, genesis).(tip := Some(genesis.Hash()), height := Some(0), supply := Some(total))
      requires active == [genesis] && height == 0 && tipHash == genesis.Hash() && tipTimestamp == genesis.header.timestamp
      requires supply == total && cumDiff == 0 && registered == 0 && genesisHash == genesis.Hash() && genesisHash != ZERO_HASH
      requires engine.validators == engine.genesisValidators
      ensures Valid() && Complete([genesis])
    {
      hide *;
      var chain := [genesis];
      FirstDisk(wired, rules, genesis, applied, db.disk, engine.minStake, engine.validators, total);
      MakeReady(chain);
      StaffFacts(chain);
      ChainFits(rules, genesis, chain);
      MakeCore();
      ValidFacts();
      CompleteIs(chain);
    }

    // -------------------------------------------------------------- starting up

    /** What New leaves in memory for `chain`: everything but the consensus rules. */
    ghost predicate Restored(chain: seq<Block>)
      requires |chain| > 0
      reads this
    {
      && rules == NO_RULES && active == chain
      && TipInMemory(chain) && TotalsInMemory(chain)
      && genesisHash == genesis.Hash()
    }

    /** New: read the state back from the database, and rebuild it if a reorganisation was cut short. */
    static method New(db: Database, utxos: Store, blocks: Blocks, engine: Engine, wired: bool,
                      ghost actual: Rules, ghost genesis: Block, ghost chain: seq<Block>) returns (r: Option<Node>)
      requires utxos.db == db && blocks.db == db && engine.Valid() && TxHashSound()
      requires DiskAt(actual, genesis, db.disk, chain) || Recoverable(actual, genesis, db.disk, chain)
      modifies db
      ensures r.Some? ==> fresh(r.value) && r.value.db == db && r.value.utxos == utxos && r.value.blocks == blocks
      ensures r.Some? ==> r.value.engine == engine && r.value.wired == wired && r.value.genesis == genesis
      ensures r.Some? ==> DiskAt(actual, genesis, db.disk, chain) && r.value.Restored(chain)
      ensures r.Some? && old(db.disk.checkpoint.Some?) ==> UndosComplete(db.disk, chain)
      ensures old(db.disk.checkpoint.None?) ==> db.disk == old(db.disk)
      ensures r.None? && old(db.disk.checkpoint.Some?) ==> Recoverable(actual, genesis, db.disk, chain)
      ensures r.Some? <==> Total(old(db.disk.utxos), IsRegistration) <= MAX_U64 &&
                           (old(db.disk.checkpoint.Some?) ==> old(db.writesLeft >= RebuildWrites(db.disk, chain)) && Fold(chain).registered <= MAX_U64)
      ensures r.None? && Fold(chain).registered <= MAX_U64 ==> OutputKeys(db.disk) <= MostKeys(old(db.disk), chain)
      ensures db.disk.heights == old(db.disk.heights) && db.disk.blocks == old(db.disk.blocks) && db.disk.txs == old(db.disk.txs)
    {
      hide *;
      DiskParts(actual, genesis, db.disk, chain);
      RebuildWritesAre(db.disk, chain);
      var registered := CountRegisteredSubChains(utxos);
      if registered.None? {
        return None;
      }
      var n := new Node.Load(db, utxos, blocks, engine, wired, registered.value, genesis, chain);
      LoadedTip(actual, genesis, db.disk, chain);
      if db.disk.checkpoint.Some? {
        n.MakeObjects();
        NoRulesHarmless(actual, genesis);
        var ok := n.RebuildUtxos(actual, chain);
        if !ok {
          return None;
        }
      } else {
        RegisteredIsCounted(actual, genesis, chain);
      }
      n.MakeRestored(chain);
      return Some(n);
    }

    lemma MakeRestored(chain: seq<Block>)
      requires |chain| > 0 && rules == NO_RULES && active == chain && genesisHash == genesis.Hash()
      requires height == |chain| - 1 && tipHash == chain[|chain| - 1].Hash() && tipTimestamp == chain[|chain| - 1].header.timestamp
      requires supply == Fold(chain).supply && cumDiff == Fold(chain).cumDiff && registered == Fold(chain).registered
      ensures Restored(chain)
    {
    }

    /** SetConsensusRules and SetTokenRules. */
    method SetRules(actual: Rules)
      modifies this`rules
      ensures rules == actual
    {
      rules := actual;
    }

    /** The recovery of staked validators on restart (internal/node/node.go). */
    method RecoverStaked()
      requires Objects()
      modifies engine`validators, engine`lastProduced
      ensures Objects()
      ensures !wired ==> engine.validators == old(engine.validators)
      ensures wired && IndexesOk(db.disk) ==>
                forall key :: key in engine.validators <==>
                  key in old(engine.validators) || (height > 0 && Listed(db.disk.utxos, key) && Staked(db.disk.utxos, key, engine.minStake))
      ensures IndexesOk(db.disk) && StakersAmong(db.disk.utxos, engine.genesisValidators) ==> engine.validators == old(engine.validators)
    {
      if !wired || height == 0 {
        return;
      }
      var keys := utxos.GetAllStakedValidators();
      assert IndexesOk(db.disk) ==> forall key :: key in keys <==> Listed(db.disk.utxos, key);
      for i := 0 to |keys|
        invariant Objects()
        invariant IndexesOk(db.disk) ==>
                    forall key :: key in engine.validators <==>
                      key in old(engine.validators) || (key in keys[..i] && Staked(db.disk.utxos, key, engine.minStake))
        invariant IndexesOk(db.disk) && StakersAmong(db.disk.utxos, engine.genesisValidators) ==> engine.validators == old(engine.validators)
      {
        ghost var before := engine.validators;
        var staked := utxos.HasStake(keys[i], engine.minStake);
        assert IndexesOk(db.disk) ==> Listed(db.disk.utxos, keys[i]);
        assert IndexesOk(db.disk) ==> (staked <==> Staked(db.disk.utxos, keys[i], engine.minStake));
        if staked {
          engine.AddValidator(keys[i]);
          ElementsHold(engine.validators, before, keys[i]);
        }
        assert keys[..i + 1] == keys[..i] + [keys[i]];
      }
      assert keys[..|keys|] == keys;
    }

    /** A node starting up on a database that holds `chain`, whether or not its last run was cut short
        in a reorganisation: New, the rules of the genesis file, and the staked validators. */
    static method Start(db: Database, utxos: Store, blocks: Blocks, engine: Engine, wired: bool, actual: Rules,
                        ghost genesis: Block, ghost chain: seq<Block>) returns (r: Option<Node>)
      requires utxos.db == db && blocks.db == db && engine.Valid() && TxHashSound()
      requires engine.validators == engine.genesisValidators && genesis.Hash() != ZERO_HASH
      requires DiskAt(actual, genesis, db.disk, chain) || Recoverable(actual, genesis, db.disk, chain)
      requires FixedSet(wired, engine.genesisValidators, db.disk) ==> SignedChain(engine.genesisValidators, chain)
      modifies db, engine`validators, engine`lastProduced
      ensures r.Some? ==> fresh(r.value) && r.value.Core() && r.value.active == chain && r.value.rules == actual
      ensures r.Some? ==> r.value.db == db && r.value.engine == engine && r.value.wired == wired && r.value.genesis == genesis
      ensures r.Some? && HeightsExact(old(db.disk), chain) ==> r.value.Valid()
      ensures r.Some? && old(db.disk.checkpoint.Some?) ==> UndosComplete(db.disk, chain)
      ensures r.None? ==> DiskAt(actual, genesis, db.disk, chain) || Recoverable(actual, genesis, db.disk, chain)
      ensures r.None? && old(db.disk.checkpoint.Some?) ==> Recoverable(actual, genesis, db.disk, chain)
      ensures r.Some? <==> Total(old(db.disk.utxos), IsRegistration) <= MAX_U64 &&
                           (old(db.disk.checkpoint.Some?) ==> old(db.writesLeft >= RebuildWrites(db.disk, chain)) && Fold(chain).registered <= MAX_U64)
      ensures r.None? && Fold(chain).registered <= MAX_U64 ==> OutputKeys(db.disk) <= MostKeys(old(db.disk), chain)
      ensures old(db.disk.checkpoint.None?) ==> db.disk == old(db.disk)
      ensures db.disk.heights == old(db.disk.heights) && db.disk.blocks == old(db.disk.blocks)
    {
      hide *;
      ghost var start := db.disk;
      DiskParts(actual, genesis, start, chain);
      r := New(db, utxos, blocks, engine, wired, actual, genesis, chain);
      if r.None? {
        return;
      }
      var n := r.value;
      n.MakeObjects();
      DiskParts(actual, genesis, db.disk, chain);
      n.RestoredMeans(chain);
      n.SetRules(actual);
      n.MakeObjects();
      SameBlocksFixed(wired, engine.genesisValidators, start, db.disk);
      if wired && FixedSet(wired, engine.genesisValidators, db.disk) {
        FixedBlocks(engine.genesisValidators, genesis, db.disk, chain);
        ChainStakersAmong(actual, genesis, chain, engine.genesisValidators);
      }
      n.RecoverStaked();
      StaffOnStart(wired, actual, genesis, engine.minStake, engine.genesisValidators, engine.validators, db.disk, chain);
      ChainFits(actual, genesis, chain);
      n.MakeReady(chain);
      n.StaffFacts(chain);
      SameHeights(start, db.disk, chain);
      n.MakeCore();
      n.ValidFacts();
    }

    lemma Initialised()
      requires |active| > 0 && ChainOk(rules, genesis, active) && height == |active| - 1 && tipHash == active[|active| - 1].Hash()
      requires genesisHash == genesis.Hash() && genesisHash != ZERO_HASH
      ensures height == 0 ==> tipHash != ZERO_HASH
    {
    }

    lemma EngineFacts()
      requires Objects()
      ensures engine.blockTime > 0
    {
    }

    lemma JustifiedIs(b: Block, now: nat)
      requires engine.blockTime > 0
      ensures Justified(Known, b, now) <==> b.Hash() in db.disk.blocks
      ensures Justified(UnknownParent, b, now) <==> b.header.prevHash !in db.disk.blocks
      ensures Justified(WrongHeight, b, now) <==> if b.header.prevHash == tipHash then b.header.height != height + 1 else !ParentIn(db.disk, b)
      ensures Justified(BadBlock, b, now) <==> !BlockOk(b)
      ensures Justified(BadHeader, b, now) <==> !engine.HeaderOk(db.disk, b.header)
      ensures Justified(FromFuture, b, now) <==> b.header.timestamp > now + MAX_DRIFT
      ensures Justified(BeforeParent, b, now) <==> b.header.prevHash in db.disk.blocks && b.header.timestamp < db.disk.blocks[b.header.prevHash].header.timestamp
      ensures Justified(SigningLimit, b, now) <==> !SigningOk(engine.validators, db.disk, b.header)
      ensures Justified(BadState, b, now) <==> !CanExtend(rules, active, b)
      ensures Justified(NotStored, b, now) <==> Forks(b, now)
    {
      hide BlockOk, SigningOk, CanExtend, Forks;
    }

    lemma SoundMeans(b: Block, now: nat)
      requires Sound(b, now)
      ensures b.Hash() !in db.disk.blocks && BlockOk(b) && SignerOf(engine.validators, b.header).Some?
      ensures Storable(db.disk, b)
    {
      hide BlockOk;
    }

    lemma MakeSound(b: Block, now: nat)
      requires engine.blockTime > 0 && b.Hash() !in db.disk.blocks && BlockOk(b) && engine.HeaderOk(db.disk, b.header) && b.header.timestamp <= now + MAX_DRIFT
      ensures Sound(b, now)
    {
      hide BlockOk;
    }

    lemma NotSound(b: Block, now: nat)
      requires engine.blockTime > 0 && |active| > 0
      requires b.Hash() in db.disk.blocks || !BlockOk(b) || !engine.HeaderOk(db.disk, b.header) || b.header.timestamp > now + MAX_DRIFT
      ensures !Extends(b, now) && !Forks(b, now)
    {
      hide BlockOk, CanExtend;
    }

    lemma NotHere(b: Block, now: nat)
      requires engine.blockTime > 0 && |active| > 0 && height == |active| - 1 && tipHash == active[|active| - 1].Hash()
      requires if b.header.prevHash == tipHash then b.header.height != height + 1 else !ParentIn(db.disk, b)
      ensures !Extends(b, now) && !Forks(b, now)
    {
      hide BlockOk, StateValid;
    }

    lemma NotAfter(b: Block, now: nat)
      requires engine.blockTime > 0 && |active| > 0
      requires tipHash == active[|active| - 1].Hash() && tipHash in db.disk.blocks && db.disk.blocks[tipHash] == active[|active| - 1]
      requires b.header.prevHash in db.disk.blocks && b.header.timestamp < db.disk.blocks[b.header.prevHash].header.timestamp
      ensures !Extends(b, now) && !Forks(b, now)
    {
      hide BlockOk, StateValid, SigningOk;
    }

    lemma ExtendsMeans(b: Block, now: nat)
      requires |active| > 0 && Sound(b, now) && tipTimestamp == active[|active| - 1].header.timestamp
      requires b.header.prevHash == tipHash && b.header.timestamp >= tipTimestamp
      ensures Extends(b, now) <==> SigningOk(engine.validators, db.disk, b.header) && CanExtend(rules, active, b)
      ensures !Forks(b, now)
    {
      hide BlockOk, CanExtend, SigningOk;
    }

    lemma MakeForks(b: Block, now: nat)
      requires Sound(b, now) && b.header.prevHash != tipHash && ParentIn(db.disk, b)
      requires b.header.timestamp >= db.disk.blocks[b.header.prevHash].header.timestamp
      ensures Forks(b, now)
    {
      hide Sound;
    }

    lemma TipStored()
      requires |active| > 0 && StoreOk(db.disk, genesis) && HeightsAt(db.disk, active) && tipHash == active[|active| - 1].Hash()
      ensures tipHash in db.disk.blocks && db.disk.blocks[tipHash] == active[|active| - 1]
    {
      StoredUnderHash(db.disk, genesis, active, |active| - 1);
    }

    lemma StandingIs()
      ensures forall r: Processed :: Standing(r) <==> !r.Halted? && (r.Forked? ==> r.result.Kept? || r.result.NoBranch? || r.result.NotStarted? || r.result.Switched?)
    {
    }

    /** A node that goes on after a fork, with writes left, is on the chosen chain. */
    lemma ForkChoice(stored: Disk, chain: seq<Block>, b: Block, r: Processed, persisted: seq<Block>)
      requires StoreOk(stored, genesis) && b.Hash() in stored.blocks && |chain| > 0
      requires r.SideBlock? || r.Forked?
      requires r.SideBlock? <==> b.header.height < |chain| - 1
      requires r.SideBlock? || (r.Forked? && r.result.NoBranch?) ==> active == chain
      requires r.Forked? ==> AfterFork(stored, chain, b.Hash(), r.result, persisted)
      requires r.Forked? ==> r.result.Kept? || r.result.NoBranch? || r.result.NotStarted? || r.result.Switched?
      ensures db.writesLeft > 0 ==> active == Chosen(stored, genesis, chain, b)
      ensures active == chain || active == Chosen(stored, genesis, chain, b)
    {
      hide StoreOk, Clear, AfterFork, AfterSwitch, AfterAstray, Fold, Path, Walk, Switch;
      if r.Forked? {
        AfterForkIs(stored, chain, b.Hash(), r.result, persisted);
      }
      if r.Forked? && !r.result.NoBranch? {
        if Clear(stored, genesis, chain, b.Hash()) {
          AfterSwitchIs(stored, chain, b.Hash(), r.result, persisted);
        } else {
          AstrayResults(stored, chain, b.Hash(), r.result);
        }
      }
    }

    lemma HowFarMeans(before: Disk, writes: nat, chain: seq<Block>, b: Block, r: Processed)
      requires |chain| > 0 && HowFar(before, writes, chain, b, r) && r.Halted?
      ensures db.writesLeft == 0 || Fold(chain).registered + Registrations(b) > MAX_U64
      ensures db.disk == before || Lost(rules, genesis, db.disk) || Fold(chain).registered + Registrations(b) > MAX_U64
    {
      hide Lost;
    }

    lemma ForksAreNew(b: Block, now: nat)
      requires Objects()
      ensures engine.blockTime > 0 && (Forks(b, now) ==> b.Hash() !in db.disk.blocks)
    {
      hide BlockOk;
    }

    lemma ExtendsNotForks(b: Block, now: nat)
      requires |active| > 0 && tipHash == active[|active| - 1].Hash() && Extends(b, now)
      ensures !Forks(b, now) && BlockOk(b) && Tagged(b)
    {
      hide BlockOk, StateValid, SigningOk;
    }

    lemma NotForked(b: Block, now: nat)
      requires !Forks(b, now)
      ensures !Justified(NotStored, b, now)
    {
    }

    lemma OneWriteLoses(before: Disk, chain: seq<Block>, b: Block, r: Processed)
      requires |chain| > 0 && HowFar(before, 1, chain, b, r) && BlockOk(b)
      ensures r.Halted? && Lost(rules, genesis, db.disk) && db.disk.Rest() == before.Rest()
    {
      hide Lost, BlockOk, BlockWrites;
      EveryBlockHasGap(before.utxos, b);
    }

    lemma HowFarIs(before: Disk, writes: nat, chain: seq<Block>, b: Block, r: Processed)
      requires |chain| > 0
      requires var needed := BlockWrites(before.utxos, b.txs, b.header.height);
               && (r.Halted? <==> writes <= needed || Fold(chain).registered + Registrations(b) > MAX_U64)
               && (writes <= needed ==> db.writesLeft == 0 && db.disk.Rest() == before.Rest())
               && (writes == 0 ==> db.disk == before)
               && (0 < writes <= needed ==> Lost(rules, genesis, db.disk))
               && (writes > needed ==> HeightsAt(db.disk, chain + [b]) && TipIs(db.disk, chain + [b]))
      ensures HowFar(before, writes, chain, b, r)
    {
    }

    lemma MakeDiskAt(chain: seq<Block>)
      requires Ready(chain) && |chain| > 0 && TipIs(db.disk, chain) && TotalsAt(db.disk, chain) && db.disk.checkpoint.None?
      ensures DiskAt(rules, genesis, db.disk, chain)
    {
    }

    /** Nothing was written: the state is as good as before. */
    lemma StillCore(before: Disk, chain: seq<Block>)
      requires Objects() && active == chain && |chain| > 0 && db.disk == before
      requires StoreOk(before, genesis) && ChainOk(rules, genesis, chain) && HeightsAt(before, chain) && LedgerAt(before, chain) && UndosRight(before, chain)
      requires supply == Fold(chain).supply && cumDiff == Fold(chain).cumDiff && registered == Fold(chain).registered
      requires StaffOk(wired, rules, engine.minStake, engine.genesisValidators, engine.validators, before, chain)
      requires TipIs(before, chain) && TotalsAt(before, chain) && before.checkpoint.None?
      requires height == |chain| - 1 && tipHash == chain[|chain| - 1].Hash() && tipTimestamp == chain[|chain| - 1].header.timestamp
      requires genesisHash == genesis.Hash() && genesisHash != ZERO_HASH && Fits(Fold(chain))
      ensures Core() && (HeightsExact(before, chain) ==> HeightsExact(db.disk, chain))
    {
      hide *;
      assert before == before.(checkpoint := before.checkpoint);
      CheckpointOnly(before, chain);
      MakeCore();
    }

    /** Storing a block off the active chain disturbs nothing. */
    lemma StoredBlockKeeps(before: Disk, b: Block)
      requires Objects() && |active| > 0 && db.disk == WithBlock(before, b)
      requires StoreOk(before, genesis) && ChainOk(rules, genesis, active) && HeightsAt(before, active) && LedgerAt(before, active) && UndosRight(before, active)
      requires supply == Fold(active).supply && cumDiff == Fold(active).cumDiff && registered == Fold(active).registered
      requires StaffOk(wired, rules, engine.minStake, engine.genesisValidators, engine.validators, before, active)
      requires TipIs(before, active) && TotalsAt(before, active) && before.checkpoint.None?
      requires height == |active| - 1 && tipHash == active[|active| - 1].Hash() && tipTimestamp == active[|active| - 1].header.timestamp
      requires genesisHash == genesis.Hash() && genesisHash != ZERO_HASH && Fits(Fold(active))
      requires b.Hash() !in before.blocks && ParentIn(before, b) && Tagged(b) && 1 <= b.header.difficulty <= 2
      ensures Core() && StoreOk(db.disk, genesis) && (HeightsExact(before, active) ==> HeightsExact(db.disk, active))
      ensures UndosComplete(before, active) ==> UndosComplete(db.disk, active)
    {
      hide *;
      StoreWithBlock(wired, rules, genesis, engine.minStake, engine.genesisValidators, engine.validators, before, active, b);
      StillCore(db.disk, active);
    }

    lemma RestoredMeans(chain: seq<Block>)
      requires |chain| > 0 && Restored(chain)
      ensures rules == NO_RULES && active == chain && genesisHash == genesis.Hash()
      ensures height == |chain| - 1 && tipHash == chain[|chain| - 1].Hash() && tipTimestamp == chain[|chain| - 1].header.timestamp
      ensures supply == Fold(chain).supply && cumDiff == Fold(chain).cumDiff && registered == Fold(chain).registered
    {
    }

    lemma ReadyFacts(chain: seq<Block>, b: Block)
      requires Objects() && TxHashSound() && Ready(chain) && Candidate(chain, b)
      ensures |b.txs| > 0 && |chain| > 0 && b.header.height == |chain|
      ensures db.disk.utxos == Fold(chain).utxos && IndexesOk(db.disk)
      ensures StoreOk(db.disk, genesis) && ChainOk(rules, genesis, chain) && HeightsAt(db.disk, chain) && UndosRight(db.disk, chain)
      ensures Storable(db.disk, b) && 1 <= b.header.difficulty <= 2
      ensures supply == Fold(chain).supply && cumDiff == Fold(chain).cumDiff && registered == Fold(chain).registered
      ensures AllDistinctSpends(b.txs) && StartsWithPayment(b.txs)
      ensures utxos.db == db && blocks.db == db
    {
      hide StoreOk, ChainOk, HeightsAt, UndosRight, IndexesOk, Fold, Tagged, Storable;
      ValidSpendsDistinct(b);
      OpensWithCoinbase(b);
    }

    lemma NotExtendable(chain: seq<Block>, b: Block)
      requires !StateValid(rules, Fold(chain).utxos, Fold(chain).supply, Fold(chain).registered, b)
      ensures !CanExtend(rules, chain, b)
    {
      hide StateValid, BlockOk;
    }

    lemma Overflows(chain: seq<Block>, b: Block)
      requires supply == Fold(chain).supply && cumDiff == Fold(chain).cumDiff
      requires StateValid(rules, Fold(chain).utxos, supply, registered, b)
      requires Capped(rules.maxSupply, supply, Minted(Fold(chain).utxos, b.txs)) > MAX_U64 - supply || b.header.difficulty > MAX_U64 - cumDiff
      ensures !CanExtend(rules, chain, b)
    {
      hide BlockOk;
      CapIsNoOp(rules, Fold(chain).utxos, supply, registered, b);
      FoldStep(chain, b);
    }

    lemma Extendable(chain: seq<Block>, b: Block)
      requires supply == Fold(chain).supply && cumDiff == Fold(chain).cumDiff && registered == Fold(chain).registered
      requires Candidate(chain, b) && StateValid(rules, Fold(chain).utxos, supply, registered, b)
      requires Capped(rules.maxSupply, supply, Minted(Fold(chain).utxos, b.txs)) <= MAX_U64 - supply && b.header.difficulty <= MAX_U64 - cumDiff
      ensures CanExtend(rules, chain, b)
      ensures Capped(rules.maxSupply, supply, Minted(Fold(chain).utxos, b.txs)) == Reward(Fold(chain).utxos, b)
      ensures Fold(chain + [b]) == Advance(Fold(chain), b)
      ensures Fold(chain + [b]).supply == supply + Reward(Fold(chain).utxos, b)
      ensures Fold(chain + [b]).cumDiff == cumDiff + b.header.difficulty
      ensures Fold(chain + [b]).registered == registered + BlockOut(b.txs, IsRegistration)
    {
      hide BlockOk;
      CapIsNoOp(rules, Fold(chain).utxos, supply, registered, b);
      FoldStep(chain, b);
    }

    lemma MakeReadyOn(chain: seq<Block>)
      requires StoreOk(db.disk, genesis) && ChainOk(rules, genesis, chain) && HeightsAt(db.disk, chain)
      requires db.disk.utxos == Fold(chain).utxos && IndexesOk(db.disk) && UndosRight(db.disk, chain)
      requires supply == Fold(chain).supply && cumDiff == Fold(chain).cumDiff && registered == Fold(chain).registered
      ensures Ready(chain)
    {
    }

    lemma MakeReady(chain: seq<Block>)
      requires StoreOk(db.disk, genesis) && ChainOk(rules, genesis, chain) && HeightsAt(db.disk, chain)
      requires LedgerAt(db.disk, chain) && UndosRight(db.disk, chain)
      requires supply == Fold(chain).supply && cumDiff == Fold(chain).cumDiff && registered == Fold(chain).registered
      ensures Ready(chain)
    {
    }
  }

  /** However often a restart is itself cut short, each attempt starts from a database for the same
      chain, and the first that runs to its end has rebuilt exactly that chain: which an attempt does
      as soon as it gets writes enough to clear the most keys ever left and to replay the chain. */
  method RestartUntilDone(disk: Disk, budgets: seq<nat>, founders: seq<Bytes>, blockTime: nat, wired: bool, minStake: Uint64, actual: Rules,
                          ghost genesis: Block, ghost chain: seq<Block>) returns (r: Option<Node>, left: Disk)
    requires |founders| > 0 && blockTime > 0 && SortedBy(LexLe, founders) && TxHashSound()
    requires Recoverable(actual, genesis, disk, chain) && genesis.Hash() != ZERO_HASH
    requires FixedSet(wired, founders, disk) ==> SignedChain(founders, chain)
    ensures r.Some? ==> r.value.Core() && UndosComplete(left, chain) && r.value.db.disk == left
    ensures r.Some? ==> r.value.active == chain && r.value.rules == actual && r.value.genesis == genesis && r.value.wired == wired
    ensures r.Some? ==> r.value.engine.genesisValidators == founders && r.value.engine.minStake == minStake
    ensures r.Some? && HeightsExact(disk, chain) ==> r.value.Valid()
    ensures r.None? ==> Recoverable(actual, genesis, left, chain)
    ensures left.blocks == disk.blocks && left.heights == disk.heights
    ensures r.None? && MostKeys(disk, chain) <= MAX_U64 && Fold(chain).registered <= MAX_U64 ==>
              forall i :: 0 <= i < |budgets| ==> budgets[i] < MostKeys(disk, chain) + ReplayWrites(chain) + 5
  {
    hide *;
    left := disk;
    r := None;
    RebuildWritesAre(disk, chain);
    for i := 0 to |budgets|
      invariant r.None? && Recoverable(actual, genesis, left, chain) && left.blocks == disk.blocks && left.heights == disk.heights
      invariant Fold(chain).registered <= MAX_U64 ==> OutputKeys(left) <= MostKeys(disk, chain)
      invariant MostKeys(disk, chain) <= MAX_U64 && Fold(chain).registered <= MAX_U64 ==>
                  forall j :: 0 <= j < i ==> budgets[j] < MostKeys(disk, chain) + ReplayWrites(chain) + 5
    {
      RecoverableParts(actual, genesis, left, chain);
      RebuildWritesAre(left, chain);
      KeysHoldRegistrations(left);
      SameBlocksFixed(wired, founders, disk, left);
      var db := new Database(left, budgets[i]);
      var utxos := new Store(db);
      var blocks := new Blocks(db);
      var engine := new Engine(founders, blockTime, wired && minStake > 0, minStake);
      SameEngine(engine, founders);
      r := Node.Start(db, utxos, blocks, engine, wired, actual, genesis, chain);
      SameHeights(disk, left, chain);
      left := db.disk;
      if r.Some? {
        return;
      }
    }
  }

  /** An engine made of a sorted list of keys has exactly that list. */
  lemma SameEngine(engine: Engine, founders: seq<Bytes>)
    requires engine.Valid() && multiset(engine.validators) == multiset(founders) && SortedBy(LexLe, founders)
    ensures engine.validators == founders
  {
    LexIsOrder();
    SortedIsCanonical(LexLe, engine.validators, founders);
  }

  lemma KeysHoldRegistrations(d: Disk)
    ensures Total(d.utxos, IsRegistration) <= OutputKeys(d)
  {
    RegistrationsFew(d.utxos);
  }
}
