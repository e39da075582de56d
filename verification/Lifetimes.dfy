/** The whole life of a node: any number of sessions on one database, each started on what the last one
    left, fed any blocks, and stopped after any number of writes. */
module Lifetimes {
  import opened Primitives
  import opened Types
  import opened Weights
  import opened Replay
  import opened StateRules
  import opened Storage
  import opened UtxoStore
  import opened BlockStore
  import opened ChainSpec
  import opened Sorting
  import opened Poa
  import opened Signing
  import opened Staffing
  import opened Transitions
  import opened Rebuilding
  import opened Genesis
  import opened Chain
  import opened Runs

  /** The blocks that arrive in a session, and the writes its database takes. */
  datatype Session = Session(arrivals: seq<(Block, nat)>, writes: nat)

  datatype Life =
    | Goes     // the database can be started on again
    | Broke    // a stop on the fast path, between its writes
    | Astray   // a branch was misread off a stale height entry

  /** A restart finds `chain`: it is on the database with all its undo records, or can be rebuilt. */
  ghost predicate Restartable(wired: bool, rules: Rules, g: Block, founders: seq<Bytes>, d: Disk, chain: seq<Block>) {
    && ((DiskAt(rules, g, d, chain) && UndosComplete(d, chain)) || Recoverable(rules, g, d, chain))
    && (FixedSet(wired, founders, d) ==> SignedChain(founders, chain))
  }

  lemma RestartableIs(wired: bool, rules: Rules, g: Block, founders: seq<Bytes>, d: Disk, chain: seq<Block>)
    ensures Restartable(wired, rules, g, founders, d, chain) <==>
            && ((DiskAt(rules, g, d, chain) && UndosComplete(d, chain)) || Recoverable(rules, g, d, chain))
            && (FixedSet(wired, founders, d) ==> SignedChain(founders, chain))
    ensures DiskAt(rules, g, d, chain) ==> d.checkpoint.None?
    ensures Recoverable(rules, g, d, chain) ==> d.checkpoint.Some?
  {
    hide UndosComplete, FixedSet, SignedChain;
  }

  /** A restartable database without a checkpoint is balanced as it stands. */
  lemma RestartableBalances(wired: bool, rules: Rules, g: Block, founders: seq<Bytes>, d: Disk, chain: seq<Block>)
    requires TxHashSound() && Restartable(wired, rules, g, founders, d, chain) && d.checkpoint.None? && |g.txs| > 0
    ensures Balanced(rules, g, d, SupplyOf(d), CumDiffOf(d), Fold(chain).registered, chain)
  {
    hide *;
    RestartableIs(wired, rules, g, founders, d, chain);
    DiskParts(rules, g, d, chain);
    MakeBalanced(rules, g, d, SupplyOf(d), CumDiffOf(d), Fold(chain).registered, chain);
  }

  /** What holds when a life does not go on. */
  ghost predicate Ended(wired: bool, rules: Rules, g: Block, founders: seq<Bytes>, life: Life, arrivals: seq<(Block, nat)>, at: nat, before: Disk, d: Disk, chain: seq<Block>) {
    && at < |arrivals|
    && (life.Broke? ==> Lost(rules, g, d) || Fold(chain).registered + Registrations(arrivals[at].0) > MAX_U64)
    && (life.Astray? ==> DiskAt(rules, g, before, chain) && AstrayAt(wired, rules, g, founders, WithBlock(before, arrivals[at].0), chain, d))
  }

  lemma MakeEnded(wired: bool, rules: Rules, g: Block, founders: seq<Bytes>, life: Life, arrivals: seq<(Block, nat)>, at: nat, before: Disk, d: Disk, chain: seq<Block>)
    requires at < |arrivals|
    requires life.Broke? ==> Lost(rules, g, d) || Fold(chain).registered + Registrations(arrivals[at].0) > MAX_U64
    requires life.Astray? ==> DiskAt(rules, g, before, chain) && AstrayAt(wired, rules, g, founders, WithBlock(before, arrivals[at].0), chain, d)
    ensures Ended(wired, rules, g, founders, life, arrivals, at, before, d, chain)
  {
    hide Lost, DiskAt, AstrayAt;
  }

  /** A node starts on the database: its registrations fit the counter, and a rebuild, if one is due,
      has the writes it takes. */
  ghost predicate Starts(d: Disk, writes: nat, chain: seq<Block>) {
    && Total(d.utxos, IsRegistration) <= MAX_U64
    && (d.checkpoint.Some? ==> writes >= RebuildWrites(d, chain) && Fold(chain).registered <= MAX_U64)
  }

  lemma StartsIs(d: Disk, writes: nat, chain: seq<Block>)
    ensures Starts(d, writes, chain) <==>
            && Total(d.utxos, IsRegistration) <= MAX_U64
            && (d.checkpoint.Some? ==> writes >= RebuildWrites(d, chain) && Fold(chain).registered <= MAX_U64)
  {
  }

  /** One session: start up, rebuilding if the last one was cut short in a reorganisation, and process
      what arrives. However it stops, the database can be started on again, but for the two failures
      that its result names. */
  method RunSession(disk: Disk, s: Session, founders: seq<Bytes>, blockTime: nat, wired: bool, minStake: Uint64, rules: Rules, ghost g: Block, ghost chain: seq<Block>)
    returns (life: Life, ran: bool, left: Disk, ghost next: seq<Block>, ghost history: seq<seq<Block>>, ghost at: nat, ghost before: Disk, ghost path: seq<Block>)
    requires |founders| > 0 && blockTime > 0 && SortedBy(LexLe, founders) && TxHashSound() && g.Hash() != ZERO_HASH
    requires Restartable(wired, rules, g, founders, disk, chain)
    requires forall i :: 0 <= i < |s.arrivals| ==> Tagged(s.arrivals[i].0)
    ensures ran <==> Starts(disk, s.writes, chain)
    ensures !ran ==> life.Goes? && next == chain && left.blocks == disk.blocks && left.heights == disk.heights
    ensures life.Goes? ==> Restartable(wired, rules, g, founders, left, next)
    ensures !life.Goes? ==> Ended(wired, rules, g, founders, life, s.arrivals, at, before, left, next)
    ensures |history| > 0 && history[0] == chain && Rising(history) && Followed(rules, g, disk.blocks.Values, s.arrivals, history)
    ensures next == history[|history| - 1] || OnTheWay(rules, g, disk.blocks.Values, s.arrivals, at, before, history[|history| - 1], path, left, next)
  {
    hide *;
    next, history, at, before, path := chain, [chain], 0, disk, [];
    RisingStarts(chain);
    FollowedStarts(rules, g, disk.blocks.Values, s.arrivals, chain);
    StartsIs(disk, s.writes, chain);
    RestartableIs(wired, rules, g, founders, disk, chain);
    var db := new Database(disk, s.writes);
    var utxos := new Store(db);
    var blocks := new Blocks(db);
    var engine := new Engine(founders, blockTime, wired && minStake > 0, minStake);
    SameEngine(engine, founders);
    var r := Node.Start(db, utxos, blocks, engine, wired, rules, g, chain);
    SameBlocksFixed(wired, founders, disk, db.disk);
    RestartableIs(wired, rules, g, founders, db.disk, chain);
    if r.None? {
      return Goes, false, db.disk, next, history, at, before, path;
    }
    ran := true;
    var n := r.value;
    KnownArrived(db.disk, s.arrivals);
    var fate;
    fate, next, history, at, before, path := Feed(n, s.arrivals, db.disk.blocks.Values);
    left := db.disk;
    RestartableIs(wired, rules, g, founders, left, next);
    match fate {
      case AllProcessed =>
        n.CoreFacts();
        n.MakeDiskAt(next);
        n.SignedBelow(next, |next|);
        assert next[..|next|] == next;
        life := Goes;
      case OutOfWrites =>
        life := Goes;
      case ReorgInterrupted =>
        CutShortMeans(n, disk.blocks.Values, s.arrivals, at, before, history[|history| - 1], path, next);
        life := Goes;
      case NodeHalted =>
        HaltedAtIs(rules, g, next, s.arrivals[at].0, left, db.writesLeft);
        MakeEnded(wired, rules, g, founders, Broke, s.arrivals, at, before, left, next);
        life := Broke;
      case LedAstray =>
        MakeEnded(wired, rules, g, founders, Astray, s.arrivals, at, before, left, next);
        life := Astray;
    }
  }

  /** From genesis through any sessions. As long as no stop falls between the writes of the fast path and no
      branch is misread, the database holds, or can be rebuilt into, one valid chain with conserved and
      capped value. */
  method RunLife(writes: nat, alloc: seq<(Address, Uint64)>, timestamp: Uint64, rules: Rules, keys: seq<Bytes>, blockTime: nat,
                 wired: bool, minStake: Uint64, sessions: seq<Session>)
    returns (life: Life, begun: bool, unused: nat, left: Disk, ghost founders: seq<Bytes>, ghost chain: seq<Block>, ghost last: nat, ghost at: nat, ghost before: Disk)
    requires TxHashSound() && |keys| > 0 && blockTime > 0
    requires CreateGenesisBlock(alloc, timestamp).Hash() != ZERO_HASH
    requires forall j, i :: 0 <= j < |sessions| && 0 <= i < |sessions[j].arrivals| ==> Tagged(sessions[j].arrivals[i].0)
    ensures multiset(founders) == multiset(keys)
    ensures AllocSum(alloc) > MAX_U64 ==> !begun
    ensures !begun ==> (AllocSum(alloc) > MAX_U64 || unused == 0) && GenesisCut(rules, CreateGenesisBlock(alloc, timestamp), left, AllocSum(alloc))
    ensures begun && life.Goes? ==> Restartable(wired, rules, CreateGenesisBlock(alloc, timestamp), founders, left, chain)
    ensures begun && life.Goes? && left.checkpoint.None? ==>
              Balanced(rules, CreateGenesisBlock(alloc, timestamp), left, SupplyOf(left), CumDiffOf(left), Fold(chain).registered, chain)
    ensures !life.Goes? ==>
              last < |sessions| && Ended(wired, rules, CreateGenesisBlock(alloc, timestamp), founders, life, sessions[last].arrivals, at, before, left, chain)
  {
    hide *;
    EmptyIsStartable(CreateGenesisBlock(alloc, timestamp));
    var db := new Database(EMPTY_DISK, writes);
    var n, ok := Begin(db, alloc, timestamp, rules, keys, blockTime, wired, minStake);
    ghost var g := CreateGenesisBlock(alloc, timestamp);
    life, begun, unused, left, founders, chain, last, at, before := Goes, ok, db.writesLeft, db.disk, n.engine.genesisValidators, [g], 0, 0, db.disk;
    if !ok {
      return;
    }
    var ours := n.engine.genesisValidators;
    n.CoreFacts();
    n.MakeDiskAt(chain);
    n.SignedBelow(chain, |chain|);
    assert chain[..|chain|] == chain;
    RestartableIs(wired, rules, g, founders, left, chain);
    for j := 0 to |sessions|
      invariant Restartable(wired, rules, g, founders, left, chain)
    {
      last := j;
      var ran;
      ghost var history, path;
      life, ran, left, chain, history, at, before, path := RunSession(left, sessions[j], ours, blockTime, wired, minStake, rules, g, chain);
      if !life.Goes? {
        return;
      }
    }
    if left.checkpoint.None? {
      RestartableBalances(wired, rules, g, founders, left, chain);
    }
    life := Goes;
  }
}
