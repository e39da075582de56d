/** Suspensions: the window of recent producers, and its reconstruction from the last blocks
    (internal/node/node.go) against recording every block since genesis. */
module Suspensions {
  import opened Primitives
  import opened Types
  import opened Poa
  import opened Signing
  import opened Rebuilding
  import opened Chain

  /** Who signed each block of a chain. */
  function Signers(validators: seq<Bytes>, chain: seq<Block>): (r: seq<Option<Bytes>>)
    ensures |r| == |chain| && forall i :: 0 <= i < |chain| ==> r[i] == SignerOf(validators, chain[i].header)
  {
    seq(|chain|, i requires 0 <= i < |chain| => SignerOf(validators, chain[i].header))
  }

  /** The record that RecordBlockProduction builds from the blocks lo to hi - 1. */
  function Recorded(signers: seq<Option<Bytes>>, lo: nat, hi: nat): map<Bytes, Uint64>
    requires lo <= hi <= |signers| && hi <= 0xFFFF_FFFF_FFFF_FFFF
    decreases hi - lo
  {
    if lo == hi then map[] else
      var before := Recorded(signers, lo, hi - 1);
      if signers[hi - 1].Some? then before[signers[hi - 1].value := hi - 1] else before
  }

  ghost predicate SignedIn(signers: seq<Option<Bytes>>, lo: nat, hi: nat, v: Bytes)
    requires hi <= |signers|
  {
    exists i :: lo <= i < hi && signers[i] == Some(v)
  }

  /** The record holds exactly the signers, each at its last block. */
  lemma {:induction false} RecordedIsLast(signers: seq<Option<Bytes>>, lo: nat, hi: nat, v: Bytes)
    requires lo <= hi <= |signers| && hi <= 0xFFFF_FFFF_FFFF_FFFF
    ensures var r := Recorded(signers, lo, hi);
            && (v in r <==> SignedIn(signers, lo, hi, v))
            && (v in r ==> lo <= r[v] < hi && signers[r[v]] == Some(v) && !SignedIn(signers, r[v] + 1, hi, v))
    decreases hi - lo
  {
    if lo < hi {
      RecordedIsLast(signers, lo, hi - 1, v);
      if signers[hi - 1] == Some(v) {
        assert SignedIn(signers, lo, hi, v);
      } else {
        assert SignedIn(signers, lo, hi, v) <==> SignedIn(signers, lo, hi - 1, v);
      }
    }
  }

  /** Where the scan of the last blocks starts. */
  function WindowStart(height: nat): nat {
    if height > SUSPENSION_WINDOW then height - SUSPENSION_WINDOW else 0
  }

  /** Recorded from genesis or from the window only, a validator counts as producing alike. */
  lemma {:induction false} SameProducing(signers: seq<Option<Bytes>>, height: Uint64, v: Bytes)
    requires height + 1 == |signers| <= 0xFFFF_FFFF_FFFF_FFFF
    ensures Producing(Recorded(signers, 0, height + 1), height, v) <==> Producing(Recorded(signers, WindowStart(height), height + 1), height, v)
  {
    var lo := WindowStart(height);
    RecordedIsLast(signers, 0, height + 1, v);
    RecordedIsLast(signers, lo, height + 1, v);
    var all, recent := Recorded(signers, 0, height + 1), Recorded(signers, lo, height + 1);
    if v in recent {
      assert SignedIn(signers, 0, height + 1, v);
      assert recent[v] == all[v];
    }
  }

  lemma {:induction false} SameProducers(validators: seq<Bytes>, a: map<Bytes, Uint64>, b: map<Bytes, Uint64>, height: Uint64)
    requires forall v :: Producing(a, height, v) <==> Producing(b, height, v)
    ensures ProducingOf(validators, a, height) == ProducingOf(validators, b, height)
  {
    if |validators| > 0 {
      SameProducers(validators[..|validators| - 1], a, b, height);
    }
  }

  /** Scanning the last blocks gives every answer that recording all blocks since genesis gives. */
  lemma {:induction false} ReconstructionIsExact(validators: seq<Bytes>, signers: seq<Option<Bytes>>, height: Uint64, v: Bytes)
    requires height + 1 == |signers| <= 0xFFFF_FFFF_FFFF_FFFF
    ensures var all, recent := Recorded(signers, 0, height + 1), Recorded(signers, WindowStart(height), height + 1);
            && EffectiveSet(validators, all, height) == EffectiveSet(validators, recent, height)
            && (Suspended(validators, all, height, v) <==> Suspended(validators, recent, height, v))
  {
    var all, recent := Recorded(signers, 0, height + 1), Recorded(signers, WindowStart(height), height + 1);
    forall w
      ensures Producing(all, height, w) <==> Producing(recent, height, w)
    {
      SameProducing(signers, height, w);
    }
    SameProducers(validators, all, recent, height);
  }

  // ---------------------------------------------------------------- suspension and the effective set

  ghost predicate SomeoneProducing(validators: seq<Bytes>, last: map<Bytes, Uint64>, height: Uint64) {
    exists v :: v in validators && Producing(last, height, v)
  }

  lemma {:induction false} ProducingOfIs(validators: seq<Bytes>, last: map<Bytes, Uint64>, height: Uint64)
    ensures forall v :: v in ProducingOf(validators, last, height) <==> v in validators && Producing(last, height, v)
    ensures |ProducingOf(validators, last, height)| <= |validators|
  {
    if |validators| > 0 {
      var n := |validators| - 1;
      ProducingOfIs(validators[..n], last, height);
      assert forall v :: v in validators <==> v in validators[..n] || v == validators[n];
    }
  }

  lemma EffectiveNeverEmpty(validators: seq<Bytes>, last: map<Bytes, Uint64>, height: Uint64)
    requires |validators| > 0
    ensures |EffectiveSet(validators, last, height)| > 0
    ensures forall v :: v in EffectiveSet(validators, last, height) ==> v in validators
  {
    ProducingOfIs(validators, last, height);
  }

  /** Produced within the last 200 blocks; somebody never seen counts as a newcomer for that long. */
  predicate Seen(last: map<Bytes, Uint64>, height: Uint64, v: Bytes) {
    if v in last then height - last[v] <= 200 else height <= 200
  }

  /** The effective set and the suspensions in numbers: from height 200 on the effective validators are those seen
      within 200 blocks, all of them if nobody was; and whoever was not is suspended, unless he alone is left. */
  lemma {:induction false} SuspensionInNumbers(validators: seq<Bytes>, last: map<Bytes, Uint64>, height: Uint64, v: Bytes)
    requires Bounded(last, height) && v in validators
    ensures var active := EffectiveSet(validators, last, height);
            && (v in active <==> height < 200 || Seen(last, height, v) || forall w :: w in validators ==> !Seen(last, height, w))
            && (Suspended(validators, last, height, v) <==> height >= 200 && !Seen(last, height, v) && !(v in active && |active| == 1))
  {
    forall w | w in validators
      ensures Producing(last, height, w) <==> Seen(last, height, w)
    {
    }
    ProducingOfIs(validators, last, height);
    NobodyProduces(validators, last, height);
    hide Producing, Seen, ProducingOf;
  }

  lemma {:induction false} NobodyProduces(validators: seq<Bytes>, last: map<Bytes, Uint64>, height: Uint64)
    ensures |ProducingOf(validators, last, height)| == 0 <==> forall w :: w in validators ==> !Producing(last, height, w)
  {
    ProducingOfIs(validators, last, height);
    var p := ProducingOf(validators, last, height);
    if |p| > 0 {
      assert p[0] in p;
    }
    hide Producing, ProducingOf;
  }

  lemma HasFirst<T>(s: seq<T>)
    ensures s == [] || exists x :: x in s
  {
    if s != [] {
      assert s[0] in s;
    }
  }

  ghost predicate Consistent(validators: seq<Bytes>, last: map<Bytes, Uint64>, height: Uint64) {
    forall v :: v in validators ==> (Suspended(validators, last, height, v) <==> v !in EffectiveSet(validators, last, height))
  }

  /** Being suspended and being outside the effective set are the same thing exactly while the chain
      is young, or some validator produced in the window, or there is only one validator. With nobody
      producing, every one of several validators is suspended and effective at once. */
  lemma {:induction false} SuspendedIffIneffective(validators: seq<Bytes>, last: map<Bytes, Uint64>, height: Uint64)
    requires |validators| > 0
    ensures Consistent(validators, last, height) <==>
            height < SUSPENSION_WINDOW || SomeoneProducing(validators, last, height) || |validators| == 1
  {
    ProducingOfIs(validators, last, height);
    if height >= SUSPENSION_WINDOW {
      var producing := ProducingOf(validators, last, height);
      if SomeoneProducing(validators, last, height) {
        var v :| v in validators && Producing(last, height, v);
        assert v in producing;
        assert EffectiveSet(validators, last, height) == producing;
      } else {
        HasFirst(producing);
        assert EffectiveSet(validators, last, height) == validators;
        assert validators[0] in validators;
        assert Suspended(validators, last, height, validators[0]) <==> |validators| > 1;
      }
    }
  }

  /** On a signed chain somebody always produced: the signer of the tip. */
  lemma {:induction false} SignedChainConsistent(validators: seq<Bytes>, chain: seq<Block>, lo: nat)
    requires |validators| > 0 && 1 < |chain| <= 0xFFFF_FFFF_FFFF_FFFF && lo < |chain|
    requires SignerOf(validators, chain[|chain| - 1].header).Some?
    ensures Consistent(validators, Recorded(Signers(validators, chain), lo, |chain|), |chain| - 1)
  {
    var signers := Signers(validators, chain);
    var height := |chain| - 1;
    var last := Recorded(signers, lo, |chain|);
    var v := signers[height].value;
    RecordedIsLast(signers, lo, |chain|, v);
    assert SignedIn(signers, lo, |chain|, v);
    assert last[v] == height;
    assert Producing(last, height, v);
    assert SomeoneProducing(validators, last, height);
    SuspendedIffIneffective(validators, last, height);
  }

  // ---------------------------------------------------------------- a validator added in between

  /** The engine's record when AddValidator came for `v` at height a: its grace period starts there. */
  ghost function RecordedWithGrace(signers: seq<Option<Bytes>>, v: Bytes, a: nat, hi: nat): map<Bytes, Uint64>
    requires a < hi <= |signers| && hi <= 0xFFFF_FFFF_FFFF_FFFF
    decreases hi
  {
    if hi == a + 1 then Recorded(signers, 0, hi)[v := a] else
      var before := RecordedWithGrace(signers, v, a, hi - 1);
      if signers[hi - 1].Some? then before[signers[hi - 1].value := hi - 1] else before
  }

  lemma {:induction false} GraceRecord(signers: seq<Option<Bytes>>, v: Bytes, a: nat, hi: nat, w: Bytes)
    requires a < hi <= |signers| && hi <= 0xFFFF_FFFF_FFFF_FFFF
    ensures var r, plain := RecordedWithGrace(signers, v, a, hi), Recorded(signers, 0, hi);
            if w == v then w in r && r[w] == (if SignedIn(signers, a + 1, hi, v) && v in plain then plain[v] else a)
            else (w in r <==> w in plain) && (w in r ==> r[w] == plain[w])
    decreases hi
  {
    if hi > a + 1 {
      GraceRecord(signers, v, a, hi - 1, w);
      if signers[hi - 1] == Some(v) {
        assert SignedIn(signers, a + 1, hi, v);
      } else {
        assert SignedIn(signers, a + 1, hi, v) <==> SignedIn(signers, a + 1, hi - 1, v);
      }
    }
  }

  /** A reconstruction forgets a grace period exactly when the validator was added inside the window,
      signed nothing in it, and the chain is past its first window. All other validators keep theirs. */
  ghost predicate GraceLost(signers: seq<Option<Bytes>>, v: Bytes, a: nat, height: Uint64)
    requires height + 1 == |signers|
  {
    height > SUSPENSION_WINDOW && height - a <= SUSPENSION_WINDOW && !SignedIn(signers, WindowStart(height), height + 1, v)
  }

  lemma {:induction false} GraceLostExactlyWhen(signers: seq<Option<Bytes>>, v: Bytes, a: nat, height: Uint64, w: Bytes)
    requires height + 1 == |signers| <= 0xFFFF_FFFF_FFFF_FFFF && a <= height
    ensures var running, recent := RecordedWithGrace(signers, v, a, height + 1), Recorded(signers, WindowStart(height), height + 1);
            (Producing(running, height, w) <==> Producing(recent, height, w)) <==> !(w == v && GraceLost(signers, v, a, height))
  {
    hide Recorded, RecordedWithGrace;
    var lo := WindowStart(height);
    var plain := Recorded(signers, 0, height + 1);
    GraceRecord(signers, v, a, height + 1, w);
    SameProducing(signers, height, w);
    RecordedIsLast(signers, 0, height + 1, w);
    RecordedIsLast(signers, lo, height + 1, w);
    if w == v {
      if SignedIn(signers, a + 1, height + 1, v) {
        assert SignedIn(signers, 0, height + 1, v);
        assert plain[v] > a;
      } else if SignedIn(signers, lo, height + 1, v) {
        var i :| lo <= i < height + 1 && signers[i] == Some(v);
        assert i <= a;
      }
    }
  }

  /** Unless it does, every answer after a reconstruction is that of the running engine; if it does and
      somebody else produced in the window, the new validator turns from effective to suspended. */
  lemma {:induction false} GraceDecidesAnswers(validators: seq<Bytes>, signers: seq<Option<Bytes>>, v: Bytes, a: nat, height: Uint64)
    requires height + 1 == |signers| <= 0xFFFF_FFFF_FFFF_FFFF && a <= height && v in validators
    ensures var running, recent := RecordedWithGrace(signers, v, a, height + 1), Recorded(signers, WindowStart(height), height + 1);
            && (!GraceLost(signers, v, a, height) ==>
                  && EffectiveSet(validators, running, height) == EffectiveSet(validators, recent, height)
                  && forall w :: Suspended(validators, running, height, w) <==> Suspended(validators, recent, height, w))
            && (GraceLost(signers, v, a, height) && SomeoneProducing(validators, recent, height) ==>
                  && v in EffectiveSet(validators, running, height) && !Suspended(validators, running, height, v)
                  && v !in EffectiveSet(validators, recent, height) && Suspended(validators, recent, height, v))
  {
    var running, recent := RecordedWithGrace(signers, v, a, height + 1), Recorded(signers, WindowStart(height), height + 1);
    forall w
      ensures (Producing(running, height, w) <==> Producing(recent, height, w)) <==> !(w == v && GraceLost(signers, v, a, height))
    {
      GraceLostExactlyWhen(signers, v, a, height, w);
    }
    if !GraceLost(signers, v, a, height) {
      SameProducers(validators, running, recent, height);
    } else if SomeoneProducing(validators, recent, height) {
      RecordedIsLast(signers, WindowStart(height), height + 1, v);
      assert !Producing(recent, height, v);
      GraceKept(validators, running, height, v);
      ProducingOfIs(validators, recent, height);
      var w :| w in validators && Producing(recent, height, w);
      assert w in ProducingOf(validators, recent, height);
    }
  }

  lemma GraceKept(validators: seq<Bytes>, last: map<Bytes, Uint64>, height: Uint64, v: Bytes)
    requires v in validators && Producing(last, height, v) && height >= SUSPENSION_WINDOW
    ensures v in EffectiveSet(validators, last, height) && !Suspended(validators, last, height, v)
  {
    ProducingOfIs(validators, last, height);
    assert v in ProducingOf(validators, last, height);
  }

  /** Two validators taking turns, as the signing limit of two or three validators has them do. */
  function InTurns(x: Bytes, z: Bytes, n: nat): seq<Option<Bytes>> {
    seq(n, i => if i == 0 then None else if i % 2 == 0 then Some(x) else Some(z))
  }

  /** A run of signers on which it happens, and which the signing limit admits: two of the validators take
      turns, the third was added fifty blocks ago. */
  lemma GraceLostWitness(x: Bytes, y: Bytes, z: Bytes)
    requires x != y && y != z && z != x
    ensures var signers := InTurns(x, z, 301);
            && (forall i, j :: 0 <= i < j < 301 && j - i < SigningWindow(3) ==> signers[i] != signers[j])
            && SigningWindow(2) == SigningWindow(3)
            && GraceLost(signers, y, 250, 300)
            && Suspended([x, y, z], Recorded(signers, WindowStart(300), 301), 300, y)
            && !Suspended([x, y, z], RecordedWithGrace(signers, y, 250, 301), 300, y)
  {
    hide Recorded, RecordedWithGrace, EffectiveSet, Suspended;
    var signers, validators := InTurns(x, z, 301), [x, y, z];
    var recent := Recorded(signers, WindowStart(300), 301);
    assert signers[300] == Some(x);
    assert SignedIn(signers, WindowStart(300), 301, x);
    RecordedIsLast(signers, WindowStart(300), 301, x);
    assert Producing(recent, 300, x);
    assert validators[0] == x && validators[1] == y;
    assert SomeoneProducing(validators, recent, 300);
    GraceDecidesAnswers(validators, signers, y, 250, 300);
  }

  // ---------------------------------------------------------------- the reconstruction

  lemma RecordedStep(signers: seq<Option<Bytes>>, lo: nat, hi: nat)
    requires lo <= hi < |signers| && hi < 0xFFFF_FFFF_FFFF_FFFF
    ensures Recorded(signers, lo, hi + 1) == if signers[hi].Some? then Recorded(signers, lo, hi)[signers[hi].value := hi] else Recorded(signers, lo, hi)
  {
  }

  lemma RecordedNothing(signers: seq<Option<Bytes>>, lo: nat)
    requires lo <= |signers| && lo <= 0xFFFF_FFFF_FFFF_FFFF
    ensures Recorded(signers, lo, lo) == map[]
  {
  }

  /** reconstructSuspensions: reset, then record the blocks of the window. Afterwards the engine
      answers as if it had recorded the active chain from its first block. */
  method ReconstructSuspensions(n: Node)
    requires n.Core() && n.height + 2 <= 0xFFFF_FFFF_FFFF_FFFF
    modifies n.engine`lastProduced, n.engine`currentHeight
    ensures n.Core() && n.engine.currentHeight == n.height
    ensures n.height + 1 == |n.active| && Bounded(n.engine.lastProduced, n.engine.currentHeight)
    ensures n.engine.lastProduced == Recorded(Signers(n.engine.validators, n.active), WindowStart(n.height), n.height + 1)
    ensures var all := Recorded(Signers(n.engine.validators, n.active), 0, n.height + 1);
            && EffectiveSet(n.engine.validators, n.engine.lastProduced, n.height) == EffectiveSet(n.engine.validators, all, n.height)
            && forall v :: Suspended(n.engine.validators, n.engine.lastProduced, n.height, v) <==> Suspended(n.engine.validators, all, n.height, v)
  {
    hide *;
    n.CoreFacts();
    n.ObjectFacts();
    ghost var chain := n.active;
    ghost var validators := n.engine.validators;
    ghost var signers := Signers(validators, chain);
    n.engine.ResetSuspensions();
    n.engine.SetCurrentHeight(n.height);
    var start := WindowStart(n.height);
    StartsBelow(n.height);
    RecordedNothing(signers, start);
    for h := start to n.height + 1
      invariant n.engine.Valid() && n.engine.validators == validators && n.engine.currentHeight == n.height
      invariant n.engine.lastProduced == Recorded(signers, start, h) && Bounded(n.engine.lastProduced, n.engine.currentHeight)
    {
      BlockAtHeight(n.db.disk, chain, h);
      RecordedStep(signers, start, h);
      var b := n.db.disk.BlockAt(h);
      if b.Some? {
        var signer := n.engine.IdentifySigner(b.value.header);
        if signer.Some? {
          n.engine.RecordBlockProduction(signer.value, h);
          MaxOf(n.height, h);
        }
      }
    }
    forall v
      ensures Suspended(validators, n.engine.lastProduced, n.height, v) <==> Suspended(validators, Recorded(signers, 0, n.height + 1), n.height, v)
    {
      ReconstructionIsExact(validators, signers, n.height, v);
    }
    ReconstructionIsExact(validators, signers, n.height, []);
    n.MakeObjects();
    n.StillCore(n.db.disk, chain);
  }

  lemma StartsBelow(height: nat)
    ensures WindowStart(height) <= height
  {
  }

  lemma MaxOf(a: nat, b: nat)
    requires b <= a
    ensures Max(a, b) == a
  {
  }
}
