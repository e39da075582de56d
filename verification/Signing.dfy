/** The signing window: among any N/2+1 consecutive blocks no validator signs twice. */
module Signing {
  import opened Primitives
  import opened Types
  import opened Storage
  import opened ChainSpec
  import opened Poa

  predicate OtherSigner(validators: seq<Bytes>, d: Disk, height: nat, signer: Option<Bytes>) {
    d.BlockAt(height).Some? ==> SignerOf(validators, d.BlockAt(height).value.header) != signer
  }

  /** The rule of checkSigningLimit for a header, read against the height index below it. */
  ghost predicate SigningOk(validators: seq<Bytes>, d: Disk, header: Header) {
    var limit := SigningWindow(|validators|);
    limit > 0 && SignerOf(validators, header).Some? ==>
      forall k: nat :: k < header.height && header.height - k < limit ==> OtherSigner(validators, d, k, SignerOf(validators, header))
  }

  /** In numbers: the signer of the header is not that of any of the N/2 blocks below it. One validator is
      never limited. */
  lemma SigningOkIs(validators: seq<Bytes>, d: Disk, header: Header)
    ensures SigningOk(validators, d, header) <==>
            || |validators| <= 1 || SignerOf(validators, header).None?
            || forall k: nat :: k < header.height <= k + |validators| / 2 ==>
                 d.BlockAt(k).None? || SignerOf(validators, d.BlockAt(k).value.header) != SignerOf(validators, header)
  {
    hide SignerOf;
    if |validators| > 1 && SignerOf(validators, header).Some? {
      assert SigningWindow(|validators|) == |validators| / 2 + 1;
      forall k: nat | k < header.height <= k + |validators| / 2
        ensures OtherSigner(validators, d, k, SignerOf(validators, header)) <==>
                d.BlockAt(k).None? || SignerOf(validators, d.BlockAt(k).value.header) != SignerOf(validators, header)
      {
      }
    }
  }

  function SignerAt(validators: seq<Bytes>, chain: seq<Block>, i: nat): Option<Bytes>
    requires i < |chain|
  {
    SignerOf(validators, chain[i].header)
  }

  /** Every block above genesis is signed, and signers within a window are pairwise distinct. */
  ghost predicate SignedChain(validators: seq<Bytes>, chain: seq<Block>) {
    && (forall i :: 1 <= i < |chain| ==> SignerAt(validators, chain, i).Some?)
    && (forall i, j :: 0 <= i < j < |chain| && j - i < SigningWindow(|validators|) ==> SignerAt(validators, chain, i) != SignerAt(validators, chain, j))
  }

  /** That is: among several validators, no two of any N/2 + 1 consecutive blocks have the same signer. */
  lemma SignedChainIs(validators: seq<Bytes>, chain: seq<Block>)
    requires |validators| > 1
    ensures SignedChain(validators, chain) <==>
            && (forall i :: 1 <= i < |chain| ==> SignerAt(validators, chain, i).Some?)
            && (forall lo: nat :: lo < |chain| ==> ApartFrom(validators, chain, lo))
  {
    if forall lo: nat :: lo < |chain| ==> ApartFrom(validators, chain, lo) {
      forall i, j | 0 <= i < j < |chain| && j - i < SigningWindow(|validators|)
        ensures SignerAt(validators, chain, i) != SignerAt(validators, chain, j)
      {
        assert ApartFrom(validators, chain, i);
      }
    }
  }

  /** The N/2 + 1 blocks from `lo` on, as far as there are any, have different signers. */
  ghost predicate ApartFrom(validators: seq<Bytes>, chain: seq<Block>, lo: nat) {
    forall i, j :: lo <= i < j < lo + |validators| / 2 + 1 && j < |chain| ==> SignerAt(validators, chain, i) != SignerAt(validators, chain, j)
  }

  lemma {:induction false} SignedGrows(validators: seq<Bytes>, d: Disk, chain: seq<Block>, b: Block)
    requires SignedChain(validators, chain) && HeightsAt(d, chain)
    requires b.header.height == |chain| && SignerOf(validators, b.header).Some? && SigningOk(validators, d, b.header)
    ensures SignedChain(validators, chain + [b])
  {
    var all := chain + [b];
    forall i, j | 0 <= i < j < |all| && j - i < SigningWindow(|validators|)
      ensures SignerAt(validators, all, i) != SignerAt(validators, all, j)
    {
      if j == |chain| {
        assert d.BlockAt(i) == Some(chain[i]);
        assert OtherSigner(validators, d, i, SignerOf(validators, b.header));
      } else {
        assert SignerAt(validators, chain, i) != SignerAt(validators, chain, j);
      }
    }
    forall i | 1 <= i < |all|
      ensures SignerAt(validators, all, i).Some?
    {
      if i < |chain| {
        assert SignerAt(validators, chain, i).Some?;
      }
    }
  }

  lemma SignedPrefix(validators: seq<Bytes>, chain: seq<Block>, n: nat)
    requires SignedChain(validators, chain) && n <= |chain|
    ensures SignedChain(validators, chain[..n])
  {
    var pre := chain[..n];
    forall i, j | 0 <= i < j < n && j - i < SigningWindow(|validators|)
      ensures SignerAt(validators, pre, i) != SignerAt(validators, pre, j)
    {
      assert SignerAt(validators, chain, i) != SignerAt(validators, chain, j);
    }
    forall i | 1 <= i < n
      ensures SignerAt(validators, pre, i).Some?
    {
      assert SignerAt(validators, chain, i).Some?;
    }
  }

  /** How many of the blocks lo to hi - 1 a key signed. */
  ghost function SignedCount(validators: seq<Bytes>, chain: seq<Block>, lo: nat, hi: nat, key: Bytes): nat
    requires lo <= hi <= |chain|
    decreases hi - lo
  {
    if lo == hi then 0 else
      SignedCount(validators, chain, lo, hi - 1, key) + (if SignerAt(validators, chain, hi - 1) == Some(key) then 1 else 0)
  }

  lemma {:induction false} WindowSignedOnce(validators: seq<Bytes>, chain: seq<Block>, lo: nat, hi: nat, key: Bytes)
    requires SignedChain(validators, chain) && lo <= hi <= |chain| && |validators| > 1 && hi - lo <= |validators| / 2 + 1
    ensures SignedCount(validators, chain, lo, hi, key) <= 1
    ensures SignedCount(validators, chain, lo, hi, key) == 1 ==> (exists i :: lo <= i < hi && SignerAt(validators, chain, i) == Some(key))
    decreases hi - lo
  {
    if lo < hi {
      WindowSignedOnce(validators, chain, lo, hi - 1, key);
    }
  }

  lemma {:induction false} SignedCountSplits(validators: seq<Bytes>, chain: seq<Block>, lo: nat, mid: nat, hi: nat, key: Bytes)
    requires lo <= mid <= hi <= |chain|
    ensures SignedCount(validators, chain, lo, hi, key) == SignedCount(validators, chain, lo, mid, key) + SignedCount(validators, chain, mid, hi, key)
    decreases hi - mid
  {
    if mid < hi {
      SignedCountSplits(validators, chain, lo, mid, hi - 1, key);
    }
  }

  /** Of any L consecutive blocks a validator signs at most ceil(L / w) with w = N/2+1: c blocks
      signed need more than (c - 1) * w blocks. */
  lemma {:induction false} SignedShare(validators: seq<Bytes>, chain: seq<Block>, lo: nat, hi: nat, key: Bytes)
    requires SignedChain(validators, chain) && lo <= hi <= |chain| && |validators| > 1
    ensures var c := SignedCount(validators, chain, lo, hi, key);
            c > 0 ==> (c - 1) * (|validators| / 2 + 1) < hi - lo
    decreases hi - lo
  {
    hide SignedCount, SignedChain;
    var w := |validators| / 2 + 1;
    if hi - lo <= w {
      WindowSignedOnce(validators, chain, lo, hi, key);
    } else {
      SignedShare(validators, chain, lo, hi - w, key);
      SignedCountSplits(validators, chain, lo, hi - w, hi, key);
      WindowSignedOnce(validators, chain, hi - w, hi, key);
      var c: int := SignedCount(validators, chain, lo, hi - w, key);
      assert c * w == (c - 1) * w + w;
    }
  }

  /** `key` signed one of the last blocks below `height` that the window still covers. */
  ghost predicate SignedRecently(validators: seq<Bytes>, d: Disk, height: nat, key: Bytes) {
    exists k: nat :: 1 <= k < height && height - k < SigningWindow(|validators|) && !OtherSigner(validators, d, k, Some(key))
  }

  /** In numbers: it signed one of the N/2 blocks below, genesis aside. */
  lemma SignedRecentlyIs(validators: seq<Bytes>, d: Disk, height: nat, key: Bytes)
    ensures SignedRecently(validators, d, height, key) <==>
            |validators| > 1 && exists k: nat :: 1 <= k < height <= k + |validators| / 2 && d.BlockAt(k).Some? && SignerOf(validators, d.BlockAt(k).value.header) == Some(key)
  {
    if |validators| > 1 && exists k: nat :: 1 <= k < height <= k + |validators| / 2 && d.BlockAt(k).Some? && SignerOf(validators, d.BlockAt(k).value.header) == Some(key) {
      var k: nat :| 1 <= k < height <= k + |validators| / 2 && d.BlockAt(k).Some? && SignerOf(validators, d.BlockAt(k).value.header) == Some(key);
      assert height - k < SigningWindow(|validators|) && !OtherSigner(validators, d, k, Some(key));
    }
  }

  /** Having signed recently is exactly what makes the next block of the same signer unacceptable:
      the unsigned genesis block never counts. */
  lemma {:induction false} RecentSignerIsRefused(validators: seq<Bytes>, d: Disk, header: Header, key: Bytes)
    requires SignerOf(validators, header) == Some(key)
    requires d.BlockAt(0).Some? ==> d.BlockAt(0).value.header.validatorSig == []
    ensures SignedRecently(validators, d, header.height, key) <==> !SigningOk(validators, d, header)
  {
    assert OtherSigner(validators, d, 0, Some(key));
    if !SigningOk(validators, d, header) {
      var k: nat :| k < header.height && header.height - k < SigningWindow(|validators|) && !OtherSigner(validators, d, k, Some(key));
      assert k != 0;
    }
  }
}
