/** What a scraper's `.each` loop over parsed result blocks collects: one record
    per accepted block, in block order. Both adapters cap this list. */
module Blocks {
  import opened Sequences

  /** The records built from `blocks[i..]`: `build(b, j)` for every block `b` at
      position `j` that `keep` accepts, in block order. */
  function Collected<B, R>(blocks: seq<B>, keep: B -> bool, build: (B, nat) -> R, i: nat): seq<R>
    requires i <= |blocks|
    decreases |blocks| - i
  {
    if i == |blocks| then []
    else (if keep(blocks[i]) then [build(blocks[i], i)] else []) + Collected(blocks, keep, build, i + 1)
  }

  /** The positions from `i` on whose blocks `keep` accepts: exactly those,
      each once, in increasing order. */
  function KeptPositions<B>(blocks: seq<B>, keep: B -> bool, i: nat): seq<nat>
    requires i <= |blocks|
    decreases |blocks| - i
  {
    if i == |blocks| then []
    else (if keep(blocks[i]) then [i] else []) + KeptPositions(blocks, keep, i + 1)
  }

  /** Every kept position is an accepted block from `i` on. */
  lemma {:induction false} KeptPositionsAccepted<B>(blocks: seq<B>, keep: B -> bool, i: nat)
    requires i <= |blocks|
    ensures forall k :: 0 <= k < |KeptPositions(blocks, keep, i)| ==>
      i <= KeptPositions(blocks, keep, i)[k] < |blocks| && keep(blocks[KeptPositions(blocks, keep, i)[k]])
    decreases |blocks| - i
  {
    if i < |blocks| {
      KeptPositionsAccepted(blocks, keep, i + 1);
      var ps := KeptPositions(blocks, keep, i + 1);
      var aps := KeptPositions(blocks, keep, i);
      if keep(blocks[i]) {
        assert aps == [i] + ps;
        forall k | 0 < k < |aps| ensures aps[k] == ps[k - 1] {}
      } else {
        assert aps == ps;
      }
    }
  }

  /** The kept positions increase, so each block is kept at most once and
      records follow block order. */
  lemma {:induction false} KeptPositionsIncreasing<B>(blocks: seq<B>, keep: B -> bool, i: nat)
    requires i <= |blocks|
    ensures forall k, l :: 0 <= k < l < |KeptPositions(blocks, keep, i)| ==>
      KeptPositions(blocks, keep, i)[k] < KeptPositions(blocks, keep, i)[l]
    decreases |blocks| - i
  {
    if i < |blocks| {
      KeptPositionsIncreasing(blocks, keep, i + 1);
      KeptPositionsAccepted(blocks, keep, i + 1);
      var ps := KeptPositions(blocks, keep, i + 1);
      var aps := KeptPositions(blocks, keep, i);
      if keep(blocks[i]) {
        assert aps == [i] + ps;
        forall k, l | 0 <= k < l < |aps| ensures aps[k] < aps[l] {
          assert aps[l] == ps[l - 1] && i + 1 <= ps[l - 1];
          if k > 0 {
            assert aps[k] == ps[k - 1];
          }
        }
      } else {
        assert aps == ps;
      }
    }
  }

  /** Every accepted block from `i` on is kept. */
  lemma {:induction false} KeptPositionsComplete<B>(blocks: seq<B>, keep: B -> bool, i: nat)
    requires i <= |blocks|
    ensures forall j :: i <= j < |blocks| && keep(blocks[j]) ==> j in KeptPositions(blocks, keep, i)
    decreases |blocks| - i
  {
    if i < |blocks| {
      KeptPositionsComplete(blocks, keep, i + 1);
      var ps := KeptPositions(blocks, keep, i + 1);
      var aps := KeptPositions(blocks, keep, i);
      if keep(blocks[i]) {
        assert aps == [i] + ps;
      } else {
        assert aps == ps;
      }
    }
  }

  /** The `k`-th collected record is built from the `k`-th accepted block. */
  lemma {:induction false} CollectedAt<B, R>(blocks: seq<B>, keep: B -> bool, build: (B, nat) -> R, i: nat)
    requires i <= |blocks|
    ensures |Collected(blocks, keep, build, i)| == |KeptPositions(blocks, keep, i)|
    ensures forall k :: 0 <= k < |Collected(blocks, keep, build, i)| ==>
      && KeptPositions(blocks, keep, i)[k] < |blocks|
      && Collected(blocks, keep, build, i)[k] == build(blocks[KeptPositions(blocks, keep, i)[k]], KeptPositions(blocks, keep, i)[k])
    decreases |blocks| - i
  {
    KeptPositionsAccepted(blocks, keep, i);
    if i < |blocks| {
      CollectedAt(blocks, keep, build, i + 1);
      var rest := Collected(blocks, keep, build, i + 1);
      var ps := KeptPositions(blocks, keep, i + 1);
      if keep(blocks[i]) {
        var all := Collected(blocks, keep, build, i);
        var aps := KeptPositions(blocks, keep, i);
        assert all == [build(blocks[i], i)] + rest;
        assert aps == [i] + ps;
        forall k | 0 <= k < |all| ensures all[k] == build(blocks[aps[k]], aps[k]) {
          if k > 0 {
            assert all[k] == rest[k - 1] && aps[k] == ps[k - 1];
          }
        }
      } else {
        assert Collected(blocks, keep, build, i) == rest;
        assert KeptPositions(blocks, keep, i) == ps;
      }
    }
  }

  /** A property every accepted block's record has holds of every collected record. */
  lemma {:induction false} CollectedAll<B, R>(blocks: seq<B>, keep: B -> bool, build: (B, nat) -> R, prop: R -> bool, i: nat)
    requires i <= |blocks|
    requires forall j :: i <= j < |blocks| && keep(blocks[j]) ==> prop(build(blocks[j], j))
    ensures forall k :: 0 <= k < |Collected(blocks, keep, build, i)| ==> prop(Collected(blocks, keep, build, i)[k])
    decreases |blocks| - i
  {
    if i < |blocks| {
      CollectedAll(blocks, keep, build, prop, i + 1);
      var rest := Collected(blocks, keep, build, i + 1);
      if keep(blocks[i]) {
        var all := Collected(blocks, keep, build, i);
        assert all == [build(blocks[i], i)] + rest;
        forall k | 0 < k < |all| ensures all[k] == rest[k - 1] {}
      }
    }
  }

  lemma CollectedStep<B, R>(blocks: seq<B>, keep: B -> bool, build: (B, nat) -> R, i: nat)
    requires i < |blocks|
    ensures Collected(blocks, keep, build, i)
      == (if keep(blocks[i]) then [build(blocks[i], i)] else []) + Collected(blocks, keep, build, i + 1)
  {
  }

  /** The `.each` loop both adapters run: it returns `false` (stops) once `cap`
      records are in, returns early (skips) on a block `keep` rejects, and
      otherwise pushes `build(block, index)`. */
  method CollectCapped<B, R>(blocks: seq<B>, keep: B -> bool, build: (B, nat) -> R, cap: nat)
    returns (results: seq<R>)
    ensures results == Cap(Collected(blocks, keep, build, 0), cap)
  {
    results := [];
    var i := 0;
    while i < |blocks|
      invariant i <= |blocks|
      invariant |results| <= cap
      invariant results + Collected(blocks, keep, build, i) == Collected(blocks, keep, build, 0)
    {
      if |results| >= cap {
        break;
      }
      ghost var rest := Collected(blocks, keep, build, i + 1);
      CollectedStep(blocks, keep, build, i);
      if keep(blocks[i]) {
        var record := build(blocks[i], i);
        assert (results + [record]) + rest == results + ([record] + rest);
        results := results + [record];
      }
      i := i + 1;
    }
    CapPrefix(results, Collected(blocks, keep, build, i), cap);
  }
}
