/** The order in which a reservation walks the pool: round robin from a cursor that wraps around. */
module CandidateOrder {
  import opened Machine

  /** The cursor plus an offset, wrapped to 64 bits before it is reduced to a slot. */
  function Candidate(start: U64, offset: nat, len: nat): (i: nat)
    requires len > 0
    ensures i < len
  {
    (start + offset) % U64_BOUND % len
  }

  function Walk(start: U64, len: nat): (order: seq<nat>)
    requires len > 0
    ensures |order| == len && forall k :: 0 <= k < len ==> order[k] == Candidate(start, k, len)
  {
    seq(len, k requires 0 <= k => Candidate(start, k, len))
  }

  /** Every slot has its turn. */
  predicate Covers(start: U64, len: nat)
    requires len > 0
  {
    forall i :: 0 <= i < len ==> i in Walk(start, len)
  }

  /** The cursor does not wrap during the walk, or wraps without breaking the round. */
  predicate RoundIsWhole(start: U64, len: nat)
    requires len > 0
  {
    start + len <= U64_BOUND || U64_BOUND % len == 0
  }

  lemma ModShift(a: nat, q: nat, len: nat, r: nat)
    requires len > 0 && r < len && a == q * len + r
    ensures a % len == r
  {
    DivBounds(a, len);
    var d := a / len;
    if d < q {
      MulMono(d + 1, q, len);
      MulSplit(d, 1, len);
    } else if d > q {
      MulMono(q + 1, d, len);
      MulSplit(q, 1, len);
    }
  }

  /** Wrapping to a multiple of the pool size does not change the slot. */
  lemma WrapInvisible(a: nat, len: nat)
    requires len > 0 && a < 2 * U64_BOUND && U64_BOUND % len == 0
    ensures a % U64_BOUND % len == a % len
  {
    if a < U64_BOUND {
      SmallMod(a, U64_BOUND);
    } else {
      var b := a - U64_BOUND;
      ModShift(a, 1, U64_BOUND, b);
      DivBounds(U64_BOUND, len);
      DivBounds(b, len);
      MulSplit(U64_BOUND / len, b / len, len);
      ModShift(a, U64_BOUND / len + b / len, len, b % len);
    }
  }

  /** The offset at which a whole round reaches slot `i`. */
  lemma WholeRoundReaches(start: U64, len: nat, i: nat)
    requires 0 < len <= U64_BOUND && RoundIsWhole(start, len) && i < len
    ensures i in Walk(start, len)
  {
    DivBounds(start, len);
    var q, r := start / len, start % len;
    var k := if i >= r then i - r else i - r + len;
    if i >= r {
      ModShift(start + k, q, len, i);
    } else {
      MulSplit(q, 1, len);
      ModShift(start + k, q + 1, len, i);
    }
    if start + len <= U64_BOUND {
      SmallMod(start + k, U64_BOUND);
    } else {
      WrapInvisible(start + k, len);
    }
    assert Walk(start, len)[k] == i;
  }

  /** The slot a broken round leaves out. */
  function Skipped(start: U64, len: nat): (i: nat)
    requires 0 < len && !RoundIsWhole(start, len)
    ensures i < len
  {
    var left := U64_BOUND - start;
    var r := (U64_BOUND - 1) % len;
    assert r + 1 < len by { LastResidue(len); }
    if r + 1 >= len - left then r + 1 else len - left
  }

  lemma LastResidue(len: nat)
    requires len > 0 && U64_BOUND % len != 0
    ensures (U64_BOUND - 1) % len + 1 < len
  {
    DivBounds(U64_BOUND - 1, len);
    var q, r := (U64_BOUND - 1) / len, (U64_BOUND - 1) % len;
    if r == len - 1 {
      MulSplit(q, 1, len);
      ModShift(U64_BOUND, q + 1, len, 0);
    }
  }

  lemma SkippedNeverComes(start: U64, len: nat, k: nat)
    requires 0 < len <= U64_BOUND && !RoundIsWhole(start, len) && k < len
    ensures Candidate(start, k, len) != Skipped(start, len)
  {
    var left := U64_BOUND - start;
    LastResidue(len);
    DivBounds(U64_BOUND - 1, len);
    var q, r := (U64_BOUND - 1) / len, (U64_BOUND - 1) % len;
    if k < left {
      var back := left - 1 - k;
      SmallMod(start + k, U64_BOUND);
      assert start + k == q * len + r - back;
      if back <= r {
        ModShift(start + k, q, len, r - back);
      } else {
        assert q > 0;
        MulSplit(q - 1, 1, len);
        ModShift(start + k, q - 1, len, r - back + len);
      }
    } else {
      ModShift(start + k, 1, U64_BOUND, k - left);
      SmallMod(k - left, len);
    }
  }

  /** The walk is a permutation of the pool exactly when the round is whole. */
  lemma CoversIffWhole(start: U64, len: nat)
    requires 0 < len <= U64_BOUND
    ensures Covers(start, len) <==> RoundIsWhole(start, len)
  {
    if RoundIsWhole(start, len) {
      forall i | 0 <= i < len
        ensures i in Walk(start, len)
      {
        WholeRoundReaches(start, len, i);
      }
    } else {
      forall k | 0 <= k < len
        ensures Walk(start, len)[k] != Skipped(start, len)
      {
        SkippedNeverComes(start, len, k);
      }
      assert Skipped(start, len) !in Walk(start, len);
    }
  }

  /** A pool of three keys at the end of the 64-bit range: the last key is not a candidate at all. */
  lemma BrokenRound()
    ensures Walk(U64_BOUND - 1, 3) == [0, 0, 1]
    ensures !Covers(U64_BOUND - 1, 3)
  {
    var order := Walk(U64_BOUND - 1, 3);
    assert order[0] == 0 && order[1] == 0 && order[2] == 1;
    assert 2 !in order;
  }
}
