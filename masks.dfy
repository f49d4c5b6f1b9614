/** The ring masks over the flattened observation window (SCAN_MASKS), used
    to shape the policy's reward: mask `ring` is the square frame `ring` cells
    in from the edge of a d-by-d window, flattened row by row. */
module Masks {

  /** Distance in the max-norm: how many king moves apart two cells are. */
  function Chebyshev(dx: int, dy: int): (n: nat)
    ensures n >= dx && n >= -dx && n >= dy && n >= -dy
    ensures n == dx || n == -dx || n == dy || n == -dy
  {
    var ax := if dx < 0 then -dx else dx;
    var ay := if dy < 0 then -dy else dy;
    if ax < ay then ay else ax
  }

  /** Cell (r, c) of a d-by-d window lies on the square frame `ring` cells
      in from the window's edge. */
  predicate OnFrame(d: int, ring: int, r: int, c: int)
  {
    && ring <= r <= d - 1 - ring
    && ring <= c <= d - 1 - ring
    && (r == ring || r == d - 1 - ring || c == ring || c == d - 1 - ring)
  }

  /** Flat index k of the row-major d-by-d window lies on frame `ring`. */
  predicate InMask(d: nat, ring: int, k: int)
    requires d > 0
  {
    OnFrame(d, ring, k / d, k % d)
  }

  /** temp_mask[m, r, lo:hi] = True */
  method MarkRow(t: array3<bool>, m: nat, r: nat, lo: nat, hi: nat)
    requires m < t.Length0 && r < t.Length1 && lo <= hi <= t.Length2
    modifies t
    ensures forall a, b, c :: 0 <= a < t.Length0 && 0 <= b < t.Length1 && 0 <= c < t.Length2 ==>
              t[a, b, c] == (old(t[a, b, c]) || (a == m && b == r && lo <= c < hi))
  {
    var c := lo;
    while c < hi
      invariant lo <= c <= hi
      invariant forall a, b, c' :: 0 <= a < t.Length0 && 0 <= b < t.Length1 && 0 <= c' < t.Length2 ==>
                  t[a, b, c'] == (old(t[a, b, c']) || (a == m && b == r && lo <= c' < c))
    {
      t[m, r, c] := true;
      c := c + 1;
    }
  }

  /** temp_mask[m, lo:hi, c] = True */
  method MarkColumn(t: array3<bool>, m: nat, c: nat, lo: nat, hi: nat)
    requires m < t.Length0 && c < t.Length2 && lo <= hi <= t.Length1
    modifies t
    ensures forall a, b, c' :: 0 <= a < t.Length0 && 0 <= b < t.Length1 && 0 <= c' < t.Length2 ==>
              t[a, b, c'] == (old(t[a, b, c']) || (a == m && c' == c && lo <= b < hi))
  {
    var r := lo;
    while r < hi
      invariant lo <= r <= hi
      invariant forall a, b, c' :: 0 <= a < t.Length0 && 0 <= b < t.Length1 && 0 <= c' < t.Length2 ==>
                  t[a, b, c'] == (old(t[a, b, c']) || (a == m && c' == c && lo <= b < r))
    {
      t[m, r, c] := true;
      r := r + 1;
    }
  }

  /** The module-level construction of SCAN_MASKS for a window of side d:
      d // 2 masks of d * d cells, mask m marking the flat indices of frame m. */
  method BuildScanMasks(d: nat) returns (masks: array2<bool>)
    requires d > 0
    ensures masks.Length0 == d / 2 && masks.Length1 == d * d
    ensures forall m, k :: 0 <= m < d / 2 && 0 <= k < d * d ==> masks[m, k] == InMask(d, m, k)
  {
    var h := d / 2;
    var t := new bool[h, d, d]((_, _, _) => false);
    var m := 0;
    while m < h
      invariant 0 <= m <= h
      invariant forall a, b, c :: 0 <= a < h && 0 <= b < d && 0 <= c < d ==>
                  t[a, b, c] == (a < m && OnFrame(d, a, b, c))
      modifies t
    {
      MarkRow(t, m, m, m, d - m);
      MarkColumn(t, m, d - 1 - m, m, d - 1 - m);
      MarkColumn(t, m, m, m, d - m);
      MarkRow(t, m, d - 1 - m, m, d - m);
      m := m + 1;
    }

    masks := new bool[h, d * d]((_, _) => false);
    m := 0;
    while m < h
      invariant 0 <= m <= h
      invariant forall a, k :: 0 <= a < h && 0 <= k < d * d ==> masks[a, k] == (a < m && InMask(d, a, k))
      modifies masks
    {
      var k := 0;
      while k < d * d
        invariant 0 <= k <= d * d
        invariant forall a, k' :: 0 <= a < h && 0 <= k' < d * d ==>
                    masks[a, k'] == ((a < m || (a == m && k' < k)) && InMask(d, a, k'))
        modifies masks
      {
        FlatBounds(d, k);
        masks[m, k] := t[m, k / d, k % d];
        k := k + 1;
      }
      m := m + 1;
    }
  }

  lemma FlatBounds(d: nat, k: int)
    requires d > 0 && 0 <= k < d * d
    ensures 0 <= k / d < d && 0 <= k % d < d
  {
    if k / d >= d {
      MulAtLeast(d, k / d, d);
    }
  }

  lemma MulAtLeast(a: nat, b: int, c: int)
    requires b >= c
    ensures a * b >= a * c
  {
  }

  /** Euclidean division is unique: a quotient and a remainder in [0, d)
      that recompose k are k / d and k % d. */
  lemma DivUnique(d: nat, k: int, q: int, m: int)
    requires d > 0 && 0 <= m < d && k == q * d + m
    ensures k / d == q && k % d == m
  {
    var q', m' := k / d, k % d;
    assert k == q' * d + m';
    assert (q - q') * d == m' - m;
    assert (q' - q) * d == m - m';
    if q > q' {
      MulAtLeast(d, q - q', 1);
      assert false;
    } else if q < q' {
      MulAtLeast(d, q' - q, 1);
      assert false;
    }
  }

  /** Row-major flattening is a bijection: index r * d + c is cell (r, c). */
  lemma FlatIndex(d: nat, r: int, c: int)
    requires 0 <= r < d && 0 <= c < d
    ensures 0 <= r * d + c < d * d
    ensures (r * d + c) / d == r && (r * d + c) % d == c
  {
    MulAtLeast(d, d - 1, r);
    assert (d - 1) * d + d == d * d;
    DivUnique(d, r * d + c, r, c);
  }

  /** The flat index i * d + j of the scan buffer (world cell x - R + i,
      y - R + j for an agent at (x, y)) lies on mask `ring` exactly when
      that cell is at Chebyshev distance R - ring from the agent. */
  lemma MaskSelectsRing(d: nat, ring: int, i: int, j: int)
    requires d % 2 == 1 && 0 <= ring < d / 2
    requires 0 <= i < d && 0 <= j < d
    ensures InMask(d, ring, i * d + j) <==> Chebyshev(i - d / 2, j - d / 2) == d / 2 - ring
  {
    FlatIndex(d, i, j);
  }

  /** The masks split the window: every flat index other than the centre
      R * d + R lies on exactly one mask, and the centre lies on none. */
  lemma MasksPartitionWindow(d: nat, k: int)
    requires d % 2 == 1 && 0 <= k < d * d
    ensures k == (d / 2) * d + d / 2 <==> forall ring :: 0 <= ring < d / 2 ==> !InMask(d, ring, k)
    ensures k != (d / 2) * d + d / 2 ==> InMask(d, d / 2 - Chebyshev(k / d - d / 2, k % d - d / 2), k)
    ensures forall a, b :: InMask(d, a, k) && InMask(d, b, k) ==> a == b
  {
    var R := d / 2;
    FlatBounds(d, k);
    var r, c := k / d, k % d;
    FlatIndex(d, r, c);
    assert k == r * d + c;
    FlatIndex(d, R, R);
    var ring := R - Chebyshev(r - R, c - R);
    if k != R * d + R {
      assert r != R || c != R;
      assert 0 <= ring < R;
      assert InMask(d, ring, k);
    }
  }

  /** Number of the first c cells of row r that lie on frame `ring`. */
  function RowCount(d: int, ring: int, r: int, c: nat): nat
  {
    if c == 0 then 0 else RowCount(d, ring, r, c - 1) + (if OnFrame(d, ring, r, c - 1) then 1 else 0)
  }

  /** Number of flat indices below n that lie on mask `ring`. */
  function MaskCount(d: nat, ring: int, n: nat): nat
    requires d > 0
  {
    if n == 0 then 0 else MaskCount(d, ring, n - 1) + (if InMask(d, ring, n - 1) then 1 else 0)
  }

  /** Total of RowCount over the first r full rows. */
  function RowsBefore(d: nat, ring: int, r: nat): nat
  {
    if r == 0 then 0 else RowsBefore(d, ring, r - 1) + RowCount(d, ring, r - 1, d)
  }

  lemma {:induction false} RowCountClosed(d: nat, ring: int, r: int, c: nat)
    requires 0 <= ring && 2 * ring < d - 1
    ensures RowCount(d, ring, r, c) ==
      if r == ring || r == d - 1 - ring then
        (if c <= ring then 0 else if c >= d - ring then d - 2 * ring else c - ring)
      else if ring < r < d - 1 - ring then
        (if c > ring then 1 else 0) + (if c > d - 1 - ring then 1 else 0)
      else 0
  {
    if c > 0 {
      RowCountClosed(d, ring, r, c - 1);
    }
  }

  lemma {:induction false} RowsBeforeClosed(d: nat, ring: int, r: nat)
    requires 0 <= ring && 2 * ring < d - 1 && r <= d
    ensures RowsBefore(d, ring, r) ==
      (if r > ring then d - 2 * ring else 0)
      + 2 * (if r <= ring + 1 then 0 else if r >= d - 1 - ring then d - 2 - 2 * ring else r - ring - 1)
      + (if r > d - 1 - ring then d - 2 * ring else 0)
  {
    if r > 0 {
      RowsBeforeClosed(d, ring, r - 1);
      RowCountClosed(d, ring, r - 1, d);
    }
  }

  lemma {:induction false} MaskCountByRows(d: nat, ring: int, r: nat, c: nat)
    requires d > 0 && r < d && c <= d
    ensures MaskCount(d, ring, r * d + c) == RowsBefore(d, ring, r) + RowCount(d, ring, r, c)
    decreases r, c
  {
    if c > 0 {
      MaskCountByRows(d, ring, r, c - 1);
      FlatIndex(d, r, c - 1);
      assert r * d + c - 1 == r * d + (c - 1);
    } else if r > 0 {
      MaskCountByRows(d, ring, r - 1, d);
      assert (r - 1) * d + d == r * d;
    }
  }

  /** Mask `ring` of an odd window marks exactly 8 * (R - ring) cells. */
  lemma MaskSize(d: nat, ring: int)
    requires d % 2 == 1 && 0 <= ring < d / 2
    ensures MaskCount(d, ring, d * d) == 8 * (d / 2 - ring)
  {
    MaskCountByRows(d, ring, d - 1, d);
    assert (d - 1) * d + d == d * d;
    RowsBeforeClosed(d, ring, d - 1);
    RowCountClosed(d, ring, d - 1, d);
  }

  /** Sum, over the flat indices below n on mask `ring`, of the change between
      the previous and the current observation. */
  function RingSum(d: nat, ring: int, cur: seq<int>, prev: seq<int>, n: nat): int
    requires d > 0 && n <= |cur| && n <= |prev|
  {
    if n == 0 then 0
    else RingSum(d, ring, cur, prev, n - 1) + (if InMask(d, ring, n - 1) then cur[n - 1] - prev[n - 1] else 0)
  }

  /** The list handed to the policy's reward hook: one masked sum of
      current minus previous observation per mask, outermost mask first. */
  function RingDeltas(d: nat, cur: seq<int>, prev: seq<int>): (r: seq<int>)
    requires d > 0 && |cur| == d * d && |prev| == d * d
    ensures |r| == d / 2
  {
    seq(d / 2, ring => RingSum(d, ring, cur, prev, d * d))
  }

  /** Sum, over the flat indices below n whose cell lies at Chebyshev
      distance `dist` from the window's centre, of the change between the
      previous and the current observation. */
  function DistanceSum(d: nat, dist: int, cur: seq<int>, prev: seq<int>, n: nat): int
    requires d > 0 && n <= |cur| && n <= |prev|
  {
    if n == 0 then 0
    else DistanceSum(d, dist, cur, prev, n - 1)
         + (if Chebyshev((n - 1) / d - d / 2, (n - 1) % d - d / 2) == dist then cur[n - 1] - prev[n - 1] else 0)
  }

  lemma {:induction false} RingSumIsDistanceSum(d: nat, ring: int, cur: seq<int>, prev: seq<int>, n: nat)
    requires d % 2 == 1 && 0 <= ring < d / 2 && n <= d * d && n <= |cur| && n <= |prev|
    ensures RingSum(d, ring, cur, prev, n) == DistanceSum(d, d / 2 - ring, cur, prev, n)
  {
    if n > 0 {
      RingSumIsDistanceSum(d, ring, cur, prev, n - 1);
      MaskAtDistance(d, ring, n - 1);
    }
  }

  /** MaskSelectsRing, read at a flat index rather than at a cell. */
  lemma MaskAtDistance(d: nat, ring: int, k: int)
    requires d % 2 == 1 && 0 <= ring < d / 2 && 0 <= k < d * d
    ensures InMask(d, ring, k) <==> Chebyshev(k / d - d / 2, k % d - d / 2) == d / 2 - ring
  {
    FlatBounds(d, k);
    var i, j := k / d, k % d;
    assert i * d + j == k;
    MaskSelectsRing(d, ring, i, j);
  }

  /** Entry m of the reward signal is the total change over the window cells
      at Chebyshev distance R - m from the agent: the outermost ring first,
      the ring next to the agent last. */
  lemma RingDeltasMeaning(d: nat, cur: seq<int>, prev: seq<int>)
    requires d % 2 == 1 && |cur| == d * d && |prev| == d * d
    ensures forall m :: 0 <= m < d / 2 ==> RingDeltas(d, cur, prev)[m] == DistanceSum(d, d / 2 - m, cur, prev, d * d)
  {
    forall m | 0 <= m < d / 2
      ensures RingDeltas(d, cur, prev)[m] == DistanceSum(d, d / 2 - m, cur, prev, d * d)
    {
      RingSumIsDistanceSum(d, m, cur, prev, d * d);
    }
  }

  lemma {:induction false} RingSumUnchanged(d: nat, ring: int, s: seq<int>, n: nat)
    requires d > 0 && n <= |s|
    ensures RingSum(d, ring, s, s, n) == 0
  {
    if n > 0 {
      RingSumUnchanged(d, ring, s, n - 1);
    }
  }

  /** An observation that did not change gives a zero reward signal on every ring. */
  lemma RingDeltasUnchanged(d: nat, s: seq<int>)
    requires d > 0 && |s| == d * d
    ensures forall ring :: 0 <= ring < d / 2 ==> RingDeltas(d, s, s)[ring] == 0
  {
    forall ring | 0 <= ring < d / 2
      ensures RingDeltas(d, s, s)[ring] == 0
    {
      RingSumUnchanged(d, ring, s, d * d);
    }
  }
}
