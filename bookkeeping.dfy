/** Pure definitions behind the simulation's list and map bookkeeping: the
    last-writer-wins rebuild of the coordinate map, the death sweep that
    removes from the list it iterates, and counting. */
module Bookkeeping {

  // ---------------------------------------------------------------------
  // Last writer wins

  /** `m` with the entries written one after the other, later ones
      overwriting earlier ones at the same key. */
  function Overlay<K(==), V>(m: map<K, V>, entries: seq<(K, V)>): map<K, V>
  {
    if entries == [] then m
    else Overlay(m, entries[..|entries| - 1])[entries[|entries| - 1].0 := entries[|entries| - 1].1]
  }

  /** Index of the last entry written at key `k`, or -1 if none is. */
  function LastIndexOf<K(==), V>(entries: seq<(K, V)>, k: K): (r: int)
    ensures -1 <= r < |entries|
    ensures r >= 0 ==> entries[r].0 == k
    ensures forall j :: r < j < |entries| ==> entries[j].0 != k
  {
    if entries == [] then -1
    else if entries[|entries| - 1].0 == k then |entries| - 1
    else LastIndexOf(entries[..|entries| - 1], k)
  }

  /** Keys of the overlay: those of the base and those written; the value at
      a written key is the one of the last entry at that key, elsewhere the
      base's value. */
  lemma {:induction false} OverlayAt<K, V>(m: map<K, V>, entries: seq<(K, V)>, k: K)
    ensures k in Overlay(m, entries) <==> k in m || LastIndexOf(entries, k) >= 0
    ensures LastIndexOf(entries, k) >= 0 ==> Overlay(m, entries)[k] == entries[LastIndexOf(entries, k)].1
    ensures LastIndexOf(entries, k) < 0 && k in m ==> Overlay(m, entries)[k] == m[k]
  {
    if entries != [] {
      OverlayAt(m, entries[..|entries| - 1], k);
    }
  }

  lemma OverlayAppend<K, V>(m: map<K, V>, entries: seq<(K, V)>, e: (K, V))
    ensures Overlay(m, entries + [e]) == Overlay(m, entries)[e.0 := e.1]
  {
    assert (entries + [e])[..|entries|] == entries;
  }

  /** Overlaying one more entry of a list writes that entry last. */
  lemma OverlayPrefix<K, V>(m: map<K, V>, entries: seq<(K, V)>, k: nat)
    requires k < |entries|
    ensures Overlay(m, entries[..k + 1]) == Overlay(m, entries[..k])[entries[k].0 := entries[k].1]
  {
    assert entries[..k + 1][..k] == entries[..k];
  }

  /** A sequence is its prefix followed by the rest. */
  lemma SplitAt<T>(s: seq<T>, n: nat)
    requires n <= |s|
    ensures s == s[..n] + s[n..]
  {
  }

  /** The slices of a sequence with one more element at its end. */
  lemma SnocSlices<T>(s: seq<T>, n: nat, c: T)
    requires n <= |s|
    ensures (s + [c])[..n] == s[..n] && (s + [c])[n..] == s[n..] + [c]
  {
  }

  /** Slicing a sequence at its end. */
  lemma EndSlices<T>(s: seq<T>)
    ensures s[..|s|] == s && s[|s|..] == [] && s[0..] == s
  {
  }

  /** Writing two runs of entries one after the other is writing their concatenation. */
  lemma {:induction false} OverlayConcat<K, V>(m: map<K, V>, a: seq<(K, V)>, b: seq<(K, V)>)
    ensures Overlay(Overlay(m, a), b) == Overlay(m, a + b)
    decreases |b|
  {
    if b == [] {
      assert a + b == a;
    } else {
      OverlayConcat(m, a, b[..|b| - 1]);
      assert (a + b)[..|a + b| - 1] == a + b[..|b| - 1];
    }
  }

  /** Three runs written one after the other on an empty map. */
  lemma OverlayChain<K, V>(w1: map<K, V>, w2: map<K, V>, w: map<K, V>, a: seq<(K, V)>, b: seq<(K, V)>, c: seq<(K, V)>)
    requires w1 == Overlay(map[], a) && w2 == Overlay(w1, b) && w == Overlay(w2, c)
    ensures w == Overlay(map[], a + b + c)
  {
    OverlayConcat(map[], a, b);
    OverlayConcat(map[], a + b, c);
  }

  /** Every value of the overlay comes from the base or from an entry
      written at that very key. */
  lemma {:induction false} OverlayValues<K, V>(m: map<K, V>, entries: seq<(K, V)>, k: K)
    requires k in Overlay(m, entries)
    ensures (k in m && Overlay(m, entries)[k] == m[k])
            || exists j :: 0 <= j < |entries| && entries[j] == (k, Overlay(m, entries)[k])
  {
    OverlayAt(m, entries, k);
    var j := LastIndexOf(entries, k);
    if j >= 0 {
      assert entries[j] == (k, Overlay(m, entries)[k]);
    }
  }

  // ---------------------------------------------------------------------
  // The death sweep

  /** What a Python loop `for x in s: if x in doomed: s.remove(x)` leaves
      of a duplicate-free list, from loop index i on: the iterator is an
      index that moves on after a removal, so the element that slides into
      the removed one's place is never examined. */
  function SweepFrom<T(==)>(s: seq<T>, doomed: set<T>, i: nat): seq<T>
    decreases |s| - i
  {
    if i >= |s| then s
    else if s[i] in doomed then SweepFrom(s[..i] + s[i + 1..], doomed, i + 1)
    else SweepFrom(s, doomed, i + 1)
  }

  /** The elements that loop removes, in order. */
  function CulledFrom<T(==)>(s: seq<T>, doomed: set<T>, i: nat): seq<T>
    decreases |s| - i
  {
    if i >= |s| then []
    else if s[i] in doomed then [s[i]] + CulledFrom(s[..i] + s[i + 1..], doomed, i + 1)
    else CulledFrom(s, doomed, i + 1)
  }

  /** Reference definition of the sweep, by structure: a doomed element is
      removed and the one after it escapes examination. */
  function Survivors<T(==)>(s: seq<T>, doomed: set<T>): seq<T>
  {
    if s == [] then []
    else if s[0] !in doomed then [s[0]] + Survivors(s[1..], doomed)
    else if |s| == 1 then []
    else [s[1]] + Survivors(s[2..], doomed)
  }

  function Casualties<T(==)>(s: seq<T>, doomed: set<T>): seq<T>
  {
    if s == [] then []
    else if s[0] !in doomed then Casualties(s[1..], doomed)
    else if |s| == 1 then [s[0]]
    else [s[0]] + Casualties(s[2..], doomed)
  }

  lemma {:induction false} SweepFromMatches<T>(s: seq<T>, doomed: set<T>, i: nat)
    requires i <= |s|
    ensures SweepFrom(s, doomed, i) == s[..i] + Survivors(s[i..], doomed)
    ensures CulledFrom(s, doomed, i) == Casualties(s[i..], doomed)
    decreases |s| - i
  {
    if i == |s| {
      assert s[..i] == s;
    } else if s[i] !in doomed {
      SweepFromMatches(s, doomed, i + 1);
      assert s[..i + 1] == s[..i] + [s[i]];
      assert s[i..][1..] == s[i + 1..];
    } else {
      var t := s[..i] + s[i + 1..];
      if i + 1 == |s| {
        assert t == s[..i];
        assert s[i..] == [s[i]];
      } else {
        SweepFromMatches(t, doomed, i + 1);
        assert t[..i + 1] == s[..i] + [s[i + 1]];
        assert t[i + 1..] == s[i + 2..];
        assert s[i..][2..] == s[i + 2..];
        assert s[i..][1] == s[i + 1];
      }
    }
  }

  /** The sweep as the loop does it agrees with the reference definition. */
  lemma SweepIsSurvivors<T>(s: seq<T>, doomed: set<T>)
    ensures SweepFrom(s, doomed, 0) == Survivors(s, doomed)
    ensures CulledFrom(s, doomed, 0) == Casualties(s, doomed)
  {
    SweepFromMatches(s, doomed, 0);
    assert s[0..] == s;
  }

  /** `a` is `b` with some elements left out, order kept. */
  predicate Subsequence<T(==)>(a: seq<T>, b: seq<T>)
    decreases |b|
  {
    if a == [] then true
    else if b == [] then false
    else if a[0] == b[0] then Subsequence(a[1..], b[1..])
    else Subsequence(a, b[1..])
  }

  lemma {:induction false} SubsequenceOfTail<T>(a: seq<T>, b: seq<T>)
    requires |b| > 0 && Subsequence(a, b[1..])
    ensures Subsequence(a, b)
    decreases |b|, 0
  {
    if a != [] && a[0] == b[0] {
      SubsequenceDropHead(a, b[1..]);
    }
  }

  lemma {:induction false} SubsequenceDropHead<T>(a: seq<T>, c: seq<T>)
    requires a != [] && Subsequence(a, c)
    ensures Subsequence(a[1..], c)
    decreases |c|, 1
  {
    if a[0] == c[0] {
      SubsequenceOfTail(a[1..], c);
    } else {
      SubsequenceDropHead(a, c[1..]);
      SubsequenceOfTail(a[1..], c);
    }
  }

  /** Survivors keep their relative order. */
  lemma {:induction false} SurvivorsKeepOrder<T>(s: seq<T>, doomed: set<T>)
    ensures Subsequence(Survivors(s, doomed), s)
  {
    if s == [] {
    } else if s[0] !in doomed {
      SurvivorsKeepOrder(s[1..], doomed);
    } else if |s| == 1 {
    } else {
      SurvivorsKeepOrder(s[2..], doomed);
      assert s[1..][1..] == s[2..];
      assert Subsequence(Survivors(s, doomed), s[1..]);
      SubsequenceOfTail(Survivors(s, doomed), s);
    }
  }

  /** Survivors and casualties together are the list. */
  lemma {:induction false} SurvivorsSplitList<T>(s: seq<T>, doomed: set<T>)
    ensures multiset(Survivors(s, doomed)) + multiset(Casualties(s, doomed)) == multiset(s)
    decreases |s|, 1
  {
    if s == [] {
    } else if s[0] !in doomed {
      SplitKept(s, doomed);
    } else if |s| > 1 {
      SplitCulled(s, doomed);
    } else {
      assert Casualties(s, doomed) == s;
    }
  }

  /** SurvivorsSplitList when the head survives. */
  lemma {:induction false} SplitKept<T>(s: seq<T>, doomed: set<T>)
    requires s != [] && s[0] !in doomed
    ensures multiset(Survivors(s, doomed)) + multiset(Casualties(s, doomed)) == multiset(s)
    decreases |s|, 0
  {
    var t := s[1..];
    SurvivorsSplitList(t, doomed);
    assert s == [s[0]] + t;
    Regroup([], [s[0]], Survivors(t, doomed), Casualties(t, doomed), t);
    assert [] + Casualties(t, doomed) == Casualties(t, doomed);
  }

  /** SurvivorsSplitList when the head is removed and its successor escapes. */
  lemma {:induction false} SplitCulled<T>(s: seq<T>, doomed: set<T>)
    requires |s| > 1 && s[0] in doomed
    ensures multiset(Survivors(s, doomed)) + multiset(Casualties(s, doomed)) == multiset(s)
    decreases |s|, 0
  {
    var t := s[2..];
    SurvivorsSplitList(t, doomed);
    assert s == [s[0]] + [s[1]] + t;
    Regroup([s[0]], [s[1]], Survivors(t, doomed), Casualties(t, doomed), t);
  }

  /** Multiset bookkeeping for one step of SurvivorsSplitList. */
  lemma Regroup<T>(x: seq<T>, y: seq<T>, a: seq<T>, b: seq<T>, t: seq<T>)
    requires multiset(a) + multiset(b) == multiset(t)
    ensures multiset(y + a) + multiset(x + b) == multiset(x + y + t)
  {
  }

  /** Every casualty was doomed. */
  lemma {:induction false} CasualtiesAreDoomed<T>(s: seq<T>, doomed: set<T>)
    ensures forall x :: x in Casualties(s, doomed) ==> x in doomed
  {
    if s == [] {
    } else if s[0] !in doomed {
      CasualtiesAreDoomed(s[1..], doomed);
    } else if |s| > 1 {
      CasualtiesAreDoomed(s[2..], doomed);
    }
  }

  /** Only doomed elements disappear: an element that is not doomed survives. */
  lemma SparedSurvive<T>(s: seq<T>, doomed: set<T>, x: T)
    requires x in s && x !in doomed
    ensures x in Survivors(s, doomed)
  {
    SurvivorsSplitList(s, doomed);
    assert x in multiset(s);
  }

  /** The element right after a removed one is kept even when it is doomed
      itself: of two doomed neighbours at the front, the second survives. */
  lemma {:induction false} SuccessorOfCasualtySurvives<T>(s: seq<T>, doomed: set<T>)
    requires |s| >= 2 && s[0] in doomed && s[1] in doomed
    ensures s[1] in Survivors(s, doomed) && s[0] in Casualties(s, doomed)
  {
  }

  /** No element occurs twice. */
  predicate Distinct<T(==)>(s: seq<T>)
  {
    forall i, j :: 0 <= i < j < |s| ==> s[i] != s[j]
  }

  lemma DistinctCons<T>(h: T, t: seq<T>)
    ensures Distinct([h] + t) <==> h !in t && Distinct(t)
  {
    if h in t {
      var k :| 0 <= k < |t| && t[k] == h;
      assert ([h] + t)[0] == ([h] + t)[k + 1];
      assert !Distinct([h] + t);
    }
    if Distinct([h] + t) {
      forall i, j | 0 <= i < j < |t|
        ensures t[i] != t[j]
      {
        assert ([h] + t)[i + 1] == t[i] && ([h] + t)[j + 1] == t[j];
      }
    }
    if h !in t && Distinct(t) {
      forall i, j | 0 <= i < j < |t| + 1
        ensures ([h] + t)[i] != ([h] + t)[j]
      {
        assert ([h] + t)[j] == t[j - 1] && t[j - 1] in t;
        if i > 0 {
          assert ([h] + t)[i] == t[i - 1];
        }
      }
    }
  }

  /** The sweep keeps only elements of the list. */
  lemma {:induction false} SurvivorsWithin<T>(s: seq<T>, doomed: set<T>)
    ensures forall x :: x in Survivors(s, doomed) ==> x in s
  {
    if s == [] {
    } else if s[0] !in doomed {
      SurvivorsWithin(s[1..], doomed);
    } else if |s| > 1 {
      SurvivorsWithin(s[2..], doomed);
    }
  }

  /** The sweep of a duplicate-free list is duplicate-free. */
  lemma {:induction false} SurvivorsDistinct<T>(s: seq<T>, doomed: set<T>)
    requires Distinct(s)
    ensures Distinct(Survivors(s, doomed))
  {
    if s == [] {
    } else if s[0] !in doomed {
      assert s == [s[0]] + s[1..];
      DistinctCons(s[0], s[1..]);
      SurvivorsDistinct(s[1..], doomed);
      SurvivorsWithin(s[1..], doomed);
      DistinctCons(s[0], Survivors(s[1..], doomed));
    } else if |s| > 1 {
      assert s == [s[0]] + ([s[1]] + s[2..]);
      DistinctCons(s[0], [s[1]] + s[2..]);
      DistinctCons(s[1], s[2..]);
      SurvivorsDistinct(s[2..], doomed);
      SurvivorsWithin(s[2..], doomed);
      DistinctCons(s[1], Survivors(s[2..], doomed));
    }
  }

  /** Position of the first occurrence of x. */
  function IndexOf<T(==)>(s: seq<T>, x: T): (r: nat)
    requires x in s
    ensures r < |s| && s[r] == x
    ensures forall k :: 0 <= k < r ==> s[k] != x
  {
    if s[0] == x then 0 else 1 + IndexOf(s[1..], x)
  }

  // ---------------------------------------------------------------------
  // Counting

  function Count<T(==)>(s: seq<T>, x: T): (n: nat)
    ensures n <= |s|
  {
    if s == [] then 0 else Count(s[..|s| - 1], x) + (if s[|s| - 1] == x then 1 else 0)
  }

  lemma CountAppend<T>(s: seq<T>, x: T, y: T)
    ensures Count(s + [y], x) == Count(s, x) + (if y == x then 1 else 0)
  {
    assert (s + [y])[..|s|] == s;
  }
}
