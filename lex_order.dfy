/** Go's ordering of strings and `sort.Strings`, used by generateMysqlTypes to
    emit columns in a reproducible order.

    Go compares strings byte by byte; for UTF-8 text that is the same order as
    comparing code points one by one, which is what `LessEq` does on Dafny's
    `seq<char>`. */
module LexOrder {

  /** `a <= b` in lexicographic order: a proper prefix comes first. */
  predicate LessEq(a: string, b: string)
    decreases |a|
  {
    |a| == 0 || (|b| > 0 && (a[0] < b[0] || (a[0] == b[0] && LessEq(a[1..], b[1..]))))
  }

  predicate Less(a: string, b: string) {
    LessEq(a, b) && a != b
  }

  lemma {:induction false} LessEqReflexive(a: string)
    ensures LessEq(a, a)
  {
    if |a| > 0 {
      LessEqReflexive(a[1..]);
    }
  }

  lemma {:induction false} LessEqTotal(a: string, b: string)
    ensures LessEq(a, b) || LessEq(b, a)
  {
    if |a| > 0 && |b| > 0 && a[0] == b[0] {
      LessEqTotal(a[1..], b[1..]);
    }
  }

  lemma {:induction false} LessEqAntisymmetric(a: string, b: string)
    requires LessEq(a, b) && LessEq(b, a)
    ensures a == b
  {
    if |a| > 0 {
      LessEqAntisymmetric(a[1..], b[1..]);
      assert a == [a[0]] + a[1..] && b == [b[0]] + b[1..];
    }
  }

  lemma {:induction false} LessEqTransitive(a: string, b: string, c: string)
    requires LessEq(a, b) && LessEq(b, c)
    ensures LessEq(a, c)
  {
    if |a| > 0 && a[0] == b[0] && b[0] == c[0] {
      LessEqTransitive(a[1..], b[1..], c[1..]);
    }
  }

  /** a is an initial segment of b. */
  predicate IsPrefix(a: string, b: string) {
    |a| <= |b| && b[..|a|] == a
  }

  /** a and b agree before index k and differ at k, where a is smaller. */
  predicate FirstDifferenceAt(a: string, b: string, k: int) {
    0 <= k < |a| && k < |b| && a[..k] == b[..k] && a[k] < b[k]
  }

  /** The usual definition of Go's string `<=`: either a is a prefix of b, or
      at the first position where they differ a has the smaller character. */
  lemma {:induction false} LessEqFirstDifference(a: string, b: string)
    ensures LessEq(a, b) <==> IsPrefix(a, b) || exists k :: FirstDifferenceAt(a, b, k)
    decreases |a|
  {
    if |a| == 0 {
      assert IsPrefix(a, b);
    } else if |b| == 0 {
      assert !IsPrefix(a, b);
    } else if a[0] < b[0] {
      assert FirstDifferenceAt(a, b, 0);
    } else if a[0] > b[0] {
      assert !IsPrefix(a, b) by {
        if |a| <= |b| { assert b[..|a|][0] == b[0]; }
      }
      forall k
        ensures !FirstDifferenceAt(a, b, k)
      {
        if 0 < k < |a| && k < |b| { assert a[..k][0] == a[0] && b[..k][0] == b[0]; }
      }
    } else {
      var a', b' := a[1..], b[1..];
      LessEqFirstDifference(a', b');
      assert a == [a[0]] + a' && b == [b[0]] + b';
      assert IsPrefix(a, b) <==> IsPrefix(a', b') by {
        if |a| <= |b| { assert b[..|a|] == [b[0]] + b'[..|a'|]; }
      }
      assert (exists k :: FirstDifferenceAt(a, b, k)) <==> (exists k :: FirstDifferenceAt(a', b', k)) by {
        forall k | FirstDifferenceAt(a, b, k)
          ensures FirstDifferenceAt(a', b', k - 1)
        {
          assert k > 0;
          assert a'[..k - 1] == a[..k][1..] && b'[..k - 1] == b[..k][1..];
        }
        forall k | FirstDifferenceAt(a', b', k)
          ensures FirstDifferenceAt(a, b, k + 1)
        {
          assert a[..k + 1] == [a[0]] + a'[..k] && b[..k + 1] == [b[0]] + b'[..k];
        }
      }
    }
  }

  /** Non-decreasing, the promise of `sort.Strings`. */
  ghost predicate Sorted(s: seq<string>) {
    forall i, j :: 0 <= i < j < |s| ==> LessEq(s[i], s[j])
  }

  ghost predicate StrictlySorted(s: seq<string>) {
    forall i, j :: 0 <= i < j < |s| ==> Less(s[i], s[j])
  }

  ghost predicate NoDuplicates(s: seq<string>) {
    forall x :: multiset(s)[x] <= 1
  }

  /** Neighbours are in order; for a total preorder this is the same as `Sorted`. */
  ghost predicate AdjacentSorted(s: seq<string>) {
    forall k :: 0 < k < |s| ==> LessEq(s[k - 1], s[k])
  }

  lemma {:induction false} AdjacentSortedIsSorted(s: seq<string>)
    requires AdjacentSorted(s)
    ensures Sorted(s)
  {
    if |s| > 1 {
      var init := s[..|s| - 1];
      assert AdjacentSorted(init);
      AdjacentSortedIsSorted(init);
      forall i | 0 <= i < |s| - 1
        ensures LessEq(s[i], s[|s| - 1])
      {
        if i < |s| - 2 {
          assert init[i] == s[i] && init[|s| - 2] == s[|s| - 2];
          LessEqTransitive(s[i], s[|s| - 2], s[|s| - 1]);
        }
      }
    }
  }

  lemma DistinctAt(s: seq<string>, i: int, j: int)
    requires NoDuplicates(s)
    requires 0 <= i < j < |s|
    ensures s[i] != s[j]
  {
    assert s == s[..i] + [s[i]] + s[i + 1..j] + [s[j]] + s[j + 1..];
    assert multiset(s)[s[j]] >= multiset([s[i]])[s[j]] + 1;
  }

  /** A sorted sequence without duplicates is strictly increasing. */
  lemma SortedDistinctIsStrict(s: seq<string>)
    requires Sorted(s) && NoDuplicates(s)
    ensures StrictlySorted(s)
  {
    forall i, j | 0 <= i < j < |s|
      ensures Less(s[i], s[j])
    {
      DistinctAt(s, i, j);
    }
  }

  /** The least element of a non-empty finite set of strings. */
  ghost function MinKey(s: set<string>): (m: string)
    requires s != {}
    ensures m in s
    ensures forall x :: x in s ==> LessEq(m, x)
    decreases |s|
  {
    var x :| x in s;
    if s == {x} then
      LessEqReflexive(x);
      x
    else
      var m := MinKey(s - {x});
      if LessEq(x, m) then
        assert forall y :: y in s ==> LessEq(x, y) by {
          forall y | y in s
            ensures LessEq(x, y)
          {
            if y == x {
              LessEqReflexive(x);
            } else {
              LessEqTransitive(x, m, y);
            }
          }
        }
        x
      else
        LessEqTotal(x, m);
        m
  }

  /** ks lists the elements of s, each once, in ascending order. */
  ghost predicate IsAscendingListing(ks: seq<string>, s: set<string>) {
    && |ks| == |s|
    && (forall k :: k in ks <==> k in s)
    && StrictlySorted(ks)
  }

  /** An ascending listing built by taking the least key first. */
  ghost function LeastFirst(s: set<string>): (ks: seq<string>)
    ensures IsAscendingListing(ks, s)
    decreases |s|
  {
    if s == {} then []
    else
      var m := MinKey(s);
      var rest := LeastFirst(s - {m});
      var ks := [m] + rest;
      assert |s - {m}| == |s| - 1;
      assert StrictlySorted(ks) by {
        forall i, j | 0 <= i < j < |ks|
          ensures Less(ks[i], ks[j])
        {
          if i == 0 {
            var y := rest[j - 1];
            assert ks[j] == y && y in rest;
            assert y in s && y != m;
          } else {
            assert ks[i] == rest[i - 1] && ks[j] == rest[j - 1];
          }
        }
      }
      ks
  }

  /** The keys of a set in ascending order: the order in which the generated
      struct lists its columns. */
  ghost function SortedKeys(s: set<string>): (ks: seq<string>)
    ensures |ks| == |s|
    ensures forall k :: k in ks <==> k in s
    ensures forall i :: 0 <= i < |ks| ==> ks[i] in s
  {
    assert IsAscendingListing(LeastFirst(s), s);
    var ks :| IsAscendingListing(ks, s);
    ks
  }

  /** `SortedKeys` lists the keys in strictly ascending order. */
  lemma SortedKeysAscending(s: set<string>)
    ensures IsAscendingListing(SortedKeys(s), s)
  {
    assert IsAscendingListing(LeastFirst(s), s);
  }

  /** Each key of the set appears in `SortedKeys` exactly once. */
  lemma SortedKeysDistinct(s: set<string>)
    ensures forall i, j :: 0 <= i < j < |SortedKeys(s)| ==> SortedKeys(s)[i] != SortedKeys(s)[j]
  {
    SortedKeysAscending(s);
  }

  /** A set has only one ascending listing. */
  lemma {:induction false} AscendingListingUnique(a: seq<string>, b: seq<string>, s: set<string>)
    requires IsAscendingListing(a, s) && IsAscendingListing(b, s)
    ensures a == b
    decreases |a|
  {
    if a != [] {
      assert b != [] by {
        assert a[0] in s;
      }
      assert a[0] in b && b[0] in a;
      var i :| 0 <= i < |b| && b[i] == a[0];
      var j :| 0 <= j < |a| && a[j] == b[0];
      if i > 0 && j > 0 {
        LessEqAntisymmetric(a[0], b[0]);
        assert false;
      }
      assert a[0] == b[0];
      var s' := s - {a[0]};
      forall k
        ensures k in a[1..] <==> k in s'
        ensures k in b[1..] <==> k in s'
      {
        if k in a[1..] {
          var p :| 0 <= p < |a[1..]| && a[1..][p] == k;
          assert a[p + 1] == k;
        }
        if k in s' {
          var p :| 0 <= p < |a| && a[p] == k;
          assert a[1..][p - 1] == k;
        }
        if k in b[1..] {
          var p :| 0 <= p < |b[1..]| && b[1..][p] == k;
          assert b[p + 1] == k;
        }
        if k in s' {
          var p :| 0 <= p < |b| && b[p] == k;
          assert b[1..][p - 1] == k;
        }
      }
      AscendingListingUnique(a[1..], b[1..], s');
      assert a == [a[0]] + a[1..] && b == [b[0]] + b[1..];
    }
  }

  /** Any strictly increasing listing of exactly the set's elements is
      `SortedKeys`: the order does not depend on how the keys were collected. */
  lemma SortedKeysUnique(ks: seq<string>, s: set<string>)
    requires StrictlySorted(ks)
    requires forall k :: k in ks <==> k in s
    ensures ks == SortedKeys(s)
  {
    StrictlySortedLength(ks, s);
    SortedKeysAscending(s);
    AscendingListingUnique(ks, SortedKeys(s), s);
  }

  /** Sorting the keys of a set, each listed once, yields `SortedKeys`. */
  lemma SortedListingOfSet(keys: seq<string>, s: set<string>)
    requires Sorted(keys)
    requires multiset(keys) == multiset(s)
    ensures keys == SortedKeys(s)
  {
    assert NoDuplicates(keys);
    SortedDistinctIsStrict(keys);
    forall k
      ensures k in keys <==> k in s
    {
      assert k in keys <==> k in multiset(keys);
    }
    SortedKeysUnique(keys, s);
  }

  /** A strictly increasing listing of a set is as long as the set is large. */
  lemma {:induction false} StrictlySortedLength(ks: seq<string>, s: set<string>)
    requires StrictlySorted(ks)
    requires forall k :: k in ks <==> k in s
    ensures |ks| == |s|
    decreases |ks|
  {
    if ks != [] {
      var s' := s - {ks[0]};
      forall k
        ensures k in ks[1..] <==> k in s'
      {
        if k in ks[1..] {
          var p :| 0 <= p < |ks[1..]| && ks[1..][p] == k;
          assert ks[p + 1] == k;
        }
        if k in s' {
          var p :| 0 <= p < |ks| && ks[p] == k;
          assert ks[1..][p - 1] == k;
        }
      }
      StrictlySortedLength(ks[1..], s');
    } else {
      assert forall k :: k !in s;
    }
  }

  /** `sort.Strings`: sorts the slice in place (an insertion sort here; Go's
      algorithm differs, its promise does not). */
  method SortStrings(a: array<string>)
    modifies a
    ensures Sorted(a[..])
    ensures multiset(a[..]) == multiset(old(a[..]))
  {
    var i := 0;
    while i < a.Length
      invariant 0 <= i <= a.Length
      invariant AdjacentSorted(a[..i])
      invariant multiset(a[..]) == multiset(old(a[..]))
    {
      InsertIntoPrefix(a, i);
      i := i + 1;
    }
    assert a[..a.Length] == a[..];
    AdjacentSortedIsSorted(a[..]);
  }

  /** Moves a[i] left past every larger neighbour, so that a[..i + 1] is in
      order once a[..i] was. */
  method InsertIntoPrefix(a: array<string>, i: int)
    requires 0 <= i < a.Length
    requires AdjacentSorted(a[..i])
    modifies a
    ensures AdjacentSorted(a[..i + 1])
    ensures multiset(a[..]) == multiset(old(a[..]))
    ensures a[i + 1..] == old(a[i + 1..])
  {
    InsertionStart(a[..], i);
    var j := i;
    while j > 0 && !LessEq(a[j - 1], a[j])
      invariant InsertionState(a[..], i, j)
      invariant multiset(a[..]) == multiset(old(a[..]))
      invariant a[i + 1..] == old(a[i + 1..])
    {
      ghost var before := a[..];
      a[j - 1], a[j] := a[j], a[j - 1];
      assert a[..] == before[j - 1 := before[j]][j := before[j - 1]];
      SwapStep(before, i, j);
      j := j - 1;
    }
    InsertionEnd(a[..], i, j);
  }

  /** While a[i] moves left it sits at j: every neighbouring pair up to i is in
      order except possibly the pair ending at j, and its left neighbour is
      not above its right one. */
  ghost predicate InsertionState(s: seq<string>, i: int, j: int) {
    && 0 <= j <= i < |s|
    && (forall k :: 0 < k <= i && k != j ==> LessEq(s[k - 1], s[k]))
    && (0 < j < i ==> LessEq(s[j - 1], s[j + 1]))
  }

  lemma InsertionStart(s: seq<string>, i: int)
    requires 0 <= i < |s| && AdjacentSorted(s[..i])
    ensures InsertionState(s, i, i)
  {
    forall k | 0 < k < i
      ensures LessEq(s[k - 1], s[k])
    {
      assert s[..i][k - 1] == s[k - 1] && s[..i][k] == s[k];
    }
  }

  lemma SwapStep(s: seq<string>, i: int, j: int)
    requires InsertionState(s, i, j) && j > 0 && !LessEq(s[j - 1], s[j])
    ensures InsertionState(s[j - 1 := s[j]][j := s[j - 1]], i, j - 1)
    ensures multiset(s[j - 1 := s[j]][j := s[j - 1]]) == multiset(s)
  {
    LessEqTotal(s[j - 1], s[j]);
  }

  lemma InsertionEnd(s: seq<string>, i: int, j: int)
    requires InsertionState(s, i, j) && (j == 0 || LessEq(s[j - 1], s[j]))
    ensures AdjacentSorted(s[..i + 1])
  {
  }
}
