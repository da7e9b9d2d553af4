/**
 * Byte-wise string order and an in-place string sort, standing in for Go's
 * `sort.Strings` as used by KeysSorted (jj.go:209).  Characters compare by
 * code point, which is the order of their UTF-8 encodings, so `Less` is the
 * order Go's `<` on strings uses.
 */
module Lexicographic {

  /** `a` sorts strictly before `b`: a proper prefix, or smaller at the first difference. */
  predicate Less(a: string, b: string)
    decreases |a|
  {
    if |a| == 0 then |b| > 0
    else if |b| == 0 then false
    else if a[0] != b[0] then a[0] < b[0]
    else Less(a[1..], b[1..])
  }

  predicate LessEq(a: string, b: string) {
    a == b || Less(a, b)
  }

  lemma {:induction false} LessIrreflexive(a: string)
    ensures !Less(a, a)
    decreases |a|
  {
    if |a| > 0 {
      LessIrreflexive(a[1..]);
    }
  }

  lemma {:induction false} LessTransitive(a: string, b: string, c: string)
    requires Less(a, b) && Less(b, c)
    ensures Less(a, c)
    decreases |a|
  {
    if |a| > 0 && a[0] == b[0] && b[0] == c[0] {
      LessTransitive(a[1..], b[1..], c[1..]);
    }
  }

  /** Any two strings are comparable. */
  lemma {:induction false} LessTotal(a: string, b: string)
    ensures a == b || Less(a, b) || Less(b, a)
    decreases |a|
  {
    if |a| > 0 && |b| > 0 && a[0] == b[0] {
      LessTotal(a[1..], b[1..]);
      if a[1..] == b[1..] {
        assert a == [a[0]] + a[1..] && b == [b[0]] + b[1..];
      }
    }
  }

  lemma LessAsymmetric(a: string, b: string)
    requires Less(a, b)
    ensures !Less(b, a)
  {
    if Less(b, a) {
      LessTransitive(a, b, a);
      LessIrreflexive(a);
    }
  }

  /** Every neighbouring pair is in order (what a sort guarantees). */
  predicate Sorted(s: seq<string>) {
    forall k :: 0 < k < |s| ==> LessEq(s[k - 1], s[k])
  }

  /** Every earlier element sorts strictly before every later one. */
  predicate StrictlyAscending(s: seq<string>) {
    forall i, j :: 0 <= i < j < |s| ==> Less(s[i], s[j])
  }

  /** Strict order between neighbours extends to every pair, by transitivity. */
  lemma {:induction false} StrictlyAscendingFromNeighbours(s: seq<string>)
    requires forall k :: 0 < k < |s| ==> Less(s[k - 1], s[k])
    ensures StrictlyAscending(s)
    decreases |s|
  {
    if |s| > 1 {
      var t := s[1..];
      StrictlyAscendingFromNeighbours(t);
      forall j | 1 < j < |s|
        ensures Less(s[0], s[j])
      {
        assert Less(t[0], t[j - 1]);
        LessTransitive(s[0], s[1], s[j]);
      }
    }
  }

  /** Two strictly ascending sequences holding the same elements are equal. */
  lemma {:induction false} StrictlyAscendingUnique(a: seq<string>, b: seq<string>)
    requires StrictlyAscending(a) && StrictlyAscending(b)
    requires multiset(a) == multiset(b)
    ensures a == b
    decreases |a|
  {
    if |a| == 0 {
      assert |b| == |multiset(b)| == |multiset(a)| == 0;
    } else {
      SameHead(a, b);
      SameTail(a, b);
      StrictlyAscendingUnique(a[1..], b[1..]);
      assert a == [a[0]] + a[1..] && b == [b[0]] + b[1..];
    }
  }

  /** The least element of a strictly ascending sequence is its head. */
  lemma SameHead(a: seq<string>, b: seq<string>)
    requires StrictlyAscending(a) && StrictlyAscending(b)
    requires multiset(a) == multiset(b) && |a| > 0
    ensures |b| > 0 && a[0] == b[0]
  {
    assert a[0] in multiset(b) && b[0] in multiset(a);
    var i :| 0 <= i < |a| && a[i] == b[0];
    var j :| 0 <= j < |b| && b[j] == a[0];
    if 0 < i && 0 < j {
      LessAsymmetric(a[0], a[i]);
    }
  }

  lemma SameTail(a: seq<string>, b: seq<string>)
    requires StrictlyAscending(a) && StrictlyAscending(b)
    requires multiset(a) == multiset(b) && |a| > 0 && |b| > 0 && a[0] == b[0]
    ensures StrictlyAscending(a[1..]) && StrictlyAscending(b[1..])
    ensures multiset(a[1..]) == multiset(b[1..])
  {
    assert a == [a[0]] + a[1..] && b == [b[0]] + b[1..];
    assert multiset(a) == multiset{a[0]} + multiset(a[1..]);
    assert multiset(b) == multiset{a[0]} + multiset(b[1..]);
    assert multiset(a[1..]) == multiset(a) - multiset{a[0]} == multiset(b[1..]);
  }

  /**
   * Sorts `a` in place into ascending order, as `sort.Strings` does; the
   * result is a permutation of the input.
   */
  method SortStrings(a: array<string>)
    modifies a
    ensures Sorted(a[..])
    ensures multiset(a[..]) == multiset(old(a[..]))
  {
    for i := 0 to a.Length
      invariant forall k :: 0 < k < i ==> LessEq(a[k - 1], a[k])
      invariant multiset(a[..]) == multiset(old(a[..]))
    {
      InsertLeft(a, i);
    }
  }

  /** Moves `a[i]` leftwards into the sorted prefix `a[..i]`. */
  method InsertLeft(a: array<string>, i: nat)
    requires i < a.Length
    requires forall k :: 0 < k < i ==> LessEq(a[k - 1], a[k])
    modifies a
    ensures forall k :: 0 < k <= i ==> LessEq(a[k - 1], a[k])
    ensures multiset(a[..]) == multiset(old(a[..]))
  {
    var j := i;
    while j > 0 && Less(a[j], a[j - 1])
      invariant 0 <= j <= i
      invariant forall k :: 0 < k < j ==> LessEq(a[k - 1], a[k])
      invariant forall k :: j < k <= i ==> LessEq(a[k - 1], a[k])
      invariant 0 < j < i ==> LessEq(a[j - 1], a[j + 1])
      invariant multiset(a[..]) == multiset(old(a[..]))
    {
      Swap(a, j - 1, j);
      j := j - 1;
    }
    if j > 0 {
      LessTotal(a[j - 1], a[j]);
    }
  }

  method Swap(a: array<string>, i: nat, j: nat)
    requires i < j < a.Length
    modifies a
    ensures a[i] == old(a[j]) && a[j] == old(a[i])
    ensures forall k :: 0 <= k < a.Length && k != i && k != j ==> a[k] == old(a[k])
    ensures multiset(a[..]) == multiset(old(a[..]))
  {
    a[i], a[j] := a[j], a[i];
  }
}
