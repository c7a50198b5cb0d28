/** Sequence helpers shared by the models: filtering, counting, duplicate-freedom and substring search. */
module Collections {

  /** The elements of `s` satisfying `f`, in order. */
  function Filter<T(!new)>(s: seq<T>, f: T -> bool): (r: seq<T>)
    ensures |r| <= |s|
  {
    if s == [] then []
    else
      var init := s[..|s| - 1];
      Filter(init, f) + (if f(s[|s| - 1]) then [s[|s| - 1]] else [])
  }

  /** Filter keeps exactly the satisfying elements, each as often as it occurs. */
  lemma {:induction false} FilterMembers<T(!new)>(s: seq<T>, f: T -> bool)
    ensures forall x :: x in Filter(s, f) <==> x in s && f(x)
    ensures forall x :: multiset(Filter(s, f))[x] == if f(x) then multiset(s)[x] else 0
  {
    if s != [] {
      var init, last := s[..|s| - 1], s[|s| - 1];
      assert s == init + [last];
      FilterMembers(init, f);
    }
  }

  lemma {:induction false} FilterAppend<T(!new)>(s: seq<T>, t: seq<T>, f: T -> bool)
    ensures Filter(s + t, f) == Filter(s, f) + Filter(t, f)
    decreases |t|
  {
    if t == [] {
      assert s + t == s;
    } else {
      var t' := t[..|t| - 1];
      assert (s + t)[..|s + t| - 1] == s + t';
      assert (s + t)[|s + t| - 1] == t[|t| - 1];
      FilterAppend(s, t', f);
    }
  }

  lemma {:induction false} FilterCons<T(!new)>(x: T, t: seq<T>, f: T -> bool)
    ensures Filter([x] + t, f) == (if f(x) then [x] else []) + Filter(t, f)
  {
    FilterAppend([x], t, f);
    assert [x][..0] == [];
    assert Filter([x], f) == Filter([], f) + (if f(x) then [x] else []);
  }

  /** How many elements of `s` satisfy `f`. */
  function CountTrue<T>(s: seq<T>, f: T -> bool): (n: nat)
    ensures n <= |s|
  {
    if s == [] then 0 else CountTrue(s[..|s| - 1], f) + (if f(s[|s| - 1]) then 1 else 0)
  }

  lemma {:induction false} CountTrueAppend<T>(s: seq<T>, t: seq<T>, f: T -> bool)
    ensures CountTrue(s + t, f) == CountTrue(s, f) + CountTrue(t, f)
    decreases |t|
  {
    if t == [] {
      assert s + t == s;
    } else {
      var t' := t[..|t| - 1];
      assert (s + t)[..|s + t| - 1] == s + t';
      assert (s + t)[|s + t| - 1] == t[|t| - 1];
      CountTrueAppend(s, t', f);
    }
  }

  predicate NoDup<T(==)>(s: seq<T>) {
    forall i, j :: 0 <= i < j < |s| ==> s[i] != s[j]
  }

  /** Removing one element from a duplicate-free sequence removes it entirely and keeps the rest
      duplicate-free. */
  lemma RemoveAtUnique<T>(s: seq<T>, i: nat)
    requires i < |s| && NoDup(s)
    ensures s[i] !in s[..i] + s[i + 1..]
    ensures NoDup(s[..i] + s[i + 1..])
  {
    var r := s[..i] + s[i + 1..];
    assert forall k :: 0 <= k < |r| ==> r[k] == if k < i then s[k] else s[k + 1];
    forall k | 0 <= k < |r| ensures r[k] != s[i] {
      if k >= i {
        assert s[k + 1] != s[i];
      }
    }
    forall a, b | 0 <= a < b < |r| ensures r[a] != r[b] {
      var a', b' := if a < i then a else a + 1, if b < i then b else b + 1;
      assert s[a'] != s[b'];
    }
  }

  function Reverse<T>(s: seq<T>): (r: seq<T>)
    ensures |r| == |s|
    ensures forall i :: 0 <= i < |s| ==> r[i] == s[|s| - 1 - i]
  {
    if s == [] then [] else [s[|s| - 1]] + Reverse(s[..|s| - 1])
  }

  function Min(a: int, b: int): int { if a <= b then a else b }
  function Max(a: int, b: int): int { if a >= b then a else b }

  /** `sub` occurs in `s` starting at position `i`. */
  predicate OccursAt<T(==)>(s: seq<T>, sub: seq<T>, i: int) {
    0 <= i && i + |sub| <= |s| && s[i..i + |sub|] == sub
  }

  /** The first position at which `sub` occurs in `s`, or -1 when it does not occur
      (the convention of Go's strings.Index). */
  function IndexOf<T(==)>(s: seq<T>, sub: seq<T>): (r: int)
    ensures -1 <= r <= |s|
    ensures r >= 0 ==> OccursAt(s, sub, r)
    ensures r >= 0 ==> forall j :: 0 <= j < r ==> !OccursAt(s, sub, j)
    ensures r == -1 ==> forall j :: 0 <= j <= |s| ==> !OccursAt(s, sub, j)
  {
    IndexFrom(s, sub, 0)
  }

  function IndexFrom<T(==)>(s: seq<T>, sub: seq<T>, from: nat): (r: int)
    requires from <= |s| + 1
    ensures r == -1 || from <= r <= |s|
    ensures r >= 0 ==> OccursAt(s, sub, r)
    ensures r >= 0 ==> forall j :: from <= j < r ==> !OccursAt(s, sub, j)
    ensures r == -1 ==> forall j :: from <= j <= |s| ==> !OccursAt(s, sub, j)
    decreases |s| + 1 - from
  {
    if from > |s| then -1
    else if OccursAt(s, sub, from) then from
    else IndexFrom(s, sub, from + 1)
  }

  /** Python's `sub in s` on strings. */
  predicate Contains<T(==)>(s: seq<T>, sub: seq<T>) {
    IndexOf(s, sub) >= 0
  }
}
