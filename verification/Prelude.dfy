/** Small shared vocabulary: optional values and the sequence functions several models use. */
module Prelude {

  datatype Option<+T> = None | Some(value: T)

  function Max(a: int, b: int): int {
    if a < b then b else a
  }

  function Min(a: int, b: int): int {
    if a < b then a else b
  }

  /** The elements of s that satisfy p, in order. */
  function Filter<T(!new)>(s: seq<T>, p: T -> bool): (r: seq<T>)
    ensures |r| <= |s|
  {
    if s == [] then []
    else if p(s[0]) then [s[0]] + Filter(s[1..], p)
    else Filter(s[1..], p)
  }

  lemma {:induction false} FilterMembers<T(!new)>(s: seq<T>, p: T -> bool)
    ensures forall x :: x in Filter(s, p) <==> x in s && p(x)
  {
    if s != [] {
      FilterMembers(s[1..], p);
      assert s == [s[0]] + s[1..];
    }
  }

  lemma FilterCons<T(!new)>(x: T, s: seq<T>, p: T -> bool)
    ensures Filter([x] + s, p) == if p(x) then [x] + Filter(s, p) else Filter(s, p)
  {
    assert ([x] + s)[1..] == s;
  }

  lemma ConcatAssociates<T>(a: seq<T>, b: seq<T>, c: seq<T>)
    ensures (a + b) + c == a + (b + c)
  {
  }

  lemma {:induction false} FilterAppend<T(!new)>(a: seq<T>, b: seq<T>, p: T -> bool)
    ensures Filter(a + b, p) == Filter(a, p) + Filter(b, p)
    decreases |a|
  {
    if |a| == 0 {
      assert a + b == b;
    } else {
      var head, rest := [a[0]], a[1..];
      FilterAppend(rest, b, p);
      ConcatAssociates(head, rest, b);
      ConcatAssociates(head, Filter(rest, p), Filter(b, p));
      FilterCons(a[0], rest, p);
      FilterCons(a[0], rest + b, p);
      assert a == head + rest;
    }
  }

  lemma FilterSnoc<T(!new)>(s: seq<T>, x: T, p: T -> bool)
    ensures Filter(s + [x], p) == Filter(s, p) + (if p(x) then [x] else [])
  {
    FilterAppend(s, [x], p);
    assert [x][1..] == [];
  }

  lemma {:induction false} FilterAll<T(!new)>(s: seq<T>, p: T -> bool)
    requires forall x :: x in s ==> p(x)
    ensures Filter(s, p) == s
  {
    if s != [] {
      FilterAll(s[1..], p);
    }
  }

  lemma {:induction false} FilterNone<T(!new)>(s: seq<T>, p: T -> bool)
    requires forall x :: x in s ==> !p(x)
    ensures Filter(s, p) == []
  {
    if s != [] {
      FilterNone(s[1..], p);
    }
  }

  /** The last n elements of s, or all of them when there are fewer. */
  function LastN<T>(s: seq<T>, n: nat): (r: seq<T>)
    ensures |r| == Min(|s|, n)
    ensures r == s[|s| - |r|..]
  {
    if |s| <= n then s else s[|s| - n..]
  }

  ghost predicate Distinct<T>(s: seq<T>) {
    forall i, j :: 0 <= i < j < |s| ==> s[i] != s[j]
  }

  function Reversed<T>(s: seq<T>): (r: seq<T>)
    ensures |r| == |s| && forall i :: 0 <= i < |s| ==> r[i] == s[|s| - 1 - i]
  {
    seq(|s|, i requires 0 <= i < |s| => s[|s| - 1 - i])
  }

  /** A search over a finite universe comes closer to its end with each new element. */
  lemma SmallerRemainder<T>(u: set<T>, visited: set<T>, x: T)
    requires x in u && x !in visited
    ensures |u - (visited + {x})| < |u - visited|
  {
    assert u - visited == (u - (visited + {x})) + {x};
  }

  // ----- Reading back what was glued together -----

  /** s contains no c. */
  predicate Free(s: string, c: char) {
    c !in s
  }

  /** The position of the first c, or the length when there is none. */
  function FirstIndex(s: string, c: char): nat {
    if s == "" || s[0] == c then 0 else 1 + FirstIndex(s[1..], c)
  }

  lemma {:induction false} FirstIndexAfterFree(a: string, b: string, c: char)
    requires Free(a, c)
    ensures FirstIndex(a + [c] + b, c) == |a|
  {
    if a != "" {
      FirstIndexAfterFree(a[1..], b, c);
      assert (a + [c] + b)[1..] == a[1..] + [c] + b;
    } else {
      assert a + [c] + b == [c] + b;
    }
  }

  lemma {:induction false} FirstIndexOfFree(a: string, c: char)
    requires Free(a, c)
    ensures FirstIndex(a, c) == |a|
  {
    if a != "" {
      FirstIndexOfFree(a[1..], c);
    }
  }

  /** A separator that the left parts do not contain lets both sides be read back. */
  lemma SplitAtFirst(a: string, b: string, x: string, y: string, c: char)
    requires Free(a, c) && Free(x, c) && a + [c] + b == x + [c] + y
    ensures a == x && b == y
  {
    FirstIndexAfterFree(a, b, c);
    FirstIndexAfterFree(x, y, c);
    var s := a + [c] + b;
    assert a == s[..|a|] && x == (x + [c] + y)[..|x|];
    assert b == s[|a| + 1..] && y == (x + [c] + y)[|x| + 1..];
  }

  // ----- Ranges of numbers -----

  /** The numbers from `from` to `to`, none when `to` is smaller. */
  datatype Range = Range(from: int, to: int)

  predicate InRange(r: Range, n: int) {
    r.from <= n <= r.to
  }

  predicate InSome(rs: seq<Range>, n: int) {
    exists k :: 0 <= k < |rs| && InRange(rs[k], n)
  }

  lemma InSomeAppend(rs: seq<Range>, qs: seq<Range>, n: int)
    ensures InSome(rs + qs, n) <==> InSome(rs, n) || InSome(qs, n)
  {
    if InSome(rs, n) {
      var k :| 0 <= k < |rs| && InRange(rs[k], n);
      assert (rs + qs)[k] == rs[k];
    }
    if InSome(qs, n) {
      var k :| 0 <= k < |qs| && InRange(qs[k], n);
      assert (rs + qs)[|rs| + k] == qs[k];
    }
  }
}
