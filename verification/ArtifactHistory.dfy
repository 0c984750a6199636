/**
 * The append-only history and its gap report (src/artifact/artifact-history.ts).
 */
module ArtifactHistory {
  import opened Prelude
  import Sorting

  datatype Record = Record(sequence: int, artifactId: string, toStatus: string)

  function Sequences(rs: seq<Record>): (r: seq<int>)
    ensures |r| == |rs| && forall i :: 0 <= i < |rs| ==> r[i] == rs[i].sequence
  {
    seq(|rs|, i requires 0 <= i < |rs| => rs[i].sequence)
  }

  function AtMost(): (int, int) -> bool { (m: int, n: int) => m <= n }

  function Sort(ns: seq<int>): seq<int> {
    Sorting.Sort(ns, AtMost())
  }

  ghost predicate Sorted(ns: seq<int>) {
    forall i, j :: 0 <= i < j < |ns| ==> ns[i] <= ns[j]
  }

  lemma SortKeeps(ns: seq<int>)
    ensures Sorted(Sort(ns)) && |Sort(ns)| == |ns|
    ensures forall x :: x in Sort(ns) <==> x in ns
  {
    Sorting.SortSorts(ns, AtMost());
    Sorting.SortPermutes(ns, AtMost());
    var s := Sort(ns);
    assert |s| == |multiset(s)| == |multiset(ns)| == |ns|;
    forall i, j | 0 <= i < j < |s| ensures s[i] <= s[j] {
      assert AtMost()(s[i], s[j]);
    }
    forall x ensures x in s <==> x in ns {
      assert x in multiset(s) <==> x in multiset(ns);
    }
  }

  function InSpan(from: int, to: int): int -> bool { (n: int) => from <= n <= to }

  /** No record in the queried span carries number n. */
  predicate Absent(rs: seq<Record>, n: int) {
    n !in Sequences(rs)
  }

  /** The gaps come in order, apart from each other, and none is empty. */
  ghost predicate Separate(gs: seq<Range>) {
    && (forall k :: 0 <= k < |gs| ==> gs[k].from <= gs[k].to)
    && (forall j, k :: 0 <= j < k < |gs| ==> gs[j].to + 1 < gs[k].from)
  }

  /**
   * Exactness of a report over a span: the gaps are the numbers without a record, and completeness
   * means there are none.
   */
  ghost predicate Exact(rs: seq<Record>, from: int, to: int, complete: bool, gaps: seq<Range>) {
    && (forall n :: InSome(gaps, n) <==> from <= n <= to && Absent(rs, n))
    && (complete <==> forall n :: from <= n <= to ==> !Absent(rs, n))
    && Separate(gaps)
  }

  class ArtifactHistory {
    var records: seq<Record>
    var sequenceCounter: nat

    /** Records are numbered 1, 2, 3 and so on in the order they were appended. */
    ghost predicate Valid()
      reads this
    {
      sequenceCounter == |records| && forall i :: 0 <= i < |records| ==> records[i].sequence == i + 1
    }

    constructor ()
      ensures Valid() && records == []
    {
      records, sequenceCounter := [], 0;
    }

    method Append(artifactId: string, toStatus: string) returns (r: Record)
      requires Valid()
      modifies this
      ensures Valid() && records == old(records) + [r]
      ensures r == Record(|old(records)| + 1, artifactId, toStatus)
    {
      sequenceCounter := sequenceCounter + 1;
      r := Record(sequenceCounter, artifactId, toStatus);
      records := records + [r];
    }

    /**
     * The report is exact on any span that is not reversed; a reversed span is reported
     * incomplete although it holds no number at all.
     */
    method FindGaps(from: int, to: int) returns (complete: bool, gaps: seq<Range>)
      ensures Exact(records, from, to, complete, gaps) <==> from <= to
    {
      complete, gaps := FindGapsIn(records, from, to);
    }

    /** Of a history that was only ever appended to, the missing numbers are those outside 1..n. */
    lemma AppendedHistoryIsDense(n: int)
      requires Valid()
      ensures Absent(records, n) <==> n < 1 || n > |records|
    {
      if 1 <= n <= |records| {
        assert Sequences(records)[n - 1] == n;
      }
    }
  }

  method FindGapsIn(records: seq<Record>, from: int, to: int) returns (complete: bool, gaps: seq<Range>)
    ensures Exact(records, from, to, complete, gaps) <==> from <= to
  {
    hide Exact, GapsUpTo, Sorted, Sort, Filter;
    var sequences := Sort(Filter(Sequences(records), InSpan(from, to)));
    SpanIsSorted(records, from, to);
    if |sequences| == 0 {
      NothingFound(records, from, to);
      return false, [Range(from, to)];
    }
    gaps := [];
    var expected := from;
    SearchStarts(sequences, from);
    for i := 0 to |sequences|
      invariant expected == if i == 0 then from else sequences[i - 1] + 1
      invariant GapsUpTo(gaps, sequences, from, expected)
    {
      var found := sequences[i];
      NumberFound(gaps, sequences, from, to, expected, i);
      if found > expected {
        gaps := gaps + [Range(expected, found - 1)];
      }
      expected := found + 1;
    }
    SearchEnds(records, gaps, sequences, from, to, expected);
    if expected <= to {
      gaps := gaps + [Range(expected, to)];
    }
    complete := |gaps| == 0;
  }

  /** The gaps found so far are the numbers before `expected` that the sorted list lacks. */
  ghost predicate GapsUpTo(gaps: seq<Range>, ns: seq<int>, from: int, expected: int) {
    && (forall n :: InSome(gaps, n) <==> from <= n < expected && n !in ns)
    && Separate(gaps)
    && (forall k :: 0 <= k < |gaps| ==> gaps[k].to + 1 < expected)
  }

  /** The list the search runs over: in order, and just the recorded numbers of the span. */
  ghost predicate SpanOf(ns: seq<int>, rs: seq<Record>, from: int, to: int) {
    Sorted(ns) && forall n :: n in ns <==> from <= n <= to && !Absent(rs, n)
  }

  lemma SpanIsSorted(rs: seq<Record>, from: int, to: int)
    ensures SpanOf(Sort(Filter(Sequences(rs), InSpan(from, to))), rs, from, to)
  {
    SortKeeps(Filter(Sequences(rs), InSpan(from, to)));
    FilterMembers(Sequences(rs), InSpan(from, to));
  }

  lemma InSomeSnoc(gaps: seq<Range>, g: Range, n: int)
    ensures InSome(gaps + [g], n) <==> InSome(gaps, n) || InRange(g, n)
  {
    if InSome(gaps, n) {
      var k :| 0 <= k < |gaps| && InRange(gaps[k], n);
      assert (gaps + [g])[k] == gaps[k];
    }
    assert (gaps + [g])[|gaps|] == g;
  }

  lemma NothingFound(rs: seq<Record>, from: int, to: int)
    requires SpanOf([], rs, from, to)
    ensures Exact(rs, from, to, false, [Range(from, to)]) <==> from <= to
  {
    var gaps := [Range(from, to)];
    forall n ensures InSome(gaps, n) <==> InRange(Range(from, to), n) {
      assert gaps[0] == Range(from, to);
    }
    if from <= to {
      assert Absent(rs, from);
    }
  }

  lemma SearchStarts(ns: seq<int>, from: int)
    ensures GapsUpTo([], ns, from, from)
  {
  }

  /** Meeting the i-th number closes the stretch in front of it. */
  lemma NumberFound(gaps: seq<Range>, ns: seq<int>, from: int, to: int, expected: int, i: nat)
    requires i < |ns| && Sorted(ns) && (forall n :: n in ns ==> from <= n <= to)
    requires expected == (if i == 0 then from else ns[i - 1] + 1) && GapsUpTo(gaps, ns, from, expected)
    ensures GapsUpTo(if ns[i] > expected then gaps + [Range(expected, ns[i] - 1)] else gaps, ns, from, ns[i] + 1)
  {
    var found := ns[i];
    assert found in ns;
    NoneBetween(ns, from, expected, i);
    if found > expected {
      var g := Range(expected, found - 1);
      var next := gaps + [g];
      forall n ensures InSome(next, n) <==> from <= n < found + 1 && n !in ns {
        InSomeSnoc(gaps, g, n);
        assert InSome(gaps, n) <==> from <= n < expected && n !in ns;
      }
      SeparateSnoc(gaps, g);
    }
  }

  lemma SeparateSnoc(gaps: seq<Range>, g: Range)
    requires Separate(gaps) && g.from <= g.to && forall k :: 0 <= k < |gaps| ==> gaps[k].to + 1 < g.from
    ensures Separate(gaps + [g])
    ensures forall k :: 0 <= k < |gaps + [g]| ==> (gaps + [g])[k].to <= g.to
  {
    forall k | 0 <= k < |gaps + [g]| ensures (gaps + [g])[k].to <= g.to {
      if k < |gaps| {
        assert gaps[k].to + 1 < g.from;
      }
    }
  }

  lemma NoneBetween(ns: seq<int>, from: int, expected: int, i: nat)
    requires i < |ns| && Sorted(ns) && expected == (if i == 0 then from else ns[i - 1] + 1)
    requires forall n :: n in ns ==> from <= n
    ensures forall n :: expected <= n < ns[i] ==> n !in ns
    ensures from <= expected <= ns[i] + 1
  {
    assert ns[i] in ns;
    if i > 0 {
      assert ns[i - 1] in ns;
    }
    forall n | n in ns && expected <= n ensures n >= ns[i] {
      var j :| 0 <= j < |ns| && ns[j] == n;
    }
  }

  lemma SearchEnds(rs: seq<Record>, gaps: seq<Range>, ns: seq<int>, from: int, to: int, expected: int)
    requires SpanOf(ns, rs, from, to) && ns != [] && expected == ns[|ns| - 1] + 1 && GapsUpTo(gaps, ns, from, expected)
    ensures from <= to
    ensures var all := if expected <= to then gaps + [Range(expected, to)] else gaps;
            Exact(rs, from, to, |all| == 0, all)
  {
    assert ns[|ns| - 1] in ns;
    forall n | n in ns ensures n < expected {
      var j :| 0 <= j < |ns| && ns[j] == n;
    }
    var all := if expected <= to then gaps + [Range(expected, to)] else gaps;
    forall n ensures InSome(all, n) <==> from <= n <= to && Absent(rs, n) {
      InSomeSnoc(gaps, Range(expected, to), n);
    }
    if all != [] {
      assert InRange(all[0], all[0].from);
      assert InSome(all, all[0].from);
    }
  }
}
