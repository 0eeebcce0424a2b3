/**
 * The continuity grouping shared by the transcript editor (gap 0.2 s) and the
 * continuous transcript viewer (gap 0.3 s): consecutive words stay in one
 * group while the silence between them is at most the gap; a longer silence
 * starts a new group. The grouping is described by the inclusive word-index
 * spans of its groups.
 */
module Continuity {
  import opened Common

  /** The inclusive word-index range [first, last] of one group. */
  datatype Span = Span(first: nat, last: nat)

  /** A new group starts at word i > 0 when the silence before it exceeds the gap. */
  predicate BreakAt(t: seq<Word>, gap: real, i: nat)
    requires 0 < i < |t|
  {
    t[i].start - t[i - 1].end > gap
  }

  /** Every span is a non-empty range of the words 0..n-1. */
  predicate Bounded(spans: seq<Span>, n: nat)
  {
    forall k :: 0 <= k < |spans| ==> spans[k].first <= spans[k].last < n
  }

  /** The spans start at word 0, end at word n-1, and each starts right after the previous one. */
  predicate Contiguous(spans: seq<Span>, n: nat)
  {
    && (n == 0 <==> |spans| == 0)
    && (n > 0 ==> spans[0].first == 0 && spans[|spans| - 1].last == n - 1)
    && (forall k :: 0 < k < |spans| ==> spans[k].first == spans[k - 1].last + 1)
  }

  /** `spans` partitions the words 0..n-1 into groups, breaking exactly at the long silences. */
  predicate IsGrouping(t: seq<Word>, gap: real, spans: seq<Span>, n: nat)
    requires n <= |t|
  {
    && Bounded(spans, n)
    && Contiguous(spans, n)
    && (forall k :: 0 < k < |spans| ==> 0 < spans[k].first && BreakAt(t, gap, spans[k].first))
    && (forall k, i :: 0 <= k < |spans| && spans[k].first < i <= spans[k].last ==> !BreakAt(t, gap, i))
  }

  /**
   * The spans after the first n words have been scanned: the first word opens
   * a group; each later word either extends the last group or, after a long
   * silence, opens a new one.
   */
  function SpansUpTo(t: seq<Word>, gap: real, n: nat): (r: seq<Span>)
    requires n <= |t|
    ensures n == 0 <==> |r| == 0
    ensures n > 0 ==> r[|r| - 1].last == n - 1
    ensures Bounded(r, n)
  {
    if n == 0 then []
    else if n == 1 then [Span(0, 0)]
    else
      var before := SpansUpTo(t, gap, n - 1);
      if BreakAt(t, gap, n - 1) then before + [Span(n - 1, n - 1)]
      else before[..|before| - 1] + [Span(before[|before| - 1].first, n - 1)]
  }

  /** The scan produces a grouping of the scanned words. */
  lemma {:induction false} SpansAreGrouping(t: seq<Word>, gap: real, n: nat)
    requires n <= |t|
    ensures IsGrouping(t, gap, SpansUpTo(t, gap, n), n)
  {
    if n == 1 {
      assert SpansUpTo(t, gap, n) == [Span(0, 0)];
    } else if n > 1 {
      SpansAreGrouping(t, gap, n - 1);
      var before, now := SpansUpTo(t, gap, n - 1), SpansUpTo(t, gap, n);
      if BreakAt(t, gap, n - 1) {
        assert now == before + [Span(n - 1, n - 1)];
        ExtendGrouping(t, gap, before, n);
      } else {
        var last := before[|before| - 1];
        assert now == before[..|before| - 1] + [Span(last.first, n - 1)];
        WidenGrouping(t, gap, before, n);
      }
    }
  }

  /** Opening a new group at word n-1 after a long silence keeps the grouping property. */
  lemma ExtendGrouping(t: seq<Word>, gap: real, before: seq<Span>, n: nat)
    requires 1 < n <= |t|
    requires IsGrouping(t, gap, before, n - 1)
    requires BreakAt(t, gap, n - 1)
    ensures IsGrouping(t, gap, before + [Span(n - 1, n - 1)], n)
  {
    var now := before + [Span(n - 1, n - 1)];
    assert forall k :: 0 <= k < |before| ==> now[k] == before[k];
  }

  /** Adding word n-1 to the last group after a short silence keeps the grouping property. */
  lemma WidenGrouping(t: seq<Word>, gap: real, before: seq<Span>, n: nat)
    requires 1 < n <= |t|
    requires IsGrouping(t, gap, before, n - 1)
    requires !BreakAt(t, gap, n - 1)
    ensures IsGrouping(t, gap, before[..|before| - 1] + [Span(before[|before| - 1].first, n - 1)], n)
  {
    var m := |before| - 1;
    var now := before[..m] + [Span(before[m].first, n - 1)];
    assert now == before[m := Span(before[m].first, n - 1)];
    WidenLastSpan(t, gap, before, n);
  }

  lemma WidenLastSpan(t: seq<Word>, gap: real, before: seq<Span>, n: nat)
    requires 1 < n <= |t|
    requires IsGrouping(t, gap, before, n - 1)
    requires !BreakAt(t, gap, n - 1)
    ensures IsGrouping(t, gap, before[|before| - 1 := Span(before[|before| - 1].first, n - 1)], n)
  {
    var m := |before| - 1;
    var now := before[m := Span(before[m].first, n - 1)];
    forall k, i | 0 <= k < |now| && now[k].first < i <= now[k].last
      ensures !BreakAt(t, gap, i)
    {
      if k == m && i < n - 1 {
        assert i <= before[m].last;
      }
    }
  }

  function Spans(t: seq<Word>, gap: real): seq<Span>
  {
    SpansUpTo(t, gap, |t|)
  }

  /** The words of each span. */
  function SpanWords(t: seq<Word>, spans: seq<Span>): (r: seq<seq<Word>>)
    requires forall k :: 0 <= k < |spans| ==> spans[k].first <= spans[k].last < |t|
    ensures |r| == |spans|
    ensures forall k :: 0 <= k < |spans| ==> r[k] == t[spans[k].first..spans[k].last + 1]
  {
    seq(|spans|, k requires 0 <= k < |spans| => t[spans[k].first..spans[k].last + 1])
  }

  /** Concatenation of a sequence of word runs. */
  function Flatten<T>(runs: seq<seq<T>>): seq<T>
  {
    if |runs| == 0 then [] else Flatten(runs[..|runs| - 1]) + runs[|runs| - 1]
  }

  /** The groups cover the scanned words exactly: their concatenation is the transcript prefix. */
  lemma {:induction false} SpansCover(t: seq<Word>, gap: real, n: nat)
    requires n <= |t|
    ensures Flatten(SpanWords(t, SpansUpTo(t, gap, n))) == t[..n]
  {
    if n == 0 {
      assert SpanWords(t, SpansUpTo(t, gap, n)) == [];
    } else if n == 1 {
      var w := SpanWords(t, SpansUpTo(t, gap, n));
      assert w == [t[0..1]];
      assert w[..0] == [];
    } else {
      SpansCover(t, gap, n - 1);
      var before := SpansUpTo(t, gap, n - 1);
      if BreakAt(t, gap, n - 1) {
        CoverExtend(t, before, n);
      } else {
        CoverWiden(t, before, n);
      }
    }
  }

  lemma CoverExtend(t: seq<Word>, before: seq<Span>, n: nat)
    requires 0 < n <= |t| && Bounded(before, n - 1)
    requires Flatten(SpanWords(t, before)) == t[..n - 1]
    ensures Flatten(SpanWords(t, before + [Span(n - 1, n - 1)])) == t[..n]
  {
    SpanWordsSnoc(t, before, Span(n - 1, n - 1));
    FlattenSnoc(SpanWords(t, before), t[n - 1..n]);
    assert t[..n] == t[..n - 1] + t[n - 1..n];
  }

  lemma CoverWiden(t: seq<Word>, before: seq<Span>, n: nat)
    requires 0 < n <= |t| && |before| > 0 && Bounded(before, n - 1)
    requires before[|before| - 1].last == n - 2
    requires Flatten(SpanWords(t, before)) == t[..n - 1]
    ensures Flatten(SpanWords(t, before[..|before| - 1] + [Span(before[|before| - 1].first, n - 1)])) == t[..n]
  {
    var m := |before| - 1;
    var f := before[m].first;
    var init := before[..m];
    assert before == init + [before[m]];
    var wp := SpanWords(t, init);
    SpanWordsSnoc(t, init, before[m]);
    FlattenSnoc(wp, t[f..n - 1]);
    assert Flatten(wp) == t[..f] by {
      var p := Flatten(wp);
      assert |p| == f;
      assert p == (p + t[f..n - 1])[..f];
    }
    SpanWordsSnoc(t, init, Span(f, n - 1));
    FlattenSnoc(wp, t[f..n]);
    assert t[..n] == t[..f] + t[f..n];
  }

  /** The words of one more span come after the words of the others. */
  lemma SpanWordsSnoc(t: seq<Word>, spans: seq<Span>, s: Span)
    requires forall k :: 0 <= k < |spans| ==> spans[k].first <= spans[k].last < |t|
    requires s.first <= s.last < |t|
    ensures SpanWords(t, spans + [s]) == SpanWords(t, spans) + [t[s.first..s.last + 1]]
  {
    var now := spans + [s];
    assert forall k :: 0 <= k < |spans| ==> now[k] == spans[k];
  }

  lemma FlattenSnoc<T>(runs: seq<seq<T>>, r: seq<T>)
    ensures Flatten(runs + [r]) == Flatten(runs) + r
  {
    assert (runs + [r])[..|runs|] == runs;
  }

  /** A long silence before word i always opens a group there (the converse of IsGrouping's break clause). */
  lemma {:induction false} BreakOpensGroup(t: seq<Word>, gap: real, n: nat, i: nat)
    requires 0 < i < n <= |t|
    requires BreakAt(t, gap, i)
    ensures exists k :: 0 < k < |SpansUpTo(t, gap, n)| && SpansUpTo(t, gap, n)[k].first == i
  {
    var now, before := SpansUpTo(t, gap, n), SpansUpTo(t, gap, n - 1);
    var m := |before| - 1;
    if BreakAt(t, gap, n - 1) {
      assert now == before + [Span(n - 1, n - 1)];
    } else {
      assert now == before[..m] + [Span(before[m].first, n - 1)];
    }
    if i == n - 1 {
      assert now[m + 1].first == i;
    } else {
      BreakOpensGroup(t, gap, n - 1, i);
      var k :| 0 < k < |before| && before[k].first == i;
      assert now[k].first == i;
    }
  }

  /** The number of long silences among the first n words. */
  function BreakCount(t: seq<Word>, gap: real, n: nat): nat
    requires n <= |t|
  {
    if n <= 1 then 0
    else BreakCount(t, gap, n - 1) + (if BreakAt(t, gap, n - 1) then 1 else 0)
  }

  /** A non-empty prefix has one group more than it has long silences. */
  lemma {:induction false} GroupCount(t: seq<Word>, gap: real, n: nat)
    requires 0 < n <= |t|
    ensures |SpansUpTo(t, gap, n)| == 1 + BreakCount(t, gap, n)
  {
    if n > 1 {
      GroupCount(t, gap, n - 1);
    }
  }

  /** Taking the word texts commutes with concatenation. */
  lemma {:induction false} FlattenTexts(runs: seq<seq<Word>>)
    ensures Flatten(seq(|runs|, k requires 0 <= k < |runs| => Texts(runs[k]))) == Texts(Flatten(runs))
  {
    var texts := seq(|runs|, k requires 0 <= k < |runs| => Texts(runs[k]));
    if |runs| > 0 {
      var init := runs[..|runs| - 1];
      FlattenTexts(init);
      assert texts[..|texts| - 1] == seq(|init|, k requires 0 <= k < |init| => Texts(init[k]));
      assert Texts(Flatten(init) + runs[|runs| - 1]) == Texts(Flatten(init)) + Texts(runs[|runs| - 1]);
    }
  }
}
