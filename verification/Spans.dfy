/**
  Merging value ranges and replacing them back to front, against a left-to-right definition by
  positions: each maximal run of covered positions becomes one mask.
*/
module Spans {
  import opened Base
  import opened Scrub

  predicate Covered(spans: seq<Span>, p: nat) {
    exists i | 0 <= i < |spans| :: spans[i].begin <= p < spans[i].end
  }

  /** The reference: walk the text, copy uncovered characters, put one mask per covered run. */
  function Redact(text: string, spans: seq<Span>, mask: string, p: nat): string
    requires p <= |text|
    decreases |text| - p
  {
    if p == |text| then ""
    else
      (if !Covered(spans, p) then [text[p]]
       else if p == 0 || !Covered(spans, p - 1) then mask else "")
      + Redact(text, spans, mask, p + 1)
  }

  /** Only coverage matters. */
  lemma {:induction false} RedactByCoverage(text: string, a: seq<Span>, b: seq<Span>, mask: string, p: nat)
    requires p <= |text| && forall q: nat :: Covered(a, q) <==> Covered(b, q)
    ensures Redact(text, a, mask, p) == Redact(text, b, mask, p)
    decreases |text| - p
  {
    if p < |text| { RedactByCoverage(text, a, b, mask, p + 1); }
  }

  predicate InText(spans: seq<Span>, n: nat) {
    forall i | 0 <= i < |spans| :: spans[i].begin < spans[i].end <= n
  }

  /** Non-empty, in order, and with at least one position between neighbours. */
  predicate Gapped(m: seq<Span>) {
    && (forall i | 0 <= i < |m| :: m[i].begin < m[i].end)
    && (forall i, j | 0 <= i < j < |m| :: m[i].end < m[j].begin)
  }

  // ---------------------------------------------------------------------------
  //  Sorting and merging
  // ---------------------------------------------------------------------------

  predicate Before(a: Span, b: Span) { a.begin < b.begin || (a.begin == b.begin && a.end <= b.end) }

  predicate Ordered(s: seq<Span>) { forall i, j | 0 <= i < j < |s| :: Before(s[i], s[j]) }

  function Insert(s: seq<Span>, x: Span): seq<Span> {
    if s == [] || Before(s[|s| - 1], x) then s + [x] else Insert(s[..|s| - 1], x) + [s[|s| - 1]]
  }

  /** The library sort. */
  function Sort(s: seq<Span>): seq<Span> {
    if s == [] then [] else Insert(Sort(s[..|s| - 1]), s[|s| - 1])
  }

  predicate AllBefore(s: seq<Span>, hi: Span) { forall i | 0 <= i < |s| :: Before(s[i], hi) }

  lemma {:induction false} InsertKeeps(s: seq<Span>, x: Span)
    ensures multiset(Insert(s, x)) == multiset(s) + multiset{x}
    decreases |s|
  {
    if s != [] {
      assert s == s[..|s| - 1] + [s[|s| - 1]];
      if !Before(s[|s| - 1], x) { InsertKeeps(s[..|s| - 1], x); }
    }
  }

  lemma {:induction false} InsertBelow(s: seq<Span>, x: Span, hi: Span)
    requires AllBefore(s, hi) && Before(x, hi)
    ensures AllBefore(Insert(s, x), hi)
    decreases |s|
  {
    if s != [] && !Before(s[|s| - 1], x) { InsertBelow(s[..|s| - 1], x, hi); }
  }

  lemma {:induction false} InsertOrders(s: seq<Span>, x: Span)
    requires Ordered(s)
    ensures Ordered(Insert(s, x))
    decreases |s|
  {
    if s != [] {
      var n := |s| - 1;
      if !Before(s[n], x) {
        InsertOrders(s[..n], x);
        InsertBelow(s[..n], x, s[n]);
      }
    }
  }

  lemma {:induction false} SortSorts(s: seq<Span>)
    ensures Ordered(Sort(s)) && multiset(Sort(s)) == multiset(s)
    decreases |s|
  {
    if s != [] {
      SortSorts(s[..|s| - 1]);
      InsertOrders(Sort(s[..|s| - 1]), s[|s| - 1]);
      InsertKeeps(Sort(s[..|s| - 1]), s[|s| - 1]);
      assert s == s[..|s| - 1] + [s[|s| - 1]];
    }
  }

  lemma SameCoverage(a: seq<Span>, b: seq<Span>, p: nat)
    requires multiset(a) == multiset(b)
    ensures Covered(a, p) ==> Covered(b, p)
  {
    if Covered(a, p) {
      var i :| 0 <= i < |a| && a[i].begin <= p < a[i].end;
      assert a[i] in multiset(b) && a[i] in b;
      var j :| 0 <= j < |b| && b[j] == a[i];
    }
  }

  lemma CoverMore(s: seq<Span>, x: Span, p: nat)
    ensures Covered(s + [x], p) <==> Covered(s, p) || x.begin <= p < x.end
  {
    if Covered(s, p) {
      var i :| 0 <= i < |s| && s[i].begin <= p < s[i].end;
      assert (s + [x])[i] == s[i];
    }
    if x.begin <= p < x.end { assert (s + [x])[|s|] == x; }
  }

  /** Widening the last merged span to take in x, which starts inside or next to it. */
  lemma Widened(m: seq<Span>, x: Span, p: nat)
    requires m != [] && m[|m| - 1].begin <= x.begin <= m[|m| - 1].end
    requires m[|m| - 1].begin <= m[|m| - 1].end && x.begin <= x.end
    ensures var last := m[|m| - 1];
      Covered(m[..|m| - 1] + [Span(last.begin, Max(last.end, x.end))], p) <==>
        Covered(m, p) || x.begin <= p < x.end
  {
    var n := |m| - 1;
    CoverMore(m[..n], m[n], p);
    CoverMore(m[..n], Span(m[n].begin, Max(m[n].end, x.end)), p);
    assert m[..n] + [m[n]] == m;
  }

  /** Take in one more range: widen the last one, or add a new one. */
  function Absorb(m: seq<Span>, r: Span): seq<Span> {
    if m != [] && r.begin <= m[|m| - 1].end
    then m[..|m| - 1] + [Span(m[|m| - 1].begin, Max(m[|m| - 1].end, r.end))]
    else m + [r]
  }

  /** r may come next. */
  predicate Follows(m: seq<Span>, r: Span) { m != [] ==> m[|m| - 1].begin <= r.begin }

  lemma AbsorbCovers(m: seq<Span>, r: Span, n: nat, p: nat)
    requires InText(m, n) && Follows(m, r) && r.begin < r.end
    ensures Covered(Absorb(m, r), p) <==> Covered(m, p) || r.begin <= p < r.end
  {
    if m != [] && r.begin <= m[|m| - 1].end { Widened(m, r, p); } else { CoverMore(m, r, p); }
  }

  lemma AbsorbKeeps(m: seq<Span>, r: Span, n: nat)
    requires Gapped(m) && InText(m, n) && Follows(m, r) && r.begin < r.end <= n
    ensures Gapped(Absorb(m, r)) && InText(Absorb(m, r), n)
    ensures Absorb(m, r) != [] && Absorb(m, r)[|Absorb(m, r)| - 1].begin <= r.begin
  {
    var a := Absorb(m, r);
    if m != [] && r.begin <= m[|m| - 1].end {
      assert forall i | 0 <= i < |m| - 1 :: a[i] == m[i];
      assert a[|m| - 1] == Span(m[|m| - 1].begin, Max(m[|m| - 1].end, r.end));
    } else {
      assert forall i | 0 <= i < |m| :: a[i] == m[i];
    }
  }

  /** m covers what the first i ranges cover. */
  ghost predicate Merged(m: seq<Span>, sorted: seq<Span>, i: nat)
    requires i <= |sorted|
  {
    forall p: nat :: Covered(m, p) <==> Covered(sorted[..i], p)
  }

  lemma MergedOn(m: seq<Span>, sorted: seq<Span>, i: nat, n: nat)
    requires i < |sorted| && Merged(m, sorted, i) && InText(m, n) && Follows(m, sorted[i]) && sorted[i].begin < sorted[i].end
    ensures Merged(Absorb(m, sorted[i]), sorted, i + 1)
  {
    assert sorted[..i + 1] == sorted[..i] + [sorted[i]];
    forall p: nat ensures Covered(Absorb(m, sorted[i]), p) <==> Covered(sorted[..i + 1], p) {
      CoverMore(sorted[..i], sorted[i], p);
      AbsorbCovers(m, sorted[i], n, p);
    }
  }

  method TakeIn(m: seq<Span>, r: Span, n: nat) returns (a: seq<Span>)
    requires Gapped(m) && InText(m, n) && Follows(m, r) && r.begin < r.end <= n
    ensures a == Absorb(m, r) && Gapped(a) && InText(a, n)
    ensures a != [] && a[|a| - 1].begin <= r.begin
  {
    AbsorbKeeps(m, r, n);
    if m != [] && r.begin <= m[|m| - 1].end {
      var last := m[|m| - 1];
      a := m[..|m| - 1] + [Span(last.begin, Max(last.end, r.end))];
    } else {
      a := m + [r];
    }
  }

  /** One pass over the sorted ranges. */
  method Merge(sorted: seq<Span>, n: nat) returns (m: seq<Span>)
    requires Ordered(sorted) && InText(sorted, n)
    ensures Gapped(m) && InText(m, n)
    ensures forall p: nat :: Covered(m, p) <==> Covered(sorted, p)
  {
    m := [];
    var i := 0;
    while i < |sorted|
      invariant 0 <= i <= |sorted| && Gapped(m) && InText(m, n) && Merged(m, sorted, i)
      invariant i < |sorted| ==> Follows(m, sorted[i])
    {
      MergedOn(m, sorted, i, n);
      m := TakeIn(m, sorted[i], n);
      i := i + 1;
    }
    assert sorted[..i] == sorted;
  }

  // ---------------------------------------------------------------------------
  //  Replacing back to front
  // ---------------------------------------------------------------------------

  /** Gaps in order, one mask per span, from span k and position `from` on. */
  function Render(text: string, m: seq<Span>, mask: string, k: nat, from: nat): string
    requires k <= |m| && from <= |text| && InText(m, |text|) && Gapped(m)
    requires k < |m| ==> from <= m[k].begin
    decreases |m| - k
  {
    if k == |m| then text[from..]
    else text[from..m[k].begin] + mask + Render(text, m, mask, k + 1, m[k].end)
  }

  function EndBefore(m: seq<Span>, k: nat): nat
    requires k <= |m|
  {
    if k == 0 then 0 else m[k - 1].end
  }

  lemma Regroup(a: string, b: string, c: string, d: string)
    ensures a + (b + c + d) == (a + b) + c + d
  {}

  lemma Halves(text: string, work: string, tail: string, b: nat, e: nat)
    requires b <= e <= |text| && work == text[..e] + tail
    ensures b <= e <= |work| && work[..b] == text[..b] && work[e..] == tail
  {}

  lemma {:induction false} Replaced(text: string, m: seq<Span>, mask: string, k: nat, work: string)
    requires k < |m| && InText(m, |text|) && Gapped(m)
    requires work == text[..m[k].end] + Render(text, m, mask, k + 1, m[k].end)
    ensures work[..m[k].begin] + mask + work[m[k].end..] ==
      text[..EndBefore(m, k)] + Render(text, m, mask, k, EndBefore(m, k))
  {
    var from, b, e := EndBefore(m, k), m[k].begin, m[k].end;
    var tail := Render(text, m, mask, k + 1, e);
    Halves(text, work, tail, b, e);
    Regroup(text[..from], text[from..b], mask, tail);
    assert text[..from] + text[from..b] == text[..b];
    RenderPiece(text, m, mask, k);
  }

  method ReplaceAll(text: string, m: seq<Span>, mask: string) returns (work: string)
    requires InText(m, |text|) && Gapped(m)
    ensures work == Render(text, m, mask, 0, 0)
  {
    work := text;
    var k := |m|;
    ghost var e := EndBefore(m, k);
    assert work == text[..e] + text[e..];
    while k > 0
      invariant 0 <= k <= |m|
      invariant work == text[..EndBefore(m, k)] + Render(text, m, mask, k, EndBefore(m, k))
    {
      k := k - 1;
      Replaced(text, m, mask, k, work);
      work := work[..m[k].begin] + mask + work[m[k].end..];
    }
    assert text[..0] == "";
  }

  // ---------------------------------------------------------------------------
  //  Rendering merged spans is the reference
  // ---------------------------------------------------------------------------

  lemma NotCovered(m: seq<Span>, k: nat, p: nat)
    requires Gapped(m) && k <= |m| && EndBefore(m, k) <= p && (k < |m| ==> p < m[k].begin)
    ensures !Covered(m, p)
  {
    forall i | 0 <= i < |m| ensures !(m[i].begin <= p < m[i].end) {
      if i < k {
        assert m[i].end <= EndBefore(m, k);
      } else {
        assert m[k].begin <= m[i].begin;
      }
    }
  }

  lemma UncoveredStep(text: string, m: seq<Span>, mask: string, p: nat)
    requires p < |text| && !Covered(m, p)
    ensures Redact(text, m, mask, p) == [text[p]] + Redact(text, m, mask, p + 1)
  {}

  lemma Prepended(text: string, p: nat, to: nat, end: string)
    requires p < to <= |text|
    ensures [text[p]] + (text[p + 1..to] + end) == text[p..to] + end
  {
    assert text[p..to] == [text[p]] + text[p + 1..to];
  }

  predicate Bare(m: seq<Span>, p: nat, to: nat) { forall q | p <= q < to :: !Covered(m, q) }

  /** A stretch that no span covers is copied. */
  lemma {:induction false} GapCopied(text: string, m: seq<Span>, mask: string, p: nat, to: nat)
    requires p <= to <= |text| && Bare(m, p, to)
    ensures Redact(text, m, mask, p) == text[p..to] + Redact(text, m, mask, to)
    decreases |text| - p
  {
    if p < to {
      UncoveredStep(text, m, mask, p);
      GapCopied(text, m, mask, p + 1, to);
      Prepended(text, p, to, Redact(text, m, mask, to));
    } else {
      assert text[p..to] == "";
    }
  }

  lemma GapIsBare(m: seq<Span>, k: nat, to: nat)
    requires Gapped(m) && k <= |m| && (k < |m| ==> to <= m[k].begin)
    ensures Bare(m, EndBefore(m, k), to)
  {
    forall q | EndBefore(m, k) <= q < to ensures !Covered(m, q) { NotCovered(m, k, q); }
  }

  /** Inside a span nothing more is written. */
  lemma {:induction false} SpanSkipped(text: string, m: seq<Span>, mask: string, k: nat, p: nat)
    requires Gapped(m) && InText(m, |text|) && k < |m| && m[k].begin < p <= m[k].end
    ensures Redact(text, m, mask, p) == Redact(text, m, mask, m[k].end)
    decreases |text| - p
  {
    if p < m[k].end {
      assert Covered(m, p) && Covered(m, p - 1);
      SpanSkipped(text, m, mask, k, p + 1);
    }
  }

  lemma SpanMasked(text: string, m: seq<Span>, mask: string, k: nat)
    requires Gapped(m) && InText(m, |text|) && k < |m|
    ensures Redact(text, m, mask, m[k].begin) == mask + Redact(text, m, mask, m[k].end)
  {
    var b := m[k].begin;
    assert Covered(m, b);
    if b > 0 {
      if k > 0 { assert m[k - 1].end < m[k].begin; }
      NotCovered(m, k, b - 1);
    }
    SpanSkipped(text, m, mask, k, b + 1);
  }

  lemma OnePiece(text: string, m: seq<Span>, mask: string, k: nat)
    requires Gapped(m) && InText(m, |text|) && k < |m|
    ensures EndBefore(m, k) <= m[k].begin
    ensures Redact(text, m, mask, EndBefore(m, k)) ==
      text[EndBefore(m, k)..m[k].begin] + mask + Redact(text, m, mask, m[k].end)
  {
    var from := EndBefore(m, k);
    GapIsBare(m, k, m[k].begin);
    GapCopied(text, m, mask, from, m[k].begin);
    SpanMasked(text, m, mask, k);
    var a, c := text[from..m[k].begin], Redact(text, m, mask, m[k].end);
    assert a + (mask + c) == a + mask + c;
  }

  lemma LastPiece(text: string, m: seq<Span>, mask: string)
    requires Gapped(m) && InText(m, |text|)
    ensures Redact(text, m, mask, EndBefore(m, |m|)) == text[EndBefore(m, |m|)..]
  {
    GapIsBare(m, |m|, |text|);
    GapCopied(text, m, mask, EndBefore(m, |m|), |text|);
  }

  lemma {:induction false} RenderPiece(text: string, m: seq<Span>, mask: string, k: nat)
    requires Gapped(m) && InText(m, |text|) && k < |m|
    ensures EndBefore(m, k) <= m[k].begin && EndBefore(m, k + 1) == m[k].end
    ensures Render(text, m, mask, k, EndBefore(m, k)) ==
      text[EndBefore(m, k)..m[k].begin] + mask + Render(text, m, mask, k + 1, m[k].end)
  {}

  lemma {:induction false} RenderIsRedact(text: string, m: seq<Span>, mask: string, k: nat)
    requires Gapped(m) && InText(m, |text|) && k <= |m|
    ensures Render(text, m, mask, k, EndBefore(m, k)) == Redact(text, m, mask, EndBefore(m, k))
    decreases |m| - k
  {
    if k < |m| {
      RenderIsRedact(text, m, mask, k + 1);
      RenderPiece(text, m, mask, k);
      OnePiece(text, m, mask, k);
    } else {
      LastPiece(text, m, mask);
    }
  }

  /** Sort, merge, replace from the back: the reference on the ranges as they were found. */
  method MaskSpans(text: string, spans: seq<Span>, mask: string) returns (r: string)
    requires InText(spans, |text|)
    ensures r == Redact(text, spans, mask, 0)
  {
    var sorted := Sort(spans);
    SortSorts(spans);
    forall i | 0 <= i < |sorted| ensures sorted[i].begin < sorted[i].end <= |text| {
      assert sorted[i] in multiset(spans) && sorted[i] in spans;
    }
    var m := Merge(sorted, |text|);
    forall p: nat ensures Covered(m, p) <==> Covered(spans, p) {
      SameCoverage(sorted, spans, p);
      SameCoverage(spans, sorted, p);
    }
    r := ReplaceAll(text, m, mask);
    RenderIsRedact(text, m, mask, 0);
    RedactByCoverage(text, m, spans, mask, 0);
  }
}
