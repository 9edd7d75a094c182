/**
  Redactor::ScrubText as a whole: every rule's hits in the normalised text, the value that
  follows each hit in the original text, and the masking of those values.
*/
module Redactor {
  import opened Base
  import opened Text
  import opened Scrub
  import opened Spans

  // ---------------------------------------------------------------------------
  //  Hits
  // ---------------------------------------------------------------------------

  predicate Occurs(norm: string, key: string, h: nat) {
    h + |key| <= |norm| && norm[h..h + |key|] == key
  }

  /** The first occurrence at or after `from`. */
  function FindKey(norm: string, key: string, from: nat): (r: Option<nat>)
    ensures r.Some? ==> from <= r.value && Occurs(norm, key, r.value)
    decreases |norm| - from
  {
    if from + |key| > |norm| then None
    else if Occurs(norm, key, from) then Some(from)
    else FindKey(norm, key, from + 1)
  }

  lemma {:induction false} FindKeyFirst(norm: string, key: string, from: nat, h: nat)
    requires from <= h && Occurs(norm, key, h)
    ensures FindKey(norm, key, from).Some? && FindKey(norm, key, from).value <= h
    decreases |norm| - from
  {
    if !Occurs(norm, key, from) { FindKeyFirst(norm, key, from + 1, h); }
  }

  /** Hits from left to right; the search goes on after each hit. */
  function Hits(norm: string, key: string, from: nat): seq<nat>
    requires key != ""
    decreases |norm| - from
  {
    var h := FindKey(norm, key, from);
    if h.None? then [] else [h.value] + Hits(norm, key, h.value + |key|)
  }

  lemma {:induction false} HitsOccur(norm: string, key: string, from: nat, i: nat)
    requires key != "" && i < |Hits(norm, key, from)|
    ensures Occurs(norm, key, Hits(norm, key, from)[i])
    decreases |norm| - from
  {
    var h := FindKey(norm, key, from).value;
    if i > 0 { HitsOccur(norm, key, h + |key|, i - 1); }
  }

  /** No proper prefix of the key is also a suffix of it. */
  predicate Borderless(key: string) {
    forall n | 0 < n < |key| :: key[..n] != key[|key| - n..]
  }

  lemma OverlapBorders(norm: string, key: string, a: nat, b: nat)
    requires Occurs(norm, key, a) && Occurs(norm, key, b) && a < b < a + |key|
    ensures !Borderless(key)
  {
    var n := a + |key| - b;
    assert key[..n] == norm[b..b + |key|][..n] == norm[b..b + n];
    assert key[|key| - n..] == norm[a..a + |key|][|key| - n..] == norm[b..b + n];
  }

  lemma NoOverlap(norm: string, key: string, a: nat, b: nat)
    requires Borderless(key) && Occurs(norm, key, a) && Occurs(norm, key, b) && a < b
    ensures a + |key| <= b
  {
    if b < a + |key| { OverlapBorders(norm, key, a, b); }
  }

  /** For a borderless key every occurrence is a hit. */
  lemma {:induction false} EveryOccurrenceHit(norm: string, key: string, from: nat, h: nat)
    requires key != "" && Borderless(key) && from <= h && Occurs(norm, key, h)
    ensures h in Hits(norm, key, from)
    decreases |norm| - from
  {
    FindKeyFirst(norm, key, from, h);
    var first := FindKey(norm, key, from).value;
    if first < h {
      NoOverlap(norm, key, first, h);
      EveryOccurrenceHit(norm, key, first + |key|, h);
    }
  }

  predicate Border(key: string, n: nat) { 0 < n < |key| && key[..n] == key[|key| - n..] }

  /** Two occurrences of the key that share n characters. */
  predicate Telescoped(text: string, key: string, n: nat) {
    0 < n < |key| && |text| == 2 * |key| - n && Occurs(text, key, 0) && Occurs(text, key, |key| - n)
  }

  lemma BorderTelescopes(key: string, n: nat)
    requires Border(key, n)
    ensures Telescoped(key + key[n..], key, n)
  {
    var text, h := key + key[n..], |key| - n;
    assert text[0..|key|] == key;
    assert text[h..|key|] == key[h..] == key[..n];
    assert text[|key|..h + |key|] == key[n..];
    assert text[h..h + |key|] == text[h..|key|] + text[|key|..h + |key|];
    assert key == key[..n] + key[n..];
  }

  lemma SecondMissed(text: string, key: string, n: nat)
    requires Telescoped(text, key, n)
    ensures Hits(text, key, 0) == [0]
  {
    assert FindKey(text, key, 0) == Some(0);
    assert FindKey(text, key, |key|) == None;
    assert Hits(text, key, |key|) == [];
  }

  /** In every text every occurrence of the key is a hit if and only if the key does not overlap
      itself. */
  lemma AllHitIff(key: string)
    requires key != ""
    ensures (forall norm: string, h: nat | Occurs(norm, key, h) :: h in Hits(norm, key, 0)) <==> Borderless(key)
  {
    if Borderless(key) {
      forall norm: string, h: nat | Occurs(norm, key, h) ensures h in Hits(norm, key, 0) {
        EveryOccurrenceHit(norm, key, 0, h);
      }
    } else {
      var n :| 0 < n < |key| && key[..n] == key[|key| - n..];
      BorderTelescopes(key, n);
      var text := key + key[n..];
      SecondMissed(text, key, n);
      assert Occurs(text, key, |key| - n) && |key| - n !in Hits(text, key, 0);
    }
  }

  // ---------------------------------------------------------------------------
  //  Values
  // ---------------------------------------------------------------------------

  predicate ColonValueEnd(c: char) {
    c == '\n' || c == '\r' || c == '"' || c == '\'' || c == ',' || c == ';' || c == '}' || c == ']'
  }

  predicate EqualsValueEnd(c: char) {
    ColonValueEnd(c) || c == ' ' || c == '\t' || c == '&' || c == ')'
  }

  function SkipBlanks(text: string, i: nat): (j: nat)
    requires i <= |text|
    ensures i <= j <= |text|
    decreases |text| - i
  {
    if i < |text| && Blank(text[i]) then SkipBlanks(text, i + 1) else i
  }

  function SkipQuote(text: string, i: nat): (j: nat)
    requires i <= |text|
    ensures i <= j <= |text|
  {
    if i < |text| && text[i] == '"' then i + 1 else i
  }

  function ValueEnd(text: string, i: nat, colon: bool): (j: nat)
    requires i <= |text|
    ensures i <= j <= |text|
    decreases |text| - i
  {
    if i < |text| && !(if colon then ColonValueEnd(text[i]) else EqualsValueEnd(text[i]))
    then ValueEnd(text, i + 1, colon) else i
  }

  /** The value after a key that ends at position i: optional quote, blanks, `:` or `=`, blanks,
      optional quote, then everything up to an end character. */
  function ValueAt(text: string, i: nat): (r: Option<Span>)
    requires i <= |text|
    ensures r.Some? ==> i < r.value.begin < r.value.end <= |text|
  {
    var sep := SkipBlanks(text, SkipQuote(text, i));
    if sep == |text| || (text[sep] != ':' && text[sep] != '=') then None
    else
      var begin := SkipQuote(text, SkipBlanks(text, sep + 1));
      var end := ValueEnd(text, begin, text[sep] == ':');
      if end > begin then Some(Span(begin, end)) else None
  }

  method PassBlanks(text: string, from: nat) returns (i: nat)
    requires from <= |text|
    ensures i == SkipBlanks(text, from)
  {
    i := from;
    while i < |text| && Blank(text[i])
      invariant i <= |text| && SkipBlanks(text, i) == SkipBlanks(text, from)
    {
      i := i + 1;
    }
  }

  method PassValue(text: string, from: nat, colon: bool) returns (i: nat)
    requires from <= |text|
    ensures i == ValueEnd(text, from, colon)
  {
    i := from;
    while i < |text| && !(if colon then ColonValueEnd(text[i]) else EqualsValueEnd(text[i]))
      invariant i <= |text| && ValueEnd(text, i, colon) == ValueEnd(text, from, colon)
    {
      i := i + 1;
    }
  }

  method FindValue(text: string, from: nat) returns (r: Option<Span>)
    requires from <= |text|
    ensures r == ValueAt(text, from)
  {
    var i := PassBlanks(text, SkipQuote(text, from));
    if i == |text| || (text[i] != ':' && text[i] != '=') { return None; }
    var colon := text[i] == ':';
    i := PassBlanks(text, i + 1);
    var begin := SkipQuote(text, i);
    var end := PassValue(text, begin, colon);
    if end > begin { return Some(Span(begin, end)); }
    return None;
  }

  // ---------------------------------------------------------------------------
  //  What a value is, on the text
  // ---------------------------------------------------------------------------

  const COLON_ENDS := "\n\r\"',;}]"
  const EQUALS_ENDS := "\n\r\"',;}] \t&)"

  function Ends(sep: char): string { if sep == ':' then COLON_ENDS else EQUALS_ENDS }

  /** What follows a key: perhaps its closing quote, blanks, a separator, blanks, perhaps an
      opening quote, the value. */
  datatype Phrase = Phrase(quote: string, gap: string, sep: char, pad: string, open: string, value: string)

  function Spoken(p: Phrase): string { (p.quote + p.gap + [p.sep]) + (p.pad + p.open + p.value) }

  predicate AllBlank(s: string) { forall c | c in s :: c == ' ' || c == '\t' }

  /** The phrase may stand before `rest`, its value being as long as possible. */
  predicate Fits(p: Phrase, rest: string) {
    && (p.quote == "" || p.quote == "\"") && (p.open == "" || p.open == "\"")
    && AllBlank(p.gap) && AllBlank(p.pad)
    && (p.sep == ':' || p.sep == '=')
    && p.value != "" && (p.open == "" ==> !AllBlank(p.value[..1]))
    && (forall c | c in p.value :: c !in Ends(p.sep))
    && (rest == "" || rest[0] in Ends(p.sep))
  }

  lemma EndsAre(c: char)
    ensures ColonValueEnd(c) <==> c in COLON_ENDS
    ensures EqualsValueEnd(c) <==> c in EQUALS_ENDS
  {}

  lemma {:induction false} SkipBlanksIs(text: string, i: nat, j: nat)
    requires i <= j <= |text| && (forall k | i <= k < j :: Blank(text[k])) && (j < |text| ==> !Blank(text[j]))
    ensures SkipBlanks(text, i) == j
    decreases j - i
  {
    if i < j { SkipBlanksIs(text, i + 1, j); }
  }

  lemma {:induction false} SkipBlanksSkips(text: string, i: nat)
    requires i <= |text|
    ensures var j := SkipBlanks(text, i);
      AllBlank(text[i..j]) && (j < |text| ==> !Blank(text[j]))
    decreases |text| - i
  {
    if i < |text| && Blank(text[i]) {
      SkipBlanksSkips(text, i + 1);
      assert text[i..SkipBlanks(text, i)] == [text[i]] + text[i + 1..SkipBlanks(text, i)];
    }
  }

  lemma {:induction false} ValueEndIs(text: string, i: nat, j: nat, sep: char)
    requires i <= j <= |text| && (sep == ':' || sep == '=')
    requires (forall k | i <= k < j :: text[k] !in Ends(sep)) && (j < |text| ==> text[j] in Ends(sep))
    ensures ValueEnd(text, i, sep == ':') == j
    decreases j - i
  {
    if i < |text| { EndsAre(text[i]); }
    if i < j { ValueEndIs(text, i + 1, j, sep); }
  }

  lemma {:induction false} ValueEndEnds(text: string, i: nat, sep: char)
    requires i <= |text| && (sep == ':' || sep == '=')
    ensures var j := ValueEnd(text, i, sep == ':');
      (forall c | c in text[i..j] :: c !in Ends(sep)) && (j < |text| ==> text[j] in Ends(sep))
    decreases |text| - i
  {
    var j := ValueEnd(text, i, sep == ':');
    if i < |text| {
      EndsAre(text[i]);
      if i < j {
        ValueEndEnds(text, i + 1, sep);
        assert text[i..j] == [text[i]] + text[i + 1..j];
      }
    }
  }

  /** The part stands at position i. */
  predicate At(text: string, i: nat, part: string) { i + |part| <= |text| && text[i..i + |part|] == part }

  lemma AtBoth(text: string, i: nat, a: string, b: string)
    ensures At(text, i, a + b) <==> At(text, i, a) && At(text, i + |a|, b)
  {
    if i + |a| + |b| <= |text| {
      var s := text[i..i + |a + b|];
      assert s == text[i..i + |a|] + text[i + |a|..i + |a| + |b|];
      if s == a + b {
        assert text[i..i + |a|] == s[..|a|] == a;
        assert text[i + |a|..i + |a| + |b|] == s[|a|..] == b;
      }
    }
  }

  function SepAt(i: nat, p: Phrase): nat { i + |p.quote| + |p.gap| }

  function OpenAt(i: nat, p: Phrase): nat { SepAt(i, p) + 1 + |p.pad| }

  function BeginAt(i: nat, p: Phrase): nat { OpenAt(i, p) + |p.open| }

  /** The parts of a phrase one after the other. */
  predicate Laid(text: string, i: nat, p: Phrase) {
    && At(text, i, p.quote) && At(text, i + |p.quote|, p.gap) && At(text, SepAt(i, p), [p.sep])
    && At(text, SepAt(i, p) + 1, p.pad) && At(text, OpenAt(i, p), p.open) && At(text, BeginAt(i, p), p.value)
  }

  lemma AtThree(text: string, i: nat, a: string, b: string, c: string)
    ensures At(text, i, a + b + c) <==> At(text, i, a) && At(text, i + |a|, b) && At(text, i + |a| + |b|, c)
  {
    AtBoth(text, i, a, b);
    AtBoth(text, i, a + b, c);
  }

  lemma FrontLaid(text: string, i: nat, p: Phrase)
    ensures At(text, i, p.quote + p.gap + [p.sep]) <==>
      At(text, i, p.quote) && At(text, i + |p.quote|, p.gap) && At(text, SepAt(i, p), [p.sep])
  {
    AtThree(text, i, p.quote, p.gap, [p.sep]);
  }

  lemma BackLaid(text: string, i: nat, p: Phrase)
    ensures At(text, SepAt(i, p) + 1, p.pad + p.open + p.value) <==>
      At(text, SepAt(i, p) + 1, p.pad) && At(text, OpenAt(i, p), p.open) && At(text, BeginAt(i, p), p.value)
  {
    AtThree(text, SepAt(i, p) + 1, p.pad, p.open, p.value);
  }

  lemma SpokenLength(p: Phrase)
    ensures |Spoken(p)| == BeginAt(0, p) + |p.value|
  {}

  lemma SpokenLaid(text: string, i: nat, p: Phrase)
    ensures At(text, i, Spoken(p)) <==> Laid(text, i, p)
  {
    AtBoth(text, i, p.quote + p.gap + [p.sep], p.pad + p.open + p.value);
    FrontLaid(text, i, p);
    BackLaid(text, i, p);
    assert i + |p.quote + p.gap + [p.sep]| == SepAt(i, p) + 1;
  }

  lemma QuotePassed(text: string, i: nat, quote: string)
    requires At(text, i, quote) && (quote == "" || quote == "\"")
    requires quote == "" ==> i == |text| || text[i] != '"'
    ensures SkipQuote(text, i) == i + |quote|
  {
    if quote != "" { assert text[i] == text[i..i + 1][0]; }
  }

  lemma BlanksPassed(text: string, i: nat, gap: string)
    requires At(text, i, gap) && AllBlank(gap)
    requires i + |gap| < |text| ==> !Blank(text[i + |gap|])
    ensures SkipBlanks(text, i) == i + |gap|
  {
    forall k | i <= k < i + |gap| ensures Blank(text[k]) { assert text[k] == gap[k - i] && gap[k - i] in gap; }
    SkipBlanksIs(text, i, i + |gap|);
  }

  lemma ValuePassed(text: string, i: nat, value: string, sep: char)
    requires At(text, i, value) && (sep == ':' || sep == '=') && forall c | c in value :: c !in Ends(sep)
    requires i + |value| < |text| ==> text[i + |value|] in Ends(sep)
    ensures ValueEnd(text, i, sep == ':') == i + |value|
  {
    forall k | i <= k < i + |value| ensures text[k] !in Ends(sep) { assert text[k] == value[k - i] && value[k - i] in value; }
    ValueEndIs(text, i, i + |value|, sep);
  }

  lemma StartsWith(text: string, i: nat, part: string)
    requires At(text, i, part) && part != ""
    ensures i < |text| && text[i] == part[0]
  {
    assert text[i] == text[i..i + |part|][0];
  }

  lemma NoQuoteThere(text: string, i: nat, gap: string, sep: char)
    requires At(text, i, gap) && At(text, i + |gap|, [sep])
    requires AllBlank(gap) && (sep == ':' || sep == '=')
    ensures i < |text| && text[i] != '"'
  {
    if gap != "" {
      StartsWith(text, i, gap);
      assert gap[0] in gap;
    } else {
      StartsWith(text, i, [sep]);
    }
  }

  lemma SepHere(text: string, g: nat, gap: string, sep: nat, c: char)
    requires At(text, g, gap) && sep == g + |gap| && At(text, sep, [c])
    requires AllBlank(gap) && (c == ':' || c == '=')
    ensures SkipBlanks(text, g) == sep < |text| && text[sep] == c
  {
    StartsWith(text, sep, [c]);
    BlanksPassed(text, g, gap);
  }

  /** Up to the separator. */
  lemma SepFound(text: string, i: nat, quote: string, g: nat, gap: string, sep: nat, c: char)
    requires At(text, i, quote) && g == i + |quote| && At(text, g, gap) && sep == g + |gap| && At(text, sep, [c])
    requires (quote == "" || quote == "\"") && AllBlank(gap) && (c == ':' || c == '=')
    ensures SkipQuote(text, i) == g && SkipBlanks(text, g) == sep < |text| && text[sep] == c
  {
    NoQuoteThere(text, g, gap, c);
    QuotePassed(text, i, quote);
    SepHere(text, g, gap, sep, c);
  }

  lemma ValueStarts(p: Phrase, rest: string)
    requires Fits(p, rest)
    ensures p.value[0] != '"' && (p.open == "" ==> !Blank(p.value[0]))
  {
    assert p.value[0] in p.value && p.value[..1] == [p.value[0]];
    assert '"' in Ends(p.sep);
  }

  lemma OpenHere(text: string, o: nat, open: string, begin: nat, value: string)
    requires At(text, o, open) && begin == o + |open| && At(text, begin, value)
    requires (open == "" || open == "\"") && value != "" && value[0] != '"' && (open == "" ==> !Blank(value[0]))
    ensures SkipQuote(text, o) == begin && o < |text| && !Blank(text[o])
  {
    StartsWith(text, begin, value);
    if open != "" { StartsWith(text, o, open); }
    QuotePassed(text, o, open);
  }

  /** From the separator to the value. */
  lemma BeginFound(text: string, i: nat, pad: string, o: nat, open: string, begin: nat, value: string)
    requires At(text, i, pad) && o == i + |pad| && At(text, o, open) && begin == o + |open| && At(text, begin, value)
    requires AllBlank(pad) && (open == "" || open == "\"") && value != ""
    requires value[0] != '"' && (open == "" ==> !Blank(value[0]))
    ensures SkipBlanks(text, i) == o <= |text| && SkipQuote(text, o) == begin
  {
    OpenHere(text, o, open, begin, value);
    BlanksPassed(text, i, pad);
  }

  lemma ScannerFinds(text: string, i: nat, g: nat, sep: nat, o: nat, begin: nat, end: nat)
    requires i <= |text| && SkipQuote(text, i) == g && SkipBlanks(text, g) == sep < |text|
    requires (text[sep] == ':' || text[sep] == '=') && SkipBlanks(text, sep + 1) == o
    requires SkipQuote(text, o) == begin && ValueEnd(text, begin, text[sep] == ':') == end > begin
    ensures ValueAt(text, i) == Some(Span(begin, end))
  {}

  /** A phrase in its place is what the scanner finds. */
  lemma PhraseFound(text: string, i: nat, p: Phrase, sep: nat, begin: nat, end: nat)
    requires Laid(text, i, p) && sep == SepAt(i, p) && begin == BeginAt(i, p)
    requires (p.quote == "" || p.quote == "\"") && (p.open == "" || p.open == "\"") && AllBlank(p.gap) && AllBlank(p.pad)
    requires (p.sep == ':' || p.sep == '=') && p.value != "" && p.value[0] != '"' && (p.open == "" ==> !Blank(p.value[0]))
    requires begin <= |text| && ValueEnd(text, begin, p.sep == ':') == end > begin
    ensures i <= |text| && ValueAt(text, i) == Some(Span(begin, end))
  {
    SepFound(text, i, p.quote, i + |p.quote|, p.gap, sep, p.sep);
    BeginFound(text, sep + 1, p.pad, OpenAt(i, p), p.open, begin, p.value);
    ScannerFinds(text, i, i + |p.quote|, sep, OpenAt(i, p), begin, end);
  }

  lemma ValueStops(text: string, begin: nat, p: Phrase, end: nat)
    requires At(text, begin, p.value) && end == begin + |p.value| && Fits(p, text[end..])
    ensures ValueEnd(text, begin, p.sep == ':') == end
  {
    if end < |text| { assert text[end..][0] == text[end]; }
    ValuePassed(text, begin, p.value, p.sep);
  }

  lemma QuoteTaken(text: string, i: nat)
    requires i <= |text|
    ensures var j := SkipQuote(text, i); text[i..j] == "" || text[i..j] == "\""
  {}

  /** The parts between these positions. */
  function Parts(text: string, i: nat, gap: nat, sep: nat, pad: nat, open: nat, begin: nat, end: nat): Phrase
    requires i <= gap <= sep < pad <= open <= begin <= end <= |text|
  {
    Phrase(text[i..gap], text[gap..sep], text[sep], text[pad..open], text[open..begin], text[begin..end])
  }

  lemma PartsLaid(text: string, i: nat, gap: nat, sep: nat, open: nat, begin: nat, end: nat)
    requires i <= gap <= sep < open <= begin <= end <= |text|
    ensures var p := Parts(text, i, gap, sep, sep + 1, open, begin, end);
      Laid(text, i, p) && begin == BeginAt(i, p) && end == begin + |p.value|
  {
    assert text[sep..sep + 1] == [text[sep]];
  }

  lemma PartsFit(text: string, i: nat, gap: nat, sep: nat, open: nat, begin: nat, end: nat)
    requires i <= gap <= sep < open <= begin < end <= |text|
    requires gap == SkipQuote(text, i) && sep == SkipBlanks(text, gap) && open == SkipBlanks(text, sep + 1)
    requires begin == SkipQuote(text, open) && (text[sep] == ':' || text[sep] == '=')
    requires end == ValueEnd(text, begin, text[sep] == ':')
    ensures Fits(Parts(text, i, gap, sep, sep + 1, open, begin, end), text[end..])
  {
    QuoteTaken(text, i);
    QuoteTaken(text, open);
    SkipBlanksSkips(text, gap);
    SkipBlanksSkips(text, sep + 1);
    ValueEndEnds(text, begin, text[sep]);
    FoundFits(text, Parts(text, i, gap, sep, sep + 1, open, begin, end), open, Span(begin, end));
  }

  lemma FoundFits(text: string, p: Phrase, pad: nat, s: Span)
    requires pad <= s.begin < s.end <= |text| && p.open == text[pad..s.begin] && p.value == text[s.begin..s.end]
    requires (p.quote == "" || p.quote == "\"") && (p.open == "" || p.open == "\"")
    requires AllBlank(p.gap) && AllBlank(p.pad) && (p.sep == ':' || p.sep == '=') && !Blank(text[pad])
    requires (forall c | c in p.value :: c !in Ends(p.sep)) && (s.end < |text| ==> text[s.end] in Ends(p.sep))
    ensures Fits(p, text[s.end..])
  {
    if p.open == "" {
      assert pad == s.begin && p.value[..1] == [text[pad]];
      assert text[pad] in p.value[..1];
    }
  }

  /** The phrase the scanner found. */
  lemma FoundPhrase(text: string, i: nat) returns (p: Phrase)
    requires i <= |text| && ValueAt(text, i).Some?
    ensures var s := ValueAt(text, i).value;
      s.end <= |text| && Fits(p, text[s.end..]) && Laid(text, i, p) && s.begin == BeginAt(i, p) && s.end == s.begin + |p.value|
  {
    var s := ValueAt(text, i).value;
    var gap := SkipQuote(text, i);
    var sep := SkipBlanks(text, gap);
    var open := SkipBlanks(text, sep + 1);
    p := Parts(text, i, gap, sep, sep + 1, open, s.begin, s.end);
    PartsLaid(text, i, gap, sep, open, s.begin, s.end);
    PartsFit(text, i, gap, sep, open, s.begin, s.end);
  }

  lemma PhraseIsValue(text: string, i: nat, s: Span, p: Phrase)
    requires i <= s.begin <= s.end <= |text|
    requires Fits(p, text[s.end..]) && text[i..s.end] == Spoken(p) && |p.value| == s.end - s.begin
    ensures ValueAt(text, i) == Some(s)
  {
    SpokenLength(p);
    assert At(text, i, Spoken(p));
    SpokenLaid(text, i, p);
    ValueStarts(p, text[s.end..]);
    ValueStops(text, s.begin, p, s.end);
    PhraseFound(text, i, p, SepAt(i, p), s.begin, s.end);
  }

  lemma ValueIsPhrase(text: string, i: nat) returns (p: Phrase)
    requires i <= |text| && ValueAt(text, i).Some?
    ensures var s := ValueAt(text, i).value;
      s.end <= |text| && Fits(p, text[s.end..]) && text[i..s.end] == Spoken(p) && |p.value| == s.end - s.begin
  {
    p := FoundPhrase(text, i);
    SpokenLength(p);
    SpokenLaid(text, i, p);
    assert At(text, i, Spoken(p));
  }

  /** A value follows a key that ends at position i exactly if one of the phrases stands there. */
  lemma ValueAtIff(text: string, i: nat, s: Span)
    requires i <= |text|
    ensures ValueAt(text, i) == Some(s) <==>
      && i <= s.begin <= s.end <= |text|
      && exists p: Phrase :: Fits(p, text[s.end..]) && text[i..s.end] == Spoken(p) && |p.value| == s.end - s.begin
  {
    if ValueAt(text, i) == Some(s) {
      var p := ValueIsPhrase(text, i);
    }
    if i <= s.begin <= s.end <= |text| {
      if p: Phrase :| Fits(p, text[s.end..]) && text[i..s.end] == Spoken(p) && |p.value| == s.end - s.begin {
        PhraseIsValue(text, i, s, p);
      }
    }
  }

  // ---------------------------------------------------------------------------
  //  Detection
  // ---------------------------------------------------------------------------

  /** The value, if any, that follows the hit h of the key. */
  function HitValue(text: string, key: string, h: nat): seq<Span> {
    if key == "" || !Occurs(Normal(text), key, h) then []
    else
      OriginsInOrder(text, h, h + |key| - 1);
      Opt(ValueAt(text, Origins(text)[h + |key| - 1] + 1))
  }

  function Opt(r: Option<Span>): seq<Span> { if r.Some? then [r.value] else [] }

  function Finder(text: string, key: string): nat -> seq<Span> { (h: nat) => HitValue(text, key, h) }

  function Collect(hits: seq<nat>, f: nat -> seq<Span>): seq<Span> {
    if hits == [] then [] else f(hits[0]) + Collect(hits[1..], f)
  }

  lemma {:induction false} CollectFrom(hits: seq<nat>, f: nat -> seq<Span>, s: Span)
    ensures s in Collect(hits, f) <==> exists i | 0 <= i < |hits| :: s in f(hits[i])
    decreases |hits|
  {
    if hits != [] {
      CollectFrom(hits[1..], f, s);
      if i :| 0 <= i < |hits| && s in f(hits[i]) {
        if i > 0 { assert hits[1..][i - 1] == hits[i]; }
      }
      if i :| 0 <= i < |hits[1..]| && s in f(hits[1..][i]) { assert hits[i + 1] == hits[1..][i]; }
    }
  }

  lemma {:induction false} CollectInText(hits: seq<nat>, f: nat -> seq<Span>, n: nat)
    requires forall h: nat :: InText(f(h), n)
    ensures InText(Collect(hits, f), n)
    decreases |hits|
  {
    if hits != [] { CollectInText(hits[1..], f, n); }
  }

  /** The values found for one key. */
  function ValuesOf(text: string, key: string): seq<Span>
    requires key != ""
  {
    Collect(Hits(Normal(text), key, 0), Finder(text, key))
  }

  predicate Proper(keys: seq<string>) { forall i | 0 <= i < |keys| :: keys[i] != "" }

  /** All value ranges, key by key. */
  function Detect(text: string, keys: seq<string>): seq<Span>
    requires Proper(keys)
  {
    if keys == [] then [] else Detect(text, keys[..|keys| - 1]) + ValuesOf(text, keys[|keys| - 1])
  }

  /** Each detected range is the value after an occurrence of a key: text that equals the key up
      to case and dropped characters. */
  ghost predicate IsValue(text: string, key: string, s: Span) {
    exists first: nat, last: nat :: Spells(text, first, last, key) && ValueAt(text, last + 1) == Some(s)
  }

  predicate Spells(text: string, first: nat, last: nat, key: string) {
    first <= last < |text| && Norm(text, first, last + 1) == key
  }

  lemma HitValueIsValue(text: string, key: string, h: nat, s: Span)
    requires s in HitValue(text, key, h)
    ensures IsValue(text, key, s)
  {
    HitMapsBack(text, key, h);
    var first, last := Origins(text)[h], Origins(text)[h + |key| - 1];
    assert Spells(text, first, last, key) && ValueAt(text, last + 1) == Some(s);
  }

  lemma ValuesAreValues(text: string, key: string, s: Span)
    requires key != "" && s in ValuesOf(text, key)
    ensures IsValue(text, key, s)
  {
    var hits := Hits(Normal(text), key, 0);
    CollectFrom(hits, Finder(text, key), s);
    var i :| 0 <= i < |hits| && s in Finder(text, key)(hits[i]);
    HitValueIsValue(text, key, hits[i], s);
  }

  lemma {:induction false} DetectedAreValues(text: string, keys: seq<string>, s: Span)
    requires Proper(keys) && s in Detect(text, keys)
    ensures exists i | 0 <= i < |keys| :: IsValue(text, keys[i], s)
    decreases |keys|
  {
    var n := |keys| - 1;
    if s in ValuesOf(text, keys[n]) {
      ValuesAreValues(text, keys[n], s);
    } else {
      DetectedAreValues(text, keys[..n], s);
      var i :| 0 <= i < n && IsValue(text, keys[..n][i], s);
      assert keys[..n][i] == keys[i];
    }
  }

  predicate FoundFor(text: string, key: string, s: Span)
    requires key != ""
  {
    s in ValuesOf(text, key)
  }

  lemma {:induction false} DetectSnoc(text: string, keys: seq<string>, s: Span)
    requires Proper(keys) && keys != []
    ensures s in Detect(text, keys) <==>
      s in Detect(text, keys[..|keys| - 1]) || FoundFor(text, keys[|keys| - 1], s)
  {}

  predicate FoundAmong(text: string, keys: seq<string>, s: Span)
    requires Proper(keys)
  {
    exists i | 0 <= i < |keys| :: FoundFor(text, keys[i], s)
  }

  lemma FoundSnoc(text: string, keys: seq<string>, s: Span)
    requires Proper(keys) && keys != []
    ensures FoundAmong(text, keys, s) <==>
      FoundAmong(text, keys[..|keys| - 1], s) || FoundFor(text, keys[|keys| - 1], s)
  {
    var head := keys[..|keys| - 1];
    if i :| 0 <= i < |head| && FoundFor(text, head[i], s) { assert head[i] == keys[i]; }
    if i :| 0 <= i < |keys| && FoundFor(text, keys[i], s) {
      if i < |head| { assert head[i] == keys[i]; }
    }
  }

  /** Every key is looked for. */
  lemma {:induction false} DetectIff(text: string, keys: seq<string>, s: Span)
    requires Proper(keys)
    ensures s in Detect(text, keys) <==> FoundAmong(text, keys, s)
    decreases |keys|
  {
    if keys != [] {
      DetectIff(text, keys[..|keys| - 1], s);
      DetectSnoc(text, keys, s);
      FoundSnoc(text, keys, s);
    }
  }

  /** For a borderless key the value after every occurrence is detected. */
  lemma EveryValueDetected(text: string, key: string, h: nat, s: Span)
    requires key != "" && Borderless(key) && Occurs(Normal(text), key, h) && s in HitValue(text, key, h)
    ensures s in ValuesOf(text, key)
  {
    var hits := Hits(Normal(text), key, 0);
    EveryOccurrenceHit(Normal(text), key, 0, h);
    var i :| 0 <= i < |hits| && hits[i] == h;
    assert s in Finder(text, key)(hits[i]);
    CollectFrom(hits, Finder(text, key), s);
  }

  // ---------------------------------------------------------------------------
  //  Keys that overlap themselves
  // ---------------------------------------------------------------------------

  predicate Alnum(c: char) { 'a' <= c <= 'z' || '0' <= c <= '9' }

  /** A key of lower-case letters and digits. */
  predicate Plain(key: string) { key != "" && forall i | 0 <= i < |key| :: Alnum(key[i]) }

  /** Text without capitals and dropped characters normalises to itself. */
  predicate Normalised(text: string) {
    forall i | 0 <= i < |text| :: !Dropped(text[i]) && LowerChar(text[i]) == text[i]
  }

  lemma {:induction false} NormIsText(text: string, b: nat)
    requires Normalised(text) && b <= |text|
    ensures Norm(text, 0, b) == text[..b]
    ensures forall k | 0 <= k < b :: Index(text, b)[k] == k
    decreases b
  {
    if b > 0 {
      NormIsText(text, b - 1);
      assert text[..b] == text[..b - 1] + [text[b - 1]];
    }
  }

  /** Two occurrences of the key that share n characters, then a value. */
  predicate Trap(text: string, key: string, n: nat) {
    var m := 2 * |key| - n;
    && 0 < n < |key| && |text| == m + 2 && text[m] == '=' && text[m + 1] == 'x'
    && (forall i | 0 <= i < m :: Alnum(text[i]))
    && Occurs(text, key, 0) && Occurs(text, key, |key| - n)
  }

  lemma OccursBefore(text: string, more: string, key: string, h: nat)
    requires Occurs(text, key, h)
    ensures Occurs(text + more, key, h)
  {
    assert (text + more)[h..h + |key|] == text[h..h + |key|];
  }

  lemma TelescopedTraps(text: string, key: string, n: nat)
    requires Plain(key) && Telescoped(text, key, n)
    ensures Trap(text + "=x", key, n)
  {
    OccursBefore(text, "=x", key, 0);
    OccursBefore(text, "=x", key, |key| - n);
    forall i | 0 <= i < |text| ensures Alnum(text[i]) {
      if i < |key| { assert text[0..|key|][i] == text[i]; }
      else { assert text[|key| - n..|key| - n + |key|][i - (|key| - n)] == text[i]; }
    }
  }

  /** There is a value after the second occurrence and none after the first. */
  lemma TrapValue(text: string, key: string, n: nat)
    requires Trap(text, key, n)
    ensures ValueAt(text, 2 * |key| - n) == Some(Span(2 * |key| - n + 1, 2 * |key| - n + 2))
    ensures ValueAt(text, |key|) == None
  {
    var m := 2 * |key| - n;
    assert SkipBlanks(text, SkipQuote(text, m)) == m;
    assert SkipQuote(text, SkipBlanks(text, m + 1)) == m + 1;
    assert ValueEnd(text, m + 1, false) == m + 2;
    assert Alnum(text[|key|]);
  }

  /** No occurrence begins after the first one: it would contain the separator. */
  lemma NoneAfter(text: string, key: string, n: nat, h: nat)
    requires Plain(key) && Trap(text, key, n) && |key| <= h
    ensures !Occurs(text, key, h)
  {
    var m := 2 * |key| - n;
    if h + |key| <= |text| && h <= m { assert text[h..h + |key|][m - h] != key[m - h]; }
  }

  lemma TrapHits(text: string, key: string, n: nat)
    requires Plain(key) && Trap(text, key, n)
    ensures Hits(text, key, 0) == [0]
  {
    assert FindKey(text, key, 0) == Some(0);
    forall h: nat | |key| <= h ensures !Occurs(text, key, h) { NoneAfter(text, key, n, h); }
    assert FindKey(text, key, |key|).None?;
    assert Hits(text, key, |key|) == [];
  }

  lemma {:induction false} OwnOrigins(text: string)
    requires Normalised(text)
    ensures Normal(text) == text && forall k | 0 <= k < |text| :: Origins(text)[k] == k
  {
    NormIsText(text, |text|);
    assert text[..|text|] == text;
  }

  lemma {:induction false} NormalisedHit(text: string, key: string, h: nat)
    requires Normal(text) == text && (forall k | 0 <= k < |text| :: Origins(text)[k] == k)
    requires key != "" && Occurs(text, key, h)
    ensures HitValue(text, key, h) == Opt(ValueAt(text, h + |key|))
  {
    var last := h + |key| - 1;
    assert Origins(text)[last] == last;
  }

  lemma CollectOne(h: nat, f: nat -> seq<Span>)
    ensures Collect([h], f) == f(h)
  {
    assert Collect([h], f) == f(h) + Collect([h][1..], f);
  }

  /** The value s after occurrence h goes undetected, as does every other. */
  predicate Missed(text: string, key: string, h: nat, s: Span) {
    key != "" && s in HitValue(text, key, h) && ValuesOf(text, key) == []
  }

  lemma OnlyHitEmpty(text: string, key: string)
    requires key != "" && Normalised(text) && Occurs(text, key, 0) && Hits(text, key, 0) == [0]
    requires ValueAt(text, |key|) == None
    ensures ValuesOf(text, key) == []
  {
    OwnOrigins(text);
    NormalisedHit(text, key, 0);
    CollectOne(0, Finder(text, key));
  }

  lemma HitHasValue(text: string, key: string, h: nat, s: Span)
    requires key != "" && Normalised(text) && Occurs(text, key, h) && ValueAt(text, h + |key|) == Some(s)
    ensures s in HitValue(text, key, h)
  {
    OwnOrigins(text);
    NormalisedHit(text, key, h);
  }

  lemma MissedWhen(text: string, key: string, h: nat, s: Span)
    requires key != "" && Normalised(text) && Occurs(text, key, 0) && Occurs(text, key, h) && Hits(text, key, 0) == [0]
    requires ValueAt(text, |key|) == None && ValueAt(text, h + |key|) == Some(s)
    ensures Missed(text, key, h, s)
  {
    HitHasValue(text, key, h, s);
    OnlyHitEmpty(text, key);
  }

  /** The second occurrence has a value, and the scan detects none. */
  lemma TrapMisses(text: string, key: string, n: nat)
    requires Plain(key) && Trap(text, key, n)
    ensures Missed(text, key, |key| - n, Span(2 * |key| - n + 1, 2 * |key| - n + 2))
  {
    TrapValue(text, key, n);
    TrapHits(text, key, n);
    assert Normalised(text);
    MissedWhen(text, key, |key| - n, Span(2 * |key| - n + 1, 2 * |key| - n + 2));
  }

  /** For a key of letters and digits: in every text the value after every occurrence is detected
      if and only if the key does not overlap itself. */
  lemma AllDetectedIff(key: string)
    requires Plain(key)
    ensures (forall text: string, h: nat, s: Span | s in HitValue(text, key, h) :: s in ValuesOf(text, key)) <==>
      Borderless(key)
  {
    if Borderless(key) {
      forall text: string, h: nat, s: Span | s in HitValue(text, key, h) ensures s in ValuesOf(text, key) {
        EveryValueDetected(text, key, h, s);
      }
    } else {
      SomeTrap(key);
      var text, n :| Trap(text, key, n);
      TrapMisses(text, key, n);
      assert Missed(text, key, |key| - n, Span(2 * |key| - n + 1, 2 * |key| - n + 2));
    }
  }

  lemma SomeTrap(key: string)
    requires Plain(key) && !Borderless(key)
    ensures exists text: string, n: nat :: Trap(text, key, n)
  {
    var n :| 0 < n < |key| && key[..n] == key[|key| - n..];
    BorderTelescopes(key, n);
    TelescopedTraps(key + key[n..], key, n);
  }

  // ---------------------------------------------------------------------------
  //  The whole
  // ---------------------------------------------------------------------------

  lemma HitValueInText(text: string, key: string, h: nat)
    ensures InText(HitValue(text, key, h), |text|)
  {}

  lemma ValuesInText(text: string, key: string)
    requires key != ""
    ensures InText(ValuesOf(text, key), |text|)
  {
    forall h: nat ensures InText(Finder(text, key)(h), |text|) { HitValueInText(text, key, h); }
    CollectInText(Hits(Normal(text), key, 0), Finder(text, key), |text|);
  }

  /** Normalised position to original position, then the value after it. */
  method LookAt(text: string, key: string, index: seq<nat>, hit: nat) returns (v: seq<Span>)
    requires key != "" && Occurs(Normal(text), key, hit) && index == Origins(text)
    ensures v == HitValue(text, key, hit)
  {
    OriginsInOrder(text, hit, hit + |key| - 1);
    var r := FindValue(text, index[hit + |key| - 1] + 1);
    v := Opt(r);
  }

  lemma CollectNext(hits: seq<nat>, h: nat, rest: seq<nat>, f: nat -> seq<Span>, spans: seq<Span>, v: seq<Span>)
    requires hits == [h] + rest && v == f(h)
    ensures spans + Collect(hits, f) == (spans + v) + Collect(rest, f)
  {
    assert hits[1..] == rest;
    assert spans + (v + Collect(rest, f)) == (spans + v) + Collect(rest, f);
  }

  /** Values of the key from normalised position `from` on. */
  ghost function ValuesFrom(text: string, norm: string, key: string, from: nat): seq<Span>
    requires key != ""
  {
    Collect(Hits(norm, key, from), Finder(text, key))
  }

  lemma ScanNext(text: string, key: string, norm: string, from: nat, hit: nat, spans: seq<Span>, v: seq<Span>)
    requires key != "" && FindKey(norm, key, from) == Some(hit) && v == HitValue(text, key, hit)
    ensures spans + ValuesFrom(text, norm, key, from) == (spans + v) + ValuesFrom(text, norm, key, hit + |key|)
  {
    CollectNext(Hits(norm, key, from), hit, Hits(norm, key, hit + |key|), Finder(text, key), spans, v);
  }

  lemma ScanEnds(text: string, key: string, norm: string, from: nat)
    requires key != "" && FindKey(norm, key, from) == None
    ensures ValuesFrom(text, norm, key, from) == []
  {}

  /** One search step. */
  method ScanStep(text: string, norm: string, index: seq<nat>, key: string, from: nat, spans: seq<Span>)
    returns (found: bool, next: nat, more: seq<Span>)
    requires key != "" && norm == Normal(text) && index == Origins(text)
    ensures found ==> more + ValuesFrom(text, norm, key, next) == spans + ValuesFrom(text, norm, key, from)
    ensures !found ==> more == spans + ValuesFrom(text, norm, key, from)
    ensures found ==> from < next <= |norm|
  {
    var hit := FindKey(norm, key, from);
    if hit.None? {
      ScanEnds(text, key, norm, from);
      return false, from, spans;
    }
    var v := LookAt(text, key, index, hit.value);
    ScanNext(text, key, norm, from, hit.value, spans, v);
    return true, hit.value + |key|, spans + v;
  }

  /** All values of one key. */
  method Scan(text: string, norm: string, index: seq<nat>, key: string) returns (spans: seq<Span>)
    requires key != "" && norm == Normal(text) && index == Origins(text)
    ensures spans == ValuesOf(text, key) && InText(spans, |text|)
  {
    spans := [];
    var from, found := 0, true;
    ghost var all := ValuesFrom(text, norm, key, 0);
    assert all == ValuesOf(text, key);
    while found
      invariant spans + (if found then ValuesFrom(text, norm, key, from) else []) == all
      decreases found, |norm| - from
    {
      found, from, spans := ScanStep(text, norm, index, key, from, spans);
    }
    assert spans + [] == spans;
    ValuesInText(text, key);
  }

  lemma {:induction false} TooShort(text: string, keys: seq<string>)
    requires Proper(keys) && forall i | 0 <= i < |keys| :: |Normal(text)| < |keys[i]|
    ensures Detect(text, keys) == []
    decreases |keys|
  {
    if keys != [] {
      var n := |keys| - 1;
      TooShort(text, keys[..n]);
      assert FindKey(Normal(text), keys[n], 0) == None;
    }
  }

  lemma {:induction false} NormShorter(text: string, b: nat)
    requires b <= |text|
    ensures |Norm(text, 0, b)| <= b
  {
    if b > 0 { NormShorter(text, b - 1); }
  }

  lemma {:induction false} NothingToRedact(text: string, mask: string, p: nat)
    requires p <= |text|
    ensures Redact(text, [], mask, p) == text[p..]
    decreases |text| - p
  {
    if p < |text| { NothingToRedact(text, mask, p + 1); }
  }

  /** The scrubbed text: every maximal run of positions that belong to a detected value is
      replaced by one mask, everything else is unchanged. */
  method ScrubText(text: string, keys: seq<string>, minLength: nat, mask: string) returns (r: string)
    requires Proper(keys) && forall i | 0 <= i < |keys| :: minLength <= |keys[i]|
    ensures r == Redact(text, Detect(text, keys), mask, 0)
  {
    NothingToRedact(text, mask, 0);
    if keys == [] { return text; }
    if |text| < minLength {
      NormShorter(text, |text|);
      TooShort(text, keys);
      return text;
    }
    var norm, index := Normalize(text);
    var spans: seq<Span> := [];
    var i := 0;
    while i < |keys|
      invariant 0 <= i <= |keys| && spans == Detect(text, keys[..i]) && InText(spans, |text|)
    {
      assert keys[..i + 1][..i] == keys[..i];
      var more := Scan(text, norm, index, keys[i]);
      spans := spans + more;
      i := i + 1;
    }
    assert keys[..i] == keys;
    if spans == [] { return text; }
    r := MaskSpans(text, spans, mask);
  }

  lemma MissedUnscrubbed(text: string, key: string, h: nat, s: Span, mask: string)
    requires Missed(text, key, h, s)
    ensures Proper([key]) && Redact(text, Detect(text, [key]), mask, 0) == text && IsValue(text, key, s)
  {
    HitValueIsValue(text, key, h, s);
    assert [key][..0] == [] && Detect(text, []) == [];
    assert Detect(text, [key]) == [];
    NothingToRedact(text, mask, 0);
    assert text[0..] == text;
  }

  lemma TrapUnscrubbed(text: string, key: string, n: nat, s: Span, mask: string)
    requires Plain(key) && Trap(text, key, n) && s == Span(2 * |key| - n + 1, 2 * |key| - n + 2)
    ensures Proper([key]) && Redact(text, Detect(text, [key]), mask, 0) == text && IsValue(text, key, s)
  {
    TrapMisses(text, key, n);
    MissedUnscrubbed(text, key, |key| - n, s, mask);
  }

  /** Scrubbing such a text with the rule `key` leaves it as it is, the value after the second
      occurrence included. */
  method ScrubTrap(text: string, key: string, n: nat, mask: string) returns (r: string)
    requires Plain(key) && Trap(text, key, n)
    ensures r == text && IsValue(text, key, Span(2 * |key| - n + 1, 2 * |key| - n + 2))
  {
    var s := Span(2 * |key| - n + 1, 2 * |key| - n + 2);
    TrapUnscrubbed(text, key, n, s, mask);
    r := ScrubText(text, [key], |key|, mask);
  }

  /** For instance "aaa=x" with the rule "aa". */
  lemma ShortestTrap()
    ensures Plain("aa") && Trap("aaa=x", "aa", 1)
  {
    var text, key := "aaa=x", "aa";
    assert text[0..2] == key && text[1..3] == key;
  }
}
