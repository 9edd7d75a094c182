/**
  The FileSource codec of the object key policy and the path joiner under it: printing and
  parsing are inverse, object keys are distinct and pass the joiner unchanged.
*/
module FileSource {
  import opened Base
  import opened Text

  const MAX_SOURCE: nat := 1024
  const MAX_FILE_ID: nat := 512
  const MAX_KEY: nat := 1024

  datatype SourcePath = SourcePath(user: string, epoch: int, timestamp: string, fileId: string)

  predicate SafeChar(c: char) {
    '0' <= c <= '9' || 'a' <= c <= 'z' || 'A' <= c <= 'Z' || c == '.' || c == '_' || c == '-'
  }

  predicate SafeSegment(s: string) {
    s != "" && s != "." && s != ".." && forall i | 0 <= i < |s| :: SafeChar(s[i])
  }

  predicate DashAt(i: nat) { i == 4 || i == 7 || i == 10 || i == 13 || i == 16 || i == 19 }

  /** yyyy-MM-dd-HH-mm-ss-SSS */
  predicate TimestampShape(t: string) {
    |t| == 23 && forall i | 0 <= i < |t| :: if DashAt(i) then t[i] == '-' else Digit(t[i])
  }

  predicate Accepted(p: SourcePath) {
    && SafeSegment(p.user) && SafeSegment(p.fileId) && |p.fileId| <= MAX_FILE_ID
    && 0 < p.epoch <= INT64_MAX && TimestampShape(p.timestamp)
    && |PosixKey(p)| + 1 <= MAX_SOURCE
  }

  /** The text of a positive epoch, as std::to_string prints it. */
  function EpochText(n: int): string { if n < 0 then "-" + Digits(-n) else Digits(n) }

  function Middle(p: SourcePath): string { EpochText(p.epoch) + "-" + p.timestamp }

  function PosixKey(p: SourcePath): string { p.user + "/" + Middle(p) + "/" + p.fileId }

  function Make(p: SourcePath): Option<string> {
    if Accepted(p) then Some("/" + PosixKey(p)) else None
  }

  predicate BadChar(c: char) { c < ' ' || c == 0x7F as char || c == '\\' || c == '%' }

  /** strtoll of up to 19 digits: too large values become the maximum. */
  function Clamped(digits: string): nat
    requires AllDigits(digits)
  {
    Min(Value(digits), INT64_MAX)
  }

  /** The epoch text of a middle segment. */
  function EpochPart(middle: string): string { middle[..Find(middle, '-', 0)] }

  predicate MiddleShape(m: string) {
    var dash := Find(m, '-', 0);
    && dash < |m| && 0 < dash <= 19 && AllDigits(m[..dash]) && TimestampShape(m[dash + 1..])
  }

  function ParseSegments(segs: seq<string>): Option<SourcePath> {
    if |segs| != 3 || !SafeSegment(segs[0]) || !MiddleShape(segs[1])
      || !SafeSegment(segs[2]) || |segs[2]| > MAX_FILE_ID then None
    else
      var dash := Find(segs[1], '-', 0);
      Some(SourcePath(segs[0], Clamped(segs[1][..dash]), segs[1][dash + 1..], segs[2]))
  }

  predicate Plausible(s: string) {
    s != "" && |s| <= MAX_SOURCE && s[0] == '/' && forall i | 0 <= i < |s| :: !BadChar(s[i])
  }

  function Parse(s: string): Option<SourcePath> {
    if Plausible(s) then ParseSegments(Pieces(s, '/', 1)) else None
  }

  // ---------------------------------------------------------------------------
  //  The parsing loop
  // ---------------------------------------------------------------------------

  lemma OneMore(segs: seq<string>, p: string, rest: seq<string>)
    ensures segs + ([p] + rest) == (segs + [p]) + rest
  {}

  /** Cut off the segment that starts at i. */
  method NextSegment(s: string, i: nat, segs: seq<string>) returns (more: bool, j: nat, longer: seq<string>)
    requires i <= |s|
    ensures j <= |s| && (more ==> i < j)
    ensures more ==> longer + Pieces(s, '/', j) == segs + Pieces(s, '/', i)
    ensures !more ==> longer == segs + Pieces(s, '/', i)
  {
    var slash := Find(s, '/', i);
    if slash == |s| { return false, i, segs + [s[i..]]; }
    OneMore(segs, s[i..slash], Pieces(s, '/', slash + 1));
    return true, slash + 1, segs + [s[i..slash]];
  }

  method Segments(s: string, start: nat) returns (segs: seq<string>)
    requires start <= |s|
    ensures segs == Pieces(s, '/', start)
  {
    segs := [];
    var i, more := start, true;
    ghost var all := Pieces(s, '/', start);
    assert [] + all == all;
    while more
      invariant i <= |s| && (if more then segs + Pieces(s, '/', i) == all else segs == all)
      decreases more, |s| - i
    {
      more, i, segs := NextSegment(s, i, segs);
    }
  }

  method ParseFileSource(s: string) returns (r: Option<SourcePath>)
    ensures r == Parse(s)
  {
    if s == "" || |s| > MAX_SOURCE || s[0] != '/' { return None; }
    var k := 0;
    while k < |s|
      invariant 0 <= k <= |s| && forall j | 0 <= j < k :: !BadChar(s[j])
    {
      if BadChar(s[k]) { return None; }
      k := k + 1;
    }
    var segs := Segments(s, 1);
    if |segs| != 3 || !SafeSegment(segs[0]) || !MiddleShape(segs[1]) { return None; }
    if !SafeSegment(segs[2]) || |segs[2]| > MAX_FILE_ID { return None; }
    var dash := Find(segs[1], '-', 0);
    return Some(SourcePath(segs[0], Clamped(segs[1][..dash]), segs[1][dash + 1..], segs[2]));
  }

  // ---------------------------------------------------------------------------
  //  Round trip
  // ---------------------------------------------------------------------------

  lemma FirstPiece(s: string, i: nat, j: nat)
    requires i <= j < |s| && s[j] == '/' && forall k | i <= k < j :: s[k] != '/'
    ensures Pieces(s, '/', i) == [s[i..j]] + Pieces(s, '/', j + 1)
  {
    FindIs(s, '/', i, j);
  }

  lemma LastPiece(s: string, i: nat)
    requires i <= |s| && forall k | i <= k < |s| :: s[k] != '/'
    ensures Pieces(s, '/', i) == [s[i..]]
  {
    FindIs(s, '/', i, |s|);
  }

  lemma PiecesBetween(s: string, from: nat, i: nat, j: nat)
    requires from <= i < j < |s| && s[i] == '/' && s[j] == '/'
    requires forall k | from <= k < |s| :: s[k] == '/' <==> k == i || k == j
    ensures Pieces(s, '/', from) == [s[from..i]] + [s[i + 1..j]] + [s[j + 1..]]
  {
    LastPiece(s, j + 1);
    FirstPiece(s, i + 1, j);
    FirstPiece(s, from, i);
  }

  function Layout(a: string, b: string, c: string): string { "/" + (a + "/" + b + "/" + c) }

  lemma LayoutParts(a: string, b: string, c: string)
    ensures var s, i, j := Layout(a, b, c), 1 + |a|, 2 + |a| + |b|;
      && j < |s| && s[1..i] == a && s[i] == '/' && s[i + 1..j] == b && s[j] == '/' && s[j + 1..] == c
  {}

  lemma LayoutSlashes(a: string, b: string, c: string, k: nat)
    requires '/' !in a && '/' !in b && '/' !in c && 1 <= k < |Layout(a, b, c)|
    ensures Layout(a, b, c)[k] == '/' <==> k == 1 + |a| || k == 2 + |a| + |b|
  {
    var s, i, j := Layout(a, b, c), 1 + |a|, 2 + |a| + |b|;
    if k < i { assert s[k] == a[k - 1]; }
    else if i < k < j { assert s[k] == b[k - i - 1]; }
    else if j < k { assert s[k] == c[k - j - 1]; }
  }

  /** Three slash-free texts behind one slash each come apart again. */
  lemma ThreePieces(a: string, b: string, c: string)
    requires '/' !in a && '/' !in b && '/' !in c
    ensures Pieces(Layout(a, b, c), '/', 1) == [a, b, c]
  {
    LayoutParts(a, b, c);
    forall k | 1 <= k < |Layout(a, b, c)|
      ensures Layout(a, b, c)[k] == '/' <==> k == 1 + |a| || k == 2 + |a| + |b|
    {
      LayoutSlashes(a, b, c, k);
    }
    PiecesBetween(Layout(a, b, c), 1, 1 + |a|, 2 + |a| + |b|);
  }

  lemma SegmentChars(s: string)
    requires SafeSegment(s)
    ensures '/' !in s && forall i | 0 <= i < |s| :: !BadChar(s[i])
  {}

  lemma TimestampChars(t: string)
    requires TimestampShape(t)
    ensures '/' !in t && forall i | 0 <= i < |t| :: !BadChar(t[i])
  {}

  lemma DigitsChars(s: string)
    requires AllDigits(s)
    ensures '/' !in s && '-' !in s && forall i | 0 <= i < |s| :: !BadChar(s[i])
  {
    forall i | 0 <= i < |s| ensures !BadChar(s[i]) { assert s[i] in s; }
  }

  lemma {:induction false} ShortDigits(n: nat, k: nat)
    requires n < Power(k) && k > 0
    ensures |Digits(n)| <= k
    decreases k
  {
    if n >= 10 { ShortDigits(n / 10, k - 1); }
  }

  function Power(k: nat): nat { if k == 0 then 1 else 10 * Power(k - 1) }

  /** A 64-bit number has at most 19 digits. */
  lemma EpochDigits(n: nat)
    requires n <= INT64_MAX
    ensures |Digits(n)| <= 19
  {
    assert Power(5) == 100_000;
    assert Power(10) == 100_000 * Power(5) by { assert Power(6) == 1_000_000 && Power(8) == 100_000_000; }
    assert Power(15) == 100_000 * Power(10) by { assert Power(12) == 100 * Power(10) && Power(14) == 10_000 * Power(10); }
    assert Power(19) == 10_000 * Power(15) by { assert Power(17) == 100 * Power(15); }
    ShortDigits(n, 19);
  }

  lemma MiddleParts(e: string, t: string)
    requires AllDigits(e) && e != "" && TimestampShape(t)
    ensures var m := e + "-" + t;
      Find(m, '-', 0) == |e| && m[..|e|] == e && m[|e| + 1..] == t && '/' !in m
    ensures |e| <= 19 ==> MiddleShape(e + "-" + t)
  {
    var m := e + "-" + t;
    DigitsChars(e);
    TimestampChars(t);
    assert m == e + ['-'] + t;
    FindFirst(e, '-', t);
    assert m[..|e|] == e && m[|e| + 1..] == t;
  }

  lemma MakePlausible(p: SourcePath)
    requires Accepted(p)
    ensures Plausible("/" + PosixKey(p))
  {
    SegmentChars(p.user);
    SegmentChars(p.fileId);
    TimestampChars(p.timestamp);
    DigitsChars(Digits(p.epoch));
  }

  /** Parsing a printed FileSource gives the same parts. */
  lemma RoundTrip(p: SourcePath)
    requires Make(p).Some?
    ensures Parse(Make(p).value) == Some(p)
  {
    MakePlausible(p);
    SegmentChars(p.user);
    SegmentChars(p.fileId);
    EpochDigits(p.epoch);
    MiddleParts(Digits(p.epoch), p.timestamp);
    ThreePieces(p.user, Middle(p), p.fileId);
    ValueDigits(p.epoch);
  }

  /** Distinct parts have distinct FileSources and distinct object keys. */
  lemma KeyInjective(p: SourcePath, q: SourcePath)
    requires Accepted(p) && Accepted(q) && PosixKey(p) == PosixKey(q)
    ensures p == q
  {
    RoundTrip(p);
    RoundTrip(q);
  }

  // ---------------------------------------------------------------------------
  //  Which FileSources are printed back as they were
  // ---------------------------------------------------------------------------

  lemma {:induction false} DigitsLead(n: nat)
    requires n > 0
    ensures Digits(n)[0] != '0'
  {
    if n >= 10 { DigitsLead(n / 10); }
  }

  lemma {:induction false} DigitsOfValue(e: string)
    requires e != "" && AllDigits(e) && e[0] != '0'
    ensures Value(e) > 0 && Digits(Value(e)) == e
    decreases |e|
  {
    var n := |e| - 1;
    var last := DigitValue(e[n]);
    if n == 0 {
      assert e[..0] == "" && e == [e[0]];
    } else {
      DigitsOfValue(e[..n]);
      assert Value(e) == Value(e[..n]) * 10 + last;
      assert e == e[..n] + [e[n]];
    }
  }

  /** The epoch is written without leading zeros and fits 64 bits. */
  predicate CanonicalEpoch(e: string)
    requires AllDigits(e)
  {
    e != "" && e[0] != '0' && Value(e) <= INT64_MAX
  }

  lemma CanonicalIff(e: string)
    requires e != "" && AllDigits(e)
    ensures (Clamped(e) > 0 && Digits(Clamped(e)) == e) <==> CanonicalEpoch(e)
  {
    if e[0] != '0' { DigitsOfValue(e); }
    if Clamped(e) > 0 && Digits(Clamped(e)) == e {
      DigitsLead(Clamped(e));
      ValueDigits(Clamped(e));
    }
  }

  lemma JoinThree(a: string, b: string, c: string)
    ensures Join([a, b, c], '/') == a + "/" + b + "/" + c
  {
    assert [a, b, c][1..] == [b, c] && [b, c][1..] == [c];
    assert Join([c], '/') == c;
    assert Join([b, c], '/') == b + "/" + c;
    assert Join([a, b, c], '/') == a + "/" + (b + "/" + c);
  }

  lemma ThreeJoined(s: string, a: string, b: string, c: string)
    requires s != "" && s[0] == '/' && Pieces(s, '/', 1) == [a, b, c]
    ensures s == Layout(a, b, c)
  {
    JoinPieces(s, '/', 1);
    JoinThree(a, b, c);
    assert s == "/" + s[1..];
  }

  /** Same frame, same middle. */
  lemma SameMiddle(a: string, b: string, c: string, m: string)
    requires '/' !in a && '/' !in b && '/' !in c && '/' !in m && Layout(a, b, c) == Layout(a, m, c)
    ensures b == m
  {
    ThreePieces(a, b, c);
    ThreePieces(a, m, c);
  }

  lemma MiddleRejoined(m: string)
    requires MiddleShape(m)
    ensures var dash := Find(m, '-', 0); m == m[..dash] + "-" + m[dash + 1..] && '/' !in m
  {
    var dash := Find(m, '-', 0);
    assert m == m[..dash] + "-" + m[dash + 1..];
    MiddleParts(m[..dash], m[dash + 1..]);
  }

  /** Equal middles have equal epoch texts. */
  lemma SameEpoch(e: string, f: string, t: string)
    requires e + "-" + t == f + "-" + t
    ensures e == f
  {
    assert e == (e + "-" + t)[..|e|] && f == (f + "-" + t)[..|f|];
  }

  /** Printing what was parsed gives the input back exactly if its epoch is canonical: the
      parser also takes leading zeros, zero itself and numbers too large for 64 bits. */
  lemma MakeParseIff(s: string)
    requires Parse(s).Some?
    ensures var segs := Pieces(s, '/', 1);
      && |segs| == 3 && AllDigits(EpochPart(segs[1]))
      && (Make(Parse(s).value) == Some(s) <==> CanonicalEpoch(EpochPart(segs[1])))
  {
    var segs := Pieces(s, '/', 1);
    var a, m, c := segs[0], segs[1], segs[2];
    assert segs == [a, m, c];
    var e, t := EpochPart(m), m[Find(m, '-', 0) + 1..];
    var p := Parse(s).value;
    assert p == SourcePath(a, Clamped(e), t, c);
    SegmentChars(a);
    SegmentChars(c);
    MiddleRejoined(m);
    ThreeJoined(s, a, m, c);
    CanonicalIff(e);
    MiddleParts(Digits(p.epoch), t);
    if Make(p) == Some(s) {
      assert Layout(a, Middle(p), c) == Layout(a, m, c);
      SameMiddle(a, Middle(p), c, m);
      SameEpoch(Digits(p.epoch), e, t);
    }
    if CanonicalEpoch(e) {
      assert Middle(p) == m;
      assert "/" + PosixKey(p) == s;
    }
  }

  lemma ZeroOne()
    ensures AllDigits("01") && Value("01") == 1 && !CanonicalEpoch("01") && "01" != ""
  {
    assert "01"[..1] == "0" && "0"[..0] == "";
    assert Value("0") == 0;
  }

  lemma LayoutPlausible(a: string, e: string, t: string, c: string)
    requires SafeSegment(a) && AllDigits(e) && TimestampShape(t) && SafeSegment(c)
    requires |Layout(a, e + "-" + t, c)| <= MAX_SOURCE
    ensures Plausible(Layout(a, e + "-" + t, c))
  {
    SegmentChars(a);
    SegmentChars(c);
    TimestampChars(t);
    DigitsChars(e);
  }

  /** The parts of a FileSource, with an epoch of 1 to 19 digits. */
  predicate Legal(a: string, e: string, t: string, c: string) {
    SafeSegment(a) && AllDigits(e) && 0 < |e| <= 19 && TimestampShape(t) && SafeSegment(c) && |c| <= MAX_FILE_ID
  }

  lemma LegalParsed(a: string, e: string, t: string, c: string)
    requires Legal(a, e, t, c) && |Layout(a, e + "-" + t, c)| <= MAX_SOURCE
    ensures Parse(Layout(a, e + "-" + t, c)) == Some(SourcePath(a, Clamped(e), t, c))
  {
    var m := e + "-" + t;
    MiddleParts(e, t);
    SegmentChars(a);
    SegmentChars(c);
    ThreePieces(a, m, c);
    LayoutPlausible(a, e, t, c);
  }

  /** The parser accepts exactly the texts of legal parts, up to the length limit, and returns
      these parts. */
  lemma ParseIff(s: string, p: SourcePath)
    ensures Parse(s) == Some(p) <==>
      |s| <= MAX_SOURCE && exists e: string ::
        Legal(p.user, e, p.timestamp, p.fileId) && p.epoch == Min(Value(e), INT64_MAX)
        && s == Layout(p.user, e + "-" + p.timestamp, p.fileId)
  {
    if Parse(s) == Some(p) {
      var segs := Pieces(s, '/', 1);
      var e := EpochPart(segs[1]);
      assert segs == [p.user, segs[1], p.fileId];
      MiddleRejoined(segs[1]);
      ThreeJoined(s, p.user, segs[1], p.fileId);
      assert Legal(p.user, e, p.timestamp, p.fileId) && s == Layout(p.user, e + "-" + p.timestamp, p.fileId);
    }
    if |s| <= MAX_SOURCE {
      if e: string :| Legal(p.user, e, p.timestamp, p.fileId) && p.epoch == Min(Value(e), INT64_MAX)
                      && s == Layout(p.user, e + "-" + p.timestamp, p.fileId) {
        LegalParsed(p.user, e, p.timestamp, p.fileId);
      }
    }
  }

  /** A leading zero is lost, whatever the timestamp. */
  lemma LeadingZeroLost(t: string)
    requires TimestampShape(t)
    ensures var s := Layout("u", "01" + "-" + t, "f");
      Parse(s) == Some(SourcePath("u", 1, t, "f")) && Make(Parse(s).value) != Some(s)
  {
    ZeroOne();
    var m := "01" + "-" + t;
    assert SafeSegment("u") && SafeSegment("f");
    MiddleParts("01", t);
    SegmentChars("u");
    SegmentChars("f");
    ThreePieces("u", m, "f");
    LayoutPlausible("u", "01", t, "f");
    assert ParseSegments(["u", m, "f"]) == Some(SourcePath("u", 1, t, "f"));
    MakeParseIff(Layout("u", m, "f"));
  }

  // ---------------------------------------------------------------------------
  //  Joining a key to a root
  // ---------------------------------------------------------------------------

  predicate OrdinarySegment(p: string) { p != "" && p != "." && p != ".." }

  predicate AllOrdinary(ps: seq<string>) { forall i | 0 <= i < |ps| :: OrdinarySegment(ps[i]) }

  predicate KeyOk(key: string) {
    && key != "" && |key| <= MAX_KEY && 0 as char !in key
    && key[0] != '/' && key[|key| - 1] != '/' && AllOrdinary(Pieces(key, '/', 0))
  }

  /** The text between two slashes, or between a slash and an end. */
  predicate Segment(key: string, i: nat, j: nat) {
    && i <= j <= |key| && (i == 0 || key[i - 1] == '/') && (j == |key| || key[j] == '/')
    && '/' !in key[i..j]
  }

  lemma SlashFree(key: string, i: nat, j: nat, k: nat)
    requires Segment(key, i, j) && i <= k < j
    ensures key[k] != '/'
  {
    assert key[k] == key[i..j][k - i];
  }

  lemma SegmentEnds(key: string, i: nat, j: nat)
    requires Segment(key, i, j)
    ensures Find(key, '/', i) == j
  {
    forall k | i <= k < j ensures key[k] != '/' { SlashFree(key, i, j, k); }
    FindIs(key, '/', i, j);
  }

  lemma SegmentAt(key: string, i: nat)
    requires i <= |key| && (i == 0 || key[i - 1] == '/')
    ensures Segment(key, i, Find(key, '/', i))
  {}

  /** The segments from position i on are ordinary. */
  ghost predicate OrdinaryFrom(key: string, i: nat) {
    forall a: nat, b: nat | i <= a && Segment(key, a, b) :: OrdinarySegment(key[a..b])
  }

  lemma NoneBetween(key: string, i: nat, j: nat, a: nat, b: nat)
    requires Segment(key, i, j) && Segment(key, a, b) && i < a
    ensures j < |key| && j + 1 <= a
  {
    if a - 1 < j { SlashFree(key, i, j, a - 1); }
  }

  lemma {:induction false} PiecesOrdinary(key: string, i: nat)
    requires i <= |key| && (i == 0 || key[i - 1] == '/')
    ensures AllOrdinary(Pieces(key, '/', i)) <==> OrdinaryFrom(key, i)
    decreases |key| - i
  {
    var j := Find(key, '/', i);
    SegmentAt(key, i);
    OrdinaryStep(key, i);
    if j < |key| { PiecesOrdinary(key, j + 1); }
    forall a: nat, b: nat | i <= a && Segment(key, a, b)
      ensures (a == i && b == j) || (j < |key| && j + 1 <= a)
    {
      if a == i { SegmentEnds(key, a, b); } else { NoneBetween(key, i, j, a, b); }
    }
  }

  /** A key is accepted exactly if it is neither empty nor too long, has no NUL, and no text between
      slashes is empty, `.` or `..`. */
  lemma KeyOkIff(key: string)
    ensures KeyOk(key) <==>
      && key != "" && |key| <= MAX_KEY && 0 as char !in key
      && forall i: nat, j: nat | Segment(key, i, j) :: key[i..j] != "" && key[i..j] != "." && key[i..j] != ".."
  {
    PiecesOrdinary(key, 0);
    if key != "" {
      if key[0] == '/' { assert Segment(key, 0, 0) && key[0..0] == ""; }
      if key[|key| - 1] == '/' { assert Segment(key, |key|, |key|) && key[|key|..|key|] == ""; }
    }
  }

  lemma OrdinaryStep(key: string, i: nat)
    requires i <= |key|
    ensures var j := Find(key, '/', i);
      AllOrdinary(Pieces(key, '/', i)) <==>
        OrdinarySegment(key[i..j]) && (j < |key| ==> AllOrdinary(Pieces(key, '/', j + 1)))
  {
    var j := Find(key, '/', i);
    var ps := Pieces(key, '/', i);
    if j < |key| {
      var rest := Pieces(key, '/', j + 1);
      assert ps == [key[i..j]] + rest;
      assert forall k | 0 <= k < |rest| :: ps[k + 1] == rest[k];
      assert ps[0] == key[i..j];
    } else {
      assert key[i..j] == key[i..] && ps == [key[i..]] && ps[0] == key[i..];
    }
  }

  /** What has been rebuilt when the next segment starts at `start`. */
  ghost predicate Rebuilt(key: string, out: string, start: nat) {
    && start <= |key|
    && (if start == 0 then out == "" else out != "" && key[start - 1] == '/' && out == key[..start - 1])
    && (AllOrdinary(Pieces(key, '/', start)) <==> AllOrdinary(Pieces(key, '/', 0)))
  }

  lemma Grown(key: string, out: string, start: nat, slash: nat)
    requires start <= slash <= |key|
    requires if start == 0 then out == "" else out != "" && key[start - 1] == '/' && out == key[..start - 1]
    ensures (if out != "" then out + "/" else out) + key[start..slash] == key[..slash]
    ensures slash == |key| ==> key[..slash] == key
  {
    if start > 0 { assert key[..start] == key[..start - 1] + "/"; }
    assert key[..start] + key[start..slash] == key[..slash];
  }

  /** Check and append one segment. */
  method TakeSegment(key: string, out: string, start: nat) returns (ok: bool, longer: string, slash: nat)
    requires Rebuilt(key, out, start)
    ensures start <= slash <= |key|
    ensures !ok ==> !AllOrdinary(Pieces(key, '/', 0))
    ensures ok && slash < |key| ==> Rebuilt(key, longer, slash + 1)
    ensures ok && slash == |key| ==> longer == key && AllOrdinary(Pieces(key, '/', 0))
  {
    slash := Find(key, '/', start);
    var seg := key[start..slash];
    OrdinaryStep(key, start);
    if !OrdinarySegment(seg) { return false, out, slash; }
    longer := (if out != "" then out + "/" else out) + seg;
    Grown(key, out, start, slash);
    return true, longer, slash;
  }

  /** The key is checked segment by segment and rebuilt; what passes is unchanged. */
  method NormalizeKey(key: string) returns (r: Option<string>)
    ensures r == if KeyOk(key) then Some(key) else None
  {
    if key == "" || |key| > MAX_KEY || 0 as char in key { return None; }
    if key[0] == '/' || key[|key| - 1] == '/' { return None; }
    var out, start := "", 0;
    while start <= |key|
      invariant 0 <= start && Rebuilt(key, out, start)
      decreases |key| - start
    {
      var ok, longer, slash := TakeSegment(key, out, start);
      if !ok { return None; }
      if slash == |key| { return Some(longer); }
      out, start := longer, slash + 1;
    }
    assert false;
  }

  function Stem(root: string): string
    requires root != ""
  {
    if root[|root| - 1] == '/' then root[..|root| - 1] else root
  }

  method LexicalJoin(root: string, key: string) returns (r: Option<string>)
    ensures r == if KeyOk(key) && root != "" then Some(Stem(root) + "/" + key) else None
  {
    var norm := NormalizeKey(key);
    if norm.None? || root == "" { return None; }
    return Some(Stem(root) + "/" + norm.value);
  }

  function Bare(a: string, b: string, c: string): string { a + "/" + b + "/" + c }

  lemma BareParts(a: string, b: string, c: string)
    ensures var key, i, j := Bare(a, b, c), |a|, 1 + |a| + |b|;
      && i < j < |key| && key[0..i] == a && key[i] == '/' && key[i + 1..j] == b && key[j] == '/' && key[j + 1..] == c
  {}

  lemma BareSlashes(a: string, b: string, c: string, k: nat)
    requires '/' !in a && '/' !in b && '/' !in c && k < |Bare(a, b, c)|
    ensures Bare(a, b, c)[k] == '/' <==> k == |a| || k == 1 + |a| + |b|
  {
    LayoutSlashes(a, b, c, k + 1);
    assert Bare(a, b, c)[k] == Layout(a, b, c)[k + 1];
  }

  lemma BarePieces(a: string, b: string, c: string)
    requires '/' !in a && '/' !in b && '/' !in c
    ensures Pieces(Bare(a, b, c), '/', 0) == [a, b, c]
  {
    BareParts(a, b, c);
    forall k | 0 <= k < |Bare(a, b, c)|
      ensures Bare(a, b, c)[k] == '/' <==> k == |a| || k == 1 + |a| + |b|
    {
      BareSlashes(a, b, c, k);
    }
    PiecesBetween(Bare(a, b, c), 0, |a|, 1 + |a| + |b|);
  }

  lemma KeyPieces(p: SourcePath)
    requires Accepted(p)
    ensures Pieces(PosixKey(p), '/', 0) == [p.user, Middle(p), p.fileId]
  {
    SegmentChars(p.user);
    SegmentChars(p.fileId);
    MiddleParts(Digits(p.epoch), p.timestamp);
    BarePieces(p.user, Middle(p), p.fileId);
  }

  lemma KeyEnds(p: SourcePath)
    requires Accepted(p)
    ensures var key := PosixKey(p); key != "" && key[0] != '/' && key[|key| - 1] != '/'
  {
    var key := PosixKey(p);
    assert key[0] == p.user[0];
    assert key[|key| - 1] == p.fileId[|p.fileId| - 1];
  }

  lemma KeyClean(p: SourcePath)
    requires Accepted(p)
    ensures 0 as char !in PosixKey(p)
  {
    MakePlausible(p);
    var key := PosixKey(p);
    forall i | 0 <= i < |key| ensures key[i] != 0 as char { assert key[i] == ("/" + key)[i + 1]; }
  }

  lemma MiddleOrdinary(p: SourcePath)
    requires Accepted(p)
    ensures OrdinarySegment(Middle(p))
  {
    assert |Middle(p)| > 23;
  }

  /** The joiner accepts every object key unchanged, under any root: its segments are the three
      parts, none of them `.` or `..`. */
  lemma KeyAccepted(p: SourcePath)
    requires Accepted(p)
    ensures KeyOk(PosixKey(p))
  {
    KeyPieces(p);
    KeyEnds(p);
    KeyClean(p);
    MiddleOrdinary(p);
  }

  /** Distinct parts get distinct paths below the root. */
  lemma PathsDistinct(root: string, p: SourcePath, q: SourcePath)
    requires root != "" && Accepted(p) && Accepted(q)
    requires Stem(root) + "/" + PosixKey(p) == Stem(root) + "/" + PosixKey(q)
    ensures p == q
  {
    var n := |Stem(root)| + 1;
    assert PosixKey(p) == (Stem(root) + "/" + PosixKey(p))[n..];
    assert PosixKey(q) == (Stem(root) + "/" + PosixKey(q))[n..];
    KeyInjective(p, q);
  }
}
