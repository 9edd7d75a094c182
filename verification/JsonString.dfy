/**
  The log writer's JSON string escaping (section 7 of RFC 8259) with UTF-8 repair: the loop, a
  strict reader of JSON strings, and that reading undoes writing up to the repair.
*/
module JsonString {
  import opened Base
  import opened Utf8

  const QUOTE: Byte := 0x22
  const BACKSLASH: Byte := 0x5C

  function Hex(d: Byte): Byte
    requires d < 16
  {
    if d < 10 then 0x30 + d else 0x61 + (d - 10)
  }

  /** One ASCII byte. */
  function Ascii(c: Byte): Bytes
    requires c < 0x80
  {
    if c == QUOTE then [BACKSLASH, QUOTE]
    else if c == BACKSLASH then [BACKSLASH, BACKSLASH]
    else if c == 0x08 then [BACKSLASH, 0x62]
    else if c == 0x0C then [BACKSLASH, 0x66]
    else if c == 0x0A then [BACKSLASH, 0x6E]
    else if c == 0x0D then [BACKSLASH, 0x72]
    else if c == 0x09 then [BACKSLASH, 0x74]
    else if c < 0x20 then [BACKSLASH, 0x75, 0x30, 0x30, Hex(c / 16), Hex(c % 16)]
    else [c]
  }

  /** What the next sequence of the input becomes. */
  function Token(s: Bytes): Bytes
    requires s != []
  {
    if s[0] < 0x80 then Ascii(s[0])
    else if Complete(s) then s[..Matched(s)]
    else REPLACEMENT
  }

  function Body(s: Bytes): Bytes
    decreases |s|
  {
    if s == [] then [] else Token(s) + Body(s[Matched(s)..])
  }

  function Escape(s: Bytes): Bytes { [QUOTE] + Body(s) + [QUOTE] }

  // ---------------------------------------------------------------------------
  //  A strict reader
  // ---------------------------------------------------------------------------

  function Prepend(a: Bytes, r: Option<Bytes>): Option<Bytes> {
    if r.Some? then Some(a + r.value) else None
  }

  function HexValue(c: Byte): Option<int> {
    if 0x30 <= c <= 0x39 then Some(c as int - 0x30)
    else if 0x61 <= c <= 0x66 then Some(c as int - 0x61 + 10)
    else if 0x41 <= c <= 0x46 then Some(c as int - 0x41 + 10)
    else None
  }

  /** The two-character escapes. */
  function Simple(c: Byte): Option<Byte> {
    if c == QUOTE || c == BACKSLASH || c == 0x2F then Some(c)
    else if c == 0x62 then Some(0x08)
    else if c == 0x66 then Some(0x0C)
    else if c == 0x6E then Some(0x0A)
    else if c == 0x72 then Some(0x0D)
    else if c == 0x74 then Some(0x09)
    else None
  }

  function FourHex(t: Bytes): Option<int>
    requires |t| >= 6
  {
    var a, b, c, d := HexValue(t[2]), HexValue(t[3]), HexValue(t[4]), HexValue(t[5]);
    if a.Some? && b.Some? && c.Some? && d.Some?
    then Some(((a.value * 16 + b.value) * 16 + c.value) * 16 + d.value) else None
  }

  /** The characters up to the closing quote, which must be the last byte.  Raw control
      characters and ill-formed UTF-8 are refused. */
  function Chars(t: Bytes): Option<Bytes>
    decreases |t|
  {
    if t == [] then None
    else if t[0] == QUOTE then (if |t| == 1 then Some([]) else None)
    else if t[0] == BACKSLASH then
      if |t| < 2 then None
      else if Simple(t[1]).Some? then Prepend([Simple(t[1]).value], Chars(t[2..]))
      else if t[1] == 0x75 && |t| >= 6 && FourHex(t).Some? && Scalar(FourHex(t).value)
      then Prepend(Encode(FourHex(t).value), Chars(t[6..]))
      else None
    else if t[0] < 0x20 || !Complete(t) then None
    else Prepend(t[..Matched(t)], Chars(t[Matched(t)..]))
  }

  function Unescape(t: Bytes): Option<Bytes> {
    if t != [] && t[0] == QUOTE then Chars(t[1..]) else None
  }

  // ---------------------------------------------------------------------------
  //  Reading undoes writing
  // ---------------------------------------------------------------------------

  lemma AsciiRead(c: Byte, rest: Bytes)
    requires c < 0x80
    ensures Chars(Ascii(c) + rest) == Prepend([c], Chars(rest))
  {
    var t := Ascii(c) + rest;
    if |Ascii(c)| == 6 {
      var hi, lo := c / 16, c % 16;
      assert t[2] == 0x30 && t[3] == 0x30 && t[4] == Hex(hi) && t[5] == Hex(lo);
      assert HexValue(Hex(hi)) == Some(hi as int) && HexValue(Hex(lo)) == Some(lo as int);
      assert FourHex(t) == Some(c as int);
      assert Encode(c as int) == [c] && t[6..] == rest;
    } else if |Ascii(c)| == 2 {
      assert t[2..] == rest;
    } else {
      assert t[1..] == rest && t[..1] == [c];
    }
  }

  /** A complete sequence stays one in front of anything. */
  lemma CompleteAhead(e: Bytes, rest: Bytes)
    requires e != [] && Complete(e) && Matched(e) == |e|
    ensures Complete(e + rest) && Matched(e + rest) == |e|
    ensures (e + rest)[..|e|] == e && (e + rest)[|e|..] == rest
  {
    var t := e + rest;
    assert forall k | 0 <= k < |e| :: t[k] == e[k];
  }

  lemma WideRead(e: Bytes, rest: Bytes)
    requires e != [] && e[0] >= 0x80 && Complete(e) && Matched(e) == |e|
    ensures Chars(e + rest) == Prepend(e, Chars(rest))
  {
    CompleteAhead(e, rest);
  }

  lemma MatchedSlice(s: Bytes)
    requires s != [] && Complete(s)
    ensures var e := s[..Matched(s)]; Complete(e) && Matched(e) == |e| && e[0] == s[0]
  {}

  lemma ReplacementComplete()
    ensures Complete(REPLACEMENT) && Matched(REPLACEMENT) == 3
  {}

  /** What a token stands for. */
  function Meaning(s: Bytes): Bytes
    requires s != []
  {
    if Complete(s) then s[..Matched(s)] else REPLACEMENT
  }

  lemma TokenRead(s: Bytes, rest: Bytes)
    requires s != []
    ensures Chars(Token(s) + rest) == Prepend(Meaning(s), Chars(rest))
  {
    if s[0] < 0x80 {
      AsciiRead(s[0], rest);
      assert s[..1] == [s[0]];
    } else if Complete(s) {
      MatchedSlice(s);
      WideRead(s[..Matched(s)], rest);
    } else {
      ReplacementComplete();
      WideRead(REPLACEMENT, rest);
    }
  }

  lemma {:induction false} BodyRead(s: Bytes)
    ensures Chars(Body(s) + [QUOTE]) == Some(Fix(s))
    decreases |s|
  {
    if s == [] {
      assert Body(s) + [QUOTE] == [QUOTE];
    } else {
      var more := Body(s[Matched(s)..]);
      assert Body(s) + [QUOTE] == Token(s) + (more + [QUOTE]);
      TokenRead(s, more + [QUOTE]);
      BodyRead(s[Matched(s)..]);
    }
  }

  /** For every byte string the output is a well-formed JSON string whose value is the input
      with each maximal ill-formed part replaced by U+FFFD. */
  lemma UnescapeEscape(s: Bytes)
    ensures Unescape(Escape(s)) == Some(Repair(s))
  {
    var t := Escape(s);
    assert t[1..] == Body(s) + [QUOTE];
    BodyRead(s);
    RepairIsFix(s);
  }

  /** Well-formed text survives exactly. */
  lemma RoundTrip(s: Bytes)
    requires WellFormed(s)
    ensures Unescape(Escape(s)) == Some(s)
  {
    UnescapeEscape(s);
    RepairNothing(s);
  }

  /** No raw control byte is written. */
  lemma {:induction false} NoControlByte(s: Bytes)
    ensures forall b | b in Body(s) :: b >= 0x20
    decreases |s|
  {
    if s != [] {
      NoControlByte(s[Matched(s)..]);
      assert forall b | b in Token(s) :: b >= 0x20 by {
        if s[0] >= 0x80 && Complete(s) { WideBytes(s); }
      }
    }
  }

  lemma WideBytes(s: Bytes)
    requires s != [] && s[0] >= 0x80 && Complete(s)
    ensures forall b | b in s[..Matched(s)] :: b >= 0x80
  {}

  // ---------------------------------------------------------------------------
  //  No more is escaped than has to be
  // ---------------------------------------------------------------------------

  /** Stands for itself in a JSON string. */
  predicate Plain(c: Byte) { 0x20 <= c < 0x80 && c != QUOTE && c != BACKSLASH }

  /** Has a two-character escape: quote, backslash, and the controls b, t, n, f, r. */
  predicate Short(c: Byte) {
    c == QUOTE || c == BACKSLASH || c == 0x08 || c == 0x09 || c == 0x0A || c == 0x0C || c == 0x0D
  }

  /** Plain characters are written as they are, the others with the shortest escape there is. */
  lemma ShortestEscape(c: Byte)
    requires c < 0x80
    ensures |Ascii(c)| == if Plain(c) then 1 else if Short(c) then 2 else 6
    ensures Plain(c) ==> Ascii(c) == [c]
    ensures !Plain(c) ==> Ascii(c)[0] == BACKSLASH
  {
    AsciiRead(c, [QUOTE]);
  }

  lemma PlainAhead(s: Bytes)
    requires s != [] && Plain(s[0])
    ensures Token(s) == [s[0]] && Matched(s) == 1
  {}

  /** Plain text is only quoted. */
  lemma {:induction false} PlainUnchanged(s: Bytes)
    requires forall b | b in s :: Plain(b)
    ensures Body(s) == s
    decreases |s|
  {
    if s != [] {
      assert s[0] in s && forall b | b in s[1..] :: b in s;
      PlainUnchanged(s[1..]);
      PlainAhead(s);
      assert s == [s[0]] + s[1..];
    }
  }

  // ---------------------------------------------------------------------------
  //  Escaping repaired text changes nothing
  // ---------------------------------------------------------------------------

  lemma BodyAhead(e: Bytes, rest: Bytes)
    requires e != [] && Complete(e) && Matched(e) == |e|
    ensures Body(e + rest) == Token(e) + Body(rest)
  {
    CompleteAhead(e, rest);
    assert e[..|e|] == e;
    assert Token(e + rest) == Token(e);
  }

  lemma {:induction false} BodyOfFix(s: Bytes)
    ensures Body(Fix(s)) == Body(s)
    decreases |s|
  {
    if s != [] {
      var rest := Fix(s[Matched(s)..]);
      BodyOfFix(s[Matched(s)..]);
      if Complete(s) {
        MatchedSlice(s);
        var e := s[..Matched(s)];
        BodyAhead(e, rest);
        assert e[..|e|] == e && Token(e) == Token(s);
      } else {
        ReplacementComplete();
        BodyAhead(REPLACEMENT, rest);
        assert Token(REPLACEMENT) == REPLACEMENT == Token(s);
      }
    }
  }

  lemma EscapeRepaired(s: Bytes)
    ensures Escape(Repair(s)) == Escape(s)
  {
    RepairIsFix(s);
    BodyOfFix(s);
  }

  // ---------------------------------------------------------------------------
  //  The loop
  // ---------------------------------------------------------------------------

  /** The first k bytes after the lead byte pass the tables. */
  predicate Passed(s: Bytes, k: nat)
    requires s != []
  {
    (k >= 1 ==> Continues(s, 1)) && (k >= 2 ==> Continues(s, 2)) && (k >= 3 ==> Continues(s, 3))
  }

  /** Check the continuation bytes one by one. */
  method CheckSequence(s: Bytes) returns (ok: bool, consumed: nat)
    requires s != [] && SeqLen(s[0]) > 1
    ensures ok <==> Complete(s)
    ensures 1 + consumed == Matched(s)
  {
    var len := SeqLen(s[0]);
    consumed, ok := 0, true;
    var k := 1;
    while k < len
      invariant 1 <= k <= len && consumed == k - 1 && ok && Passed(s, k - 1)
    {
      if k >= |s| { return false, consumed; }
      var lo, hi := Low(s[0], k), High(s[0], k);
      if s[k] < lo || s[k] > hi { return false, consumed; }
      consumed := consumed + 1;
      k := k + 1;
    }
  }

  /** What to write for the sequence at the start, and how far to go on. */
  method Emit(s: Bytes) returns (token: Bytes, n: nat)
    requires s != []
    ensures token == Token(s) && n == Matched(s)
  {
    var c := s[0];
    if c < 0x80 { return Ascii(c), 1; }
    var len := SeqLen(c);
    if len == 0 { return REPLACEMENT, 1; }
    var ok, consumed := CheckSequence(s);
    if ok { return s[..len], len; }
    return REPLACEMENT, 1 + consumed;
  }

  /** One iteration of the loop. */
  method Advance(r: Bytes, s: Bytes, i: nat) returns (t: Bytes, j: nat)
    requires i < |s|
    ensures i < j <= |s| && t + Body(s[j..]) == r + Body(s[i..])
  {
    var token, n := Emit(s[i..]);
    j := i + n;
    t := r + token;
    assert s[i..][n..] == s[j..];
    Regroup(r, token, Body(s[j..]));
  }

  lemma Regroup(a: Bytes, b: Bytes, c: Bytes)
    ensures (a + b) + c == a + (b + c)
  {}

  lemma Closing(out: Bytes, s: Bytes, r: Bytes)
    requires r + Body(s[|s|..]) == out + [QUOTE] + Body(s)
    ensures r + [QUOTE] == out + Escape(s)
  {
    assert s[|s|..] == [] && r + [] == r;
    Regroup(out, [QUOTE], Body(s));
    Regroup(out, [QUOTE] + Body(s), [QUOTE]);
  }

  /** Append the quoted and escaped text. */
  method AppendJsonString(out: Bytes, s: Bytes) returns (r: Bytes)
    ensures r == out + Escape(s)
  {
    ghost var goal := out + [QUOTE] + Body(s);
    r := out + [QUOTE];
    var i := 0;
    assert s[0..] == s;
    while i < |s|
      invariant 0 <= i <= |s|
      invariant r + Body(s[i..]) == goal
    {
      r, i := Advance(r, s, i);
    }
    Closing(out, s, r);
    r := r + [QUOTE];
  }
}
