/** Text primitives: trimming, searching, splitting, decimal numbers. */
module Text {
  import opened Base

  const INT64_MAX: nat := 0x7FFF_FFFF_FFFF_FFFF
  const UINT64_MAX: nat := 0xFFFF_FFFF_FFFF_FFFF

  /** First position of c at or after `from`; |s| if there is none. */
  function Find(s: string, c: char, from: nat): (i: nat)
    requires from <= |s|
    ensures from <= i <= |s|
    ensures forall k | from <= k < i :: s[k] != c
    ensures i < |s| ==> s[i] == c
    decreases |s| - from
  {
    if from == |s| || s[from] == c then from else Find(s, c, from + 1)
  }

  function Split(s: string, c: char): (pieces: seq<string>)
    ensures pieces != []
    decreases |s|
  {
    var i := Find(s, c, 0);
    if i == |s| then [s] else [s[..i]] + Split(s[i + 1..], c)
  }

  /** No piece holds the separator. */
  lemma {:induction false} SplitClean(s: string, c: char, k: nat)
    requires k < |Split(s, c)|
    ensures c !in Split(s, c)[k]
    decreases |s|
  {
    var i := Find(s, c, 0);
    if k > 0 { SplitClean(s[i + 1..], c, k - 1); }
  }

  function Join(pieces: seq<string>, c: char): string {
    if pieces == [] then ""
    else if |pieces| == 1 then pieces[0]
    else pieces[0] + [c] + Join(pieces[1..], c)
  }

  lemma FindFirst(a: string, c: char, b: string)
    requires c !in a
    ensures Find(a + [c] + b, c, 0) == |a|
  {
    var s := a + [c] + b;
    var i := Find(s, c, 0);
    assert forall j | 0 <= j < |a| :: s[j] == a[j];
    assert s[|a|] == c;
  }

  lemma FindNone(a: string, c: char)
    requires c !in a
    ensures Find(a, c, 0) == |a|
  {}

  lemma FindIs(s: string, c: char, from: nat, i: nat)
    requires from <= i <= |s| && (forall k | from <= k < i :: s[k] != c) && (i < |s| ==> s[i] == c)
    ensures Find(s, c, from) == i
  {}

  lemma FindShift(s: string, c: char, from: nat)
    requires from <= |s|
    ensures Find(s, c, from) == from + Find(s[from..], c, 0)
  {
    var t := s[from..];
    var j := Find(t, c, 0);
    assert forall k | 0 <= k < |t| :: t[k] == s[from + k];
    assert forall k | from <= k < from + j :: s[k] == t[k - from];
    FindIs(s, c, from, from + j);
  }

  /** The pieces of s from position i on. */
  function Pieces(s: string, c: char, i: nat): seq<string>
    requires i <= |s|
    decreases |s| - i
  {
    var j := Find(s, c, i);
    if j == |s| then [s[i..]] else [s[i..j]] + Pieces(s, c, j + 1)
  }

  lemma JoinCons(p: string, rest: seq<string>, c: char)
    requires rest != []
    ensures Join([p] + rest, c) == p + [c] + Join(rest, c)
  {
    assert ([p] + rest)[1..] == rest;
  }

  lemma CutAt(s: string, c: char, i: nat, j: nat)
    requires i <= j < |s| && s[j] == c
    ensures s[i..] == s[i..j] + [c] + s[j + 1..]
  {}

  /** Joining undoes splitting. */
  lemma {:induction false} JoinPieces(s: string, c: char, i: nat)
    requires i <= |s|
    ensures Join(Pieces(s, c, i), c) == s[i..]
    decreases |s| - i
  {
    var j := Find(s, c, i);
    if j < |s| {
      JoinPieces(s, c, j + 1);
      JoinCons(s[i..j], Pieces(s, c, j + 1), c);
      CutAt(s, c, i, j);
    }
  }

  /** Splitting undoes joining. */
  lemma {:induction false} SplitJoin(pieces: seq<string>, c: char)
    requires pieces != [] && forall p | p in pieces :: c !in p
    ensures Split(Join(pieces, c), c) == pieces
    decreases |pieces|
  {
    if |pieces| == 1 {
      FindNone(pieces[0], c);
    } else {
      var rest := Join(pieces[1..], c);
      FindFirst(pieces[0], c, rest);
      var s := pieces[0] + [c] + rest;
      assert Join(pieces, c) == s;
      assert s[..|pieces[0]|] == pieces[0] && s[|pieces[0]| + 1..] == rest;
      SplitJoin(pieces[1..], c);
    }
  }

  predicate Blank(c: char) { c == ' ' || c == '\t' }

  function TrimLeft(s: string): string {
    if s != "" && Blank(s[0]) then TrimLeft(s[1..]) else s
  }

  function TrimRight(s: string): string {
    if s != "" && Blank(s[|s| - 1]) then TrimRight(s[..|s| - 1]) else s
  }

  function Trim(s: string): string { TrimRight(TrimLeft(s)) }

  lemma TrimSolid(s: string)
    requires forall c | c in s :: !Blank(c)
    ensures Trim(s) == s
  {}

  function LowerChar(c: char): char { if 'A' <= c <= 'Z' then c - 'A' + 'a' else c }

  function Lower(s: string): (r: string)
    ensures |r| == |s|
  {
    seq(|s|, i requires 0 <= i < |s| => LowerChar(s[i]))
  }

  // ---------------------------------------------------------------------------
  //  Decimal numbers
  // ---------------------------------------------------------------------------

  predicate Digit(c: char) { '0' <= c <= '9' }

  predicate AllDigits(s: string) { forall c | c in s :: Digit(c) }

  function DigitValue(c: char): nat
    requires Digit(c)
  {
    (c - '0') as nat
  }

  function Value(s: string): nat
    requires AllDigits(s)
  {
    if s == "" then 0 else Value(s[..|s| - 1]) * 10 + DigitValue(s[|s| - 1])
  }

  /** std::to_string of a non-negative number. */
  function Digits(n: nat): (s: string)
    ensures s != "" && AllDigits(s)
  {
    var c := '0' + (n % 10) as char;
    if n < 10 then [c] else Digits(n / 10) + [c]
  }

  lemma {:induction false} ValueDigits(n: nat)
    ensures Value(Digits(n)) == n
  {
    var s := Digits(n);
    if n >= 10 {
      ValueDigits(n / 10);
      assert s[..|s| - 1] == Digits(n / 10);
    } else {
      assert s[..0] == "";
    }
  }

  lemma {:induction false} PrefixValue(s: string, i: nat)
    requires AllDigits(s) && i <= |s|
    ensures Value(s[..i]) <= Value(s)
    decreases |s| - i
  {
    if i < |s| {
      assert s[..i + 1][..i] == s[..i];
      PrefixValue(s, i + 1);
    } else {
      assert s[..i] == s;
    }
  }

  /** The number a text stands for, if it is one and fits a signed 64-bit integer. */
  function Number(s: string): (r: Option<nat>)
    ensures r.Some? ==> r.value <= INT64_MAX
  {
    if s != "" && AllDigits(s) && Value(s) <= INT64_MAX then Some(Value(s)) else None
  }

  /** The digit loop with its 64-bit overflow check. */
  method ParseUint64(text: string) returns (r: Option<nat>)
    ensures r == Number(text)
  {
    if text == "" { return None; }
    var value := 0;
    var i := 0;
    while i < |text|
      invariant 0 <= i <= |text|
      invariant AllDigits(text[..i]) && value == Value(text[..i]) <= UINT64_MAX
    {
      var c := text[i];
      if !Digit(c) { return None; }
      var digit := DigitValue(c);
      assert text[..i + 1][..i] == text[..i];
      assert AllDigits(text[..i + 1]);
      if value > (UINT64_MAX - digit) / 10 {
        if AllDigits(text) { PrefixValue(text, i + 1); }
        return None;
      }
      value := value * 10 + digit;
      i := i + 1;
    }
    assert text[..i] == text;
    if value > INT64_MAX { return None; }
    return Some(value);
  }
}
