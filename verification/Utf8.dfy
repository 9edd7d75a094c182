/**
  UTF-8 (RFC 3629): encoding of scalar values, well-formed texts, and the replacement of each
  maximal ill-formed part by U+FFFD; and the byte-range tables that recognise the same.
*/
module Utf8 {
  import opened Base

  predicate Scalar(cp: int) { 0 <= cp < 0xD800 || 0xE000 <= cp <= 0x10FFFF }

  function Encode(cp: int): (e: Bytes)
    requires Scalar(cp)
    ensures 1 <= |e| <= 4
  {
    if cp < 0x80 then [cp as Byte]
    else if cp < 0x800 then [(0xC0 + cp / 64) as Byte, (0x80 + cp % 64) as Byte]
    else if cp < 0x10000 then
      [(0xE0 + cp / 64 / 64) as Byte, (0x80 + cp / 64 % 64) as Byte, (0x80 + cp % 64) as Byte]
    else
      [(0xF0 + cp / 64 / 64 / 64) as Byte, (0x80 + cp / 64 / 64 % 64) as Byte,
       (0x80 + cp / 64 % 64) as Byte, (0x80 + cp % 64) as Byte]
  }

  /** Some scalar value's encoding starts the text. */
  ghost predicate StartsChar(s: Bytes) { exists cp | Scalar(cp) :: Encode(cp) <= s }

  /** The text could still become the encoding of some scalar value. */
  ghost predicate Viable(t: Bytes) { exists cp | Scalar(cp) :: t <= Encode(cp) }

  ghost predicate WellFormed(s: Bytes)
    decreases |s|
  {
    s == [] || exists cp | Scalar(cp) :: Encode(cp) <= s && WellFormed(s[|Encode(cp)|..])
  }

  /** Length of the ill-formed part at the start: the longest viable prefix, at least one byte. */
  ghost function IllFormedLength(s: Bytes): (n: nat)
    requires s != []
    ensures 1 <= n <= |s|
  {
    if |s| >= 3 && Viable(s[..3]) then 3
    else if |s| >= 2 && Viable(s[..2]) then 2
    else 1
  }

  /** U+FFFD */
  const REPLACEMENT: Bytes := [0xEF, 0xBF, 0xBD]

  ghost function Repair(s: Bytes): Bytes
    decreases |s|
  {
    if s == [] then []
    else if StartsChar(s) then
      var cp :| Scalar(cp) && Encode(cp) <= s;
      Encode(cp) + Repair(s[|Encode(cp)|..])
    else REPLACEMENT + Repair(s[IllFormedLength(s)..])
  }

  // ---------------------------------------------------------------------------
  //  The tables
  // ---------------------------------------------------------------------------

  /** Length announced by a lead byte; 0 if it cannot start a sequence. */
  function SeqLen(c: Byte): (n: nat)
    ensures n <= 4
  {
    if c < 0x80 then 1
    else if 0xC2 <= c <= 0xDF then 2
    else if 0xE0 <= c <= 0xEF then 3
    else if 0xF0 <= c <= 0xF4 then 4
    else 0
  }

  function Low(b0: Byte, k: nat): Byte {
    if k == 1 && b0 == 0xE0 then 0xA0 else if k == 1 && b0 == 0xF0 then 0x90 else 0x80
  }

  function High(b0: Byte, k: nat): Byte {
    if k == 1 && b0 == 0xED then 0x9F else if k == 1 && b0 == 0xF4 then 0x8F else 0xBF
  }

  predicate Continues(s: Bytes, k: nat)
    requires s != []
  {
    k < |s| && Low(s[0], k) <= s[k] <= High(s[0], k)
  }

  /** Bytes of the sequence at the start that pass the tables. */
  function Matched(s: Bytes): (n: nat)
    requires s != []
    ensures 1 <= n <= |s| && n <= 4
  {
    var len := SeqLen(s[0]);
    if len <= 1 || !Continues(s, 1) then 1
    else if len == 2 || !Continues(s, 2) then 2
    else if len == 3 || !Continues(s, 3) then 3
    else 4
  }

  /** The whole announced sequence passes. */
  predicate Complete(s: Bytes)
    requires s != []
  {
    SeqLen(s[0]) == Matched(s)
  }

  function Decode(s: Bytes): int
    requires s != [] && Complete(s)
  {
    if SeqLen(s[0]) == 1 then s[0] as int
    else if SeqLen(s[0]) == 2 then (s[0] as int - 0xC0) * 64 + (s[1] as int - 0x80)
    else if SeqLen(s[0]) == 3 then
      ((s[0] as int - 0xE0) * 64 + (s[1] as int - 0x80)) * 64 + (s[2] as int - 0x80)
    else
      (((s[0] as int - 0xF0) * 64 + (s[1] as int - 0x80)) * 64 + (s[2] as int - 0x80)) * 64 + (s[3] as int - 0x80)
  }

  lemma Unpack(v: int, d: int)
    requires 0 <= d < 64 && 0 <= v
    ensures (v * 64 + d) / 64 == v && (v * 64 + d) % 64 == d
  {}

  /** What passes the tables is the encoding of a scalar value. */
  lemma CompleteIsChar(s: Bytes)
    requires s != [] && Complete(s)
    ensures Scalar(Decode(s)) && Encode(Decode(s)) == s[..Matched(s)]
  {
    var n := SeqLen(s[0]);
    if n == 2 {
      Unpack(s[0] as int - 0xC0, s[1] as int - 0x80);
    } else if n == 3 {
      CompleteThree(s);
    } else if n == 4 {
      CompleteFour(s);
    }
  }

  lemma CompleteThree(s: Bytes)
    requires s != [] && Complete(s) && SeqLen(s[0]) == 3
    ensures Scalar(Decode(s)) && Encode(Decode(s)) == s[..3]
  {
    var a, b, c := s[0] as int - 0xE0, s[1] as int - 0x80, s[2] as int - 0x80;
    Unpack(a, b);
    Unpack(a * 64 + b, c);
    assert Decode(s) == (a * 64 + b) * 64 + c;
  }

  lemma CompleteFour(s: Bytes)
    requires s != [] && Complete(s) && SeqLen(s[0]) == 4
    ensures Scalar(Decode(s)) && Encode(Decode(s)) == s[..4]
  {
    var a, b, c, d := s[0] as int - 0xF0, s[1] as int - 0x80, s[2] as int - 0x80, s[3] as int - 0x80;
    Unpack(a, b);
    Unpack(a * 64 + b, c);
    Unpack((a * 64 + b) * 64 + c, d);
    assert Decode(s) == ((a * 64 + b) * 64 + c) * 64 + d;
  }

  /** Every encoding passes the tables, wherever it stands. */
  lemma CharIsComplete(cp: int, s: Bytes)
    requires Scalar(cp) && Encode(cp) <= s
    ensures s != [] && Complete(s) && Matched(s) == |Encode(cp)| && s[..Matched(s)] == Encode(cp)
  {
    var e := Encode(cp);
    assert forall k | 0 <= k < |e| :: s[k] == e[k];
  }

  lemma StartsCharIff(s: Bytes)
    requires s != []
    ensures StartsChar(s) <==> Complete(s)
  {
    if Complete(s) { CompleteIsChar(s); }
    if StartsChar(s) {
      var cp :| Scalar(cp) && Encode(cp) <= s;
      CharIsComplete(cp, s);
    }
  }

  /** Fill up a matched prefix with the least continuation bytes. */
  lemma MatchedIsViable(t: Bytes)
    requires t != [] && SeqLen(t[0]) != 0 && Matched(t) == |t|
    ensures Viable(t)
  {
    var n := SeqLen(t[0]);
    var full :=
      if |t| >= n then t
      else if |t| + 1 == n then t + [Low(t[0], |t|)]
      else if |t| + 2 == n then t + [Low(t[0], |t|), 0x80]
      else t + [Low(t[0], |t|), 0x80, 0x80];
    assert t <= full;
    assert Complete(full) && Matched(full) == |full|;
    CompleteIsChar(full);
    assert full[..|full|] == full;
  }

  /** A viable text matches as a whole. */
  lemma ViableIsMatched(t: Bytes)
    requires t != [] && Viable(t)
    ensures Matched(t) == |t| && SeqLen(t[0]) != 0
  {
    var cp :| Scalar(cp) && t <= Encode(cp);
    CharIsComplete(cp, Encode(cp));
    assert forall k | 0 <= k < |t| :: t[k] == Encode(cp)[k];
  }

  lemma ViablePrefix(s: Bytes, n: nat)
    requires 1 <= n <= |s| && n <= 3 && !Complete(s)
    ensures n >= 2 ==> (Viable(s[..n]) <==> Matched(s) >= n)
  {
    var t := s[..n];
    if n >= 2 {
      if Viable(t) { ViableIsMatched(t); }
      if Matched(s) >= n { MatchedIsViable(t); }
    }
  }

  /** What the tables pass before they stop is the maximal ill-formed part. */
  lemma IllFormedByTable(s: Bytes)
    requires s != [] && !Complete(s)
    ensures IllFormedLength(s) == Matched(s) && !StartsChar(s)
  {
    StartsCharIff(s);
    if |s| >= 2 { ViablePrefix(s, 2); }
    if |s| >= 3 { ViablePrefix(s, 3); }
  }

  /** One step of the repair, by the tables. */
  lemma RepairStep(s: Bytes)
    requires s != []
    ensures Repair(s) == (if Complete(s) then s[..Matched(s)] else REPLACEMENT) + Repair(s[Matched(s)..])
  {
    if Complete(s) {
      StartsCharIff(s);
      forall cp | Scalar(cp) && Encode(cp) <= s
        ensures Encode(cp) == s[..Matched(s)]
      {
        CharIsComplete(cp, s);
      }
    } else {
      IllFormedByTable(s);
    }
  }

  lemma WellFormedStep(s: Bytes)
    requires s != [] && WellFormed(s)
    ensures Complete(s) && WellFormed(s[Matched(s)..])
  {
    var cp :| Scalar(cp) && Encode(cp) <= s && WellFormed(s[|Encode(cp)|..]);
    CharIsComplete(cp, s);
  }

  /** The repair as the tables drive it. */
  function Fix(s: Bytes): Bytes
    decreases |s|
  {
    if s == [] then []
    else (if Complete(s) then s[..Matched(s)] else REPLACEMENT) + Fix(s[Matched(s)..])
  }

  lemma {:induction false} RepairIsFix(s: Bytes)
    ensures Repair(s) == Fix(s)
    decreases |s|
  {
    if s != [] {
      RepairStep(s);
      RepairIsFix(s[Matched(s)..]);
    }
  }

  predicate Passes(s: Bytes)
    decreases |s|
  {
    s == [] || (Complete(s) && Passes(s[Matched(s)..]))
  }

  lemma {:induction false} WellFormedPasses(s: Bytes)
    requires WellFormed(s)
    ensures Passes(s)
    decreases |s|
  {
    if s != [] {
      WellFormedStep(s);
      WellFormedPasses(s[Matched(s)..]);
    }
  }

  lemma {:induction false} FixNothing(s: Bytes)
    requires Passes(s)
    ensures Fix(s) == s
    decreases |s|
  {
    if s != [] {
      FixNothing(s[Matched(s)..]);
      assert s[..Matched(s)] + s[Matched(s)..] == s;
    }
  }

  /** Well-formed text needs no repair. */
  lemma RepairNothing(s: Bytes)
    requires WellFormed(s)
    ensures Repair(s) == s
  {
    WellFormedPasses(s);
    FixNothing(s);
    RepairIsFix(s);
  }

  lemma CharThen(cp: int, rest: Bytes)
    requires Scalar(cp) && WellFormed(rest)
    ensures WellFormed(Encode(cp) + rest)
  {
    var s := Encode(cp) + rest;
    assert Encode(cp) <= s && s[|Encode(cp)|..] == rest;
  }

  /** Repaired text is well-formed. */
  lemma {:induction false} RepairWellFormed(s: Bytes)
    ensures WellFormed(Repair(s))
    decreases |s|
  {
    if s != [] {
      RepairStep(s);
      RepairWellFormed(s[Matched(s)..]);
      if Complete(s) {
        CompleteIsChar(s);
        CharThen(Decode(s), Repair(s[Matched(s)..]));
      } else {
        assert Encode(0xFFFD) == REPLACEMENT;
        CharThen(0xFFFD, Repair(s[Matched(s)..]));
      }
    }
  }
}
