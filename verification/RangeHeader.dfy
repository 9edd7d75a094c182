/**
  The Range header (sections 2.1 and 4.4 of RFC 7233): the parser's loop, a declarative
  reference for it, what the reference means, and the print/parse round trip.
*/
module RangeHeader {
  import opened Base
  import opened Text

  const MAX_RANGES: nat := 32

  /** A closed interval of byte positions. */
  datatype ByteRange = ByteRange(first: int, last: int)

  datatype RangeResult = Absent | Malformed | Unsatisfiable | Partial(ranges: seq<ByteRange>)

  // ---------------------------------------------------------------------------
  //  Reference
  // ---------------------------------------------------------------------------

  /** One element of the byte-range set. */
  datatype Spec = Suffix(n: nat) | From(a: nat) | FromTo(a: nat, b: nat)

  function ParseSpec(spec: string): Option<Spec> {
    var dash := Find(spec, '-', 0);
    if dash == |spec| then None
    else
      var first, last := Trim(spec[..dash]), Trim(spec[dash + 1..]);
      if first == "" then
        var n := Number(last);
        if n.Some? then Some(Suffix(n.value)) else None
      else
        var a := Number(first);
        if a.None? then None
        else if last == "" then Some(From(a.value))
        else
          var b := Number(last);
          if b.None? || b.value < a.value then None else Some(FromTo(a.value, b.value))
  }

  /** With an unknown length only a suffix of positive length makes no sense. */
  predicate Valid(spec: string, total: int) {
    var p := ParseSpec(spec);
    p.Some? && (total < 0 && p.value.Suffix? ==> p.value.n == 0)
  }

  /** Does position k belong to the spec, for an object of the given size (negative: unknown)? */
  predicate Covers(s: Spec, total: int, k: int) {
    && 0 <= k && (total >= 0 ==> k < total) && (total < 0 ==> k <= INT64_MAX)
    && match s
       case Suffix(n) => total >= 0 && total - n <= k
       case From(a) => a <= k
       case FromTo(a, b) => a <= k <= b
  }

  /** The interval of a spec, if it contains any position. */
  function Interval(s: Spec, total: int): Option<ByteRange> {
    var end := if total >= 0 then total - 1 else INT64_MAX;
    match s
    case Suffix(n) =>
      if n == 0 || total <= 0 then None else Some(ByteRange(Max(0, total - n), end))
    case From(a) => if a > end then None else Some(ByteRange(a, end))
    case FromTo(a, b) => if a > end then None else Some(ByteRange(a, Min(b, end)))
  }

  function Clean(pieces: seq<string>): seq<string> {
    if pieces == [] then []
    else (if Trim(pieces[0]) == "" then [] else [Trim(pieces[0])]) + Clean(pieces[1..])
  }

  /** The non-empty elements of a comma-separated set. */
  function Specs(set_: string): seq<string> { Clean(Split(set_, ',')) }

  /** Malformed, or without any position in the object, or an interval of it. */
  datatype Verdict = Bad | Misses | Hits(range: ByteRange)

  function Judge(spec: string, total: int): Verdict {
    if !Valid(spec, total) then Bad
    else
      var i := Interval(ParseSpec(spec).value, total);
      if i.Some? then Hits(i.value) else Misses
  }

  function JudgeAll(specs: seq<string>, total: int): (v: seq<Verdict>)
    ensures |v| == |specs|
  {
    seq(|specs|, i requires 0 <= i < |specs| => Judge(specs[i], total))
  }

  /** The intervals hit, in order. */
  function Ranges(v: seq<Verdict>): (r: seq<ByteRange>)
    ensures |r| <= |v|
  {
    if v == [] then []
    else Ranges(v[..|v| - 1]) + if v[|v| - 1].Hits? then [v[|v| - 1].range] else []
  }

  function Resolve(v: seq<Verdict>): RangeResult {
    if v == [] || |v| > MAX_RANGES || Bad in v then Malformed
    else if Ranges(v) == [] then Unsatisfiable
    else Partial(Ranges(v))
  }

  /** The elements of a header with unit `bytes`. */
  function Elements(value: string): Option<seq<string>> {
    var header := Trim(value);
    var eq := Find(header, '=', 0);
    if eq == |header| || Lower(Trim(header[..eq])) != "bytes" then None
    else Some(Specs(Trim(header[eq + 1..])))
  }

  function Reference(value: string, total: int): RangeResult {
    if Trim(value) == "" then Absent
    else if Elements(value).None? then Malformed
    else Resolve(JudgeAll(Elements(value).value, total))
  }

  // ---------------------------------------------------------------------------
  //  The loop computes the reference
  // ---------------------------------------------------------------------------

  function Opt(spec: string): seq<string> { if spec == "" then [] else [spec] }

  lemma SpecsOfNothing()
    ensures Specs("") == []
  {
    assert Split("", ',') == [""];
    assert Clean([""]) == [] + Clean([""][1..]);
  }

  lemma CleanCons(piece: string, rest: seq<string>)
    ensures Clean([piece] + rest) == Opt(Trim(piece)) + Clean(rest)
  {
    assert ([piece] + rest)[1..] == rest;
  }

  lemma {:induction false} SplitHead(t: string, i: nat)
    requires i == Find(t, ',', 0)
    ensures i == |t| ==> Split(t, ',') == [t]
    ensures i < |t| ==> Split(t, ',') == [t[..i]] + Split(t[i + 1..], ',')
  {}

  lemma {:induction false} SpecsFrom(t: string, piece: string, rest: seq<string>)
    requires Split(t, ',') == [piece] + rest
    ensures Specs(t) == Opt(Trim(piece)) + Clean(rest)
  {
    CleanCons(piece, rest);
  }

  lemma {:induction false} FirstSpec(t: string, i: nat)
    requires i == Find(t, ',', 0)
    ensures i == |t| ==> Specs(t) == Opt(Trim(t))
    ensures i < |t| ==> Specs(t) == Opt(Trim(t[..i])) + Specs(t[i + 1..])
  {
    SplitHead(t, i);
    if i == |t| {
      assert [t] + [] == [t];
      SpecsFrom(t, t, []);
    } else {
      SpecsFrom(t, t[..i], Split(t[i + 1..], ','));
    }
  }

  /** One step of the comma loop. */
  lemma {:induction false} NextSpec(s: string, pos: nat, comma: nat)
    requires pos < |s| && comma == Find(s, ',', pos)
    ensures Specs(s[pos..]) ==
      Opt(Trim(s[pos..comma])) + Specs(s[if comma == |s| then |s| else comma + 1..])
  {
    var t, i := s[pos..], comma - pos;
    FindShift(s, ',', pos);
    FirstSpec(t, i);
    assert t[..i] == s[pos..comma];
    if comma == |s| {
      SpecsOfNothing();
      assert s[|s|..] == "" && t == s[pos..comma];
    } else {
      assert t[i + 1..] == s[comma + 1..];
    }
  }

  method Classify(spec: string, total: int) returns (r: Verdict)
    requires total <= INT64_MAX
    ensures r == Judge(spec, total)
  {
    var dash := Find(spec, '-', 0);
    if dash == |spec| { return Bad; }
    var firstText, lastText := Trim(spec[..dash]), Trim(spec[dash + 1..]);
    if firstText == "" && lastText == "" { return Bad; }
    if firstText == "" {
      var suffix := ParseUint64(lastText);
      if suffix.None? { return Bad; }
      if suffix.value == 0 { return Misses; }
      if total < 0 { return Bad; }
      if total == 0 { return Misses; }
      var first := if suffix.value >= total then 0 else total - suffix.value;
      return Hits(ByteRange(first, total - 1));
    }
    var first := ParseUint64(firstText);
    if first.None? { return Bad; }
    if lastText == "" {
      if total < 0 { return Hits(ByteRange(first.value, INT64_MAX)); }
      if first.value >= total { return Misses; }
      return Hits(ByteRange(first.value, total - 1));
    }
    var last := ParseUint64(lastText);
    if last.None? { return Bad; }
    if last.value < first.value { return Bad; }
    if total >= 0 {
      if first.value >= total { return Misses; }
      return Hits(ByteRange(first.value, Min(last.value, total - 1)));
    }
    return Hits(ByteRange(first.value, last.value));
  }

  lemma Judged(specs: seq<string>, spec: string, rest: seq<string>, total: int)
    requires specs == Opt(spec) + rest
    ensures JudgeAll(specs, total) ==
      (if spec == "" then [] else [Judge(spec, total)]) + JudgeAll(rest, total)
  {
    if spec == "" {
      assert specs == rest;
    } else {
      assert |specs| == 1 + |rest| && specs[0] == spec;
      assert forall i | 0 <= i < |rest| :: specs[i + 1] == rest[i];
    }
  }

  lemma RangesSnoc(v: seq<Verdict>, x: Verdict)
    ensures Ranges(v + [x]) == Ranges(v) + if x.Hits? then [x.range] else []
  {
    assert (v + [x])[..|v|] == v;
  }

  /** Verdicts on the elements from position pos on. */
  ghost function Left(set_: string, pos: nat, total: int): seq<Verdict>
    requires pos <= |set_|
  {
    JudgeAll(Specs(set_[pos..]), total)
  }

  lemma NothingLeft(set_: string, total: int)
    ensures Left(set_, |set_|, total) == []
  {
    SpecsOfNothing();
    assert set_[|set_|..] == "";
  }

  /** Cut off the next element and classify it; an element may be blank. */
  method NextVerdict(set_: string, pos: nat, total: int) returns (v: Option<Verdict>, from: nat, comma: bool)
    requires pos < |set_| && total <= INT64_MAX
    ensures pos < from <= |set_| && (!comma ==> from == |set_|)
    ensures Left(set_, pos, total) ==
      if v.Some? then [v.value] + Left(set_, from, total) else Left(set_, from, total)
  {
    var end := Find(set_, ',', pos);
    comma := end < |set_|;
    var spec := Trim(set_[pos..end]);
    from := if comma then end + 1 else |set_|;
    NextSpec(set_, pos, end);
    Judged(Specs(set_[pos..]), spec, Specs(set_[from..]), total);
    if spec == "" { return None, from, comma; }
    var c := Classify(spec, total);
    v := Some(c);
  }

  /** What the loop's counters say about the elements seen so far. */
  ghost predicate Counts(done: seq<Verdict>, satisfiable: seq<ByteRange>, unsatisfiable: nat, specs: nat) {
    && Bad !in done && specs == |done| <= MAX_RANGES
    && satisfiable == Ranges(done) && unsatisfiable + |satisfiable| == specs
  }

  lemma Shifted(all: seq<Verdict>, done: seq<Verdict>, c: Verdict, rest: seq<Verdict>)
    requires all == done + ([c] + rest)
    ensures all == (done + [c]) + rest && c in all && |all| > |done|
  {
    assert all[|done|] == c;
  }

  lemma Rejected(all: seq<Verdict>)
    requires Bad in all || |all| > MAX_RANGES
    ensures Resolve(all) == Malformed
  {}

  lemma Counted(done: seq<Verdict>, satisfiable: seq<ByteRange>, unsatisfiable: nat, c: Verdict)
    requires Counts(done, satisfiable, unsatisfiable, |done|) && !c.Bad? && |done| < MAX_RANGES
    ensures c.Misses? ==> Counts(done + [c], satisfiable, unsatisfiable + 1, |done| + 1)
    ensures c.Hits? ==> Counts(done + [c], satisfiable + [c.range], unsatisfiable, |done| + 1)
  {
    RangesSnoc(done, c);
  }

  function Finish(satisfiable: seq<ByteRange>, unsatisfiable: nat): RangeResult {
    if satisfiable != [] then Partial(satisfiable)
    else if unsatisfiable > 0 then Unsatisfiable else Malformed
  }

  /** What the loop makes of the elements still to come. */
  function Go(v: seq<Verdict>, satisfiable: seq<ByteRange>, unsatisfiable: nat, specs: nat): RangeResult
    decreases |v|
  {
    if v == [] then Finish(satisfiable, unsatisfiable)
    else if specs + 1 > MAX_RANGES || v[0].Bad? then Malformed
    else if v[0].Misses? then Go(v[1..], satisfiable, unsatisfiable + 1, specs + 1)
    else Go(v[1..], satisfiable + [v[0].range], unsatisfiable, specs + 1)
  }

  lemma GoEnds(done: seq<Verdict>, satisfiable: seq<ByteRange>, unsatisfiable: nat)
    requires Counts(done, satisfiable, unsatisfiable, |done|)
    ensures Finish(satisfiable, unsatisfiable) == Resolve(done)
  {}

  /** A verdict that ends the loop. */
  lemma GoRejects(done: seq<Verdict>, v: seq<Verdict>, satisfiable: seq<ByteRange>, unsatisfiable: nat)
    requires v != [] && |done| <= MAX_RANGES && (|done| == MAX_RANGES || v[0].Bad?)
    ensures Go(v, satisfiable, unsatisfiable, |done|) == Malformed == Resolve(done + v)
  {
    assert v == [v[0]] + v[1..];
    Shifted(done + v, done, v[0], v[1..]);
    Rejected(done + v);
  }

  lemma GoMoves(done: seq<Verdict>, v: seq<Verdict>)
    requires v != []
    ensures done + v == (done + [v[0]]) + v[1..]
  {
    assert v == [v[0]] + v[1..];
  }

  lemma {:induction false} GoResolves(done: seq<Verdict>, v: seq<Verdict>, satisfiable: seq<ByteRange>, unsatisfiable: nat)
    requires Counts(done, satisfiable, unsatisfiable, |done|)
    ensures Go(v, satisfiable, unsatisfiable, |done|) == Resolve(done + v)
    decreases |v|
  {
    if v == [] {
      assert done + v == done;
      GoEnds(done, satisfiable, unsatisfiable);
    } else if |done| == MAX_RANGES || v[0].Bad? {
      GoRejects(done, v, satisfiable, unsatisfiable);
    } else {
      Counted(done, satisfiable, unsatisfiable, v[0]);
      GoMoves(done, v);
      if v[0].Misses? {
        GoResolves(done + [v[0]], v[1..], satisfiable, unsatisfiable + 1);
      } else {
        GoResolves(done + [v[0]], v[1..], satisfiable + [v[0].range], unsatisfiable);
      }
    }
  }

  /** The loop's variables. */
  datatype Scan = Scan(pos: nat, satisfiable: seq<ByteRange>, unsatisfiable: nat, specs: nat)

  /** What the loop will return from here. */
  ghost function Ahead(set_: string, total: int, s: Scan): RangeResult
    requires s.pos <= |set_|
  {
    Go(Left(set_, s.pos, total), s.satisfiable, s.unsatisfiable, s.specs)
  }

  lemma GoOne(all: seq<Verdict>, c: Verdict, rest: seq<Verdict>, s: Scan, t: Scan)
    requires all == [c] + rest && s.specs < MAX_RANGES && !c.Bad? && t.specs == s.specs + 1
    requires c.Misses? ==> t.satisfiable == s.satisfiable && t.unsatisfiable == s.unsatisfiable + 1
    requires c.Hits? ==> t.satisfiable == s.satisfiable + [c.range] && t.unsatisfiable == s.unsatisfiable
    ensures Go(all, s.satisfiable, s.unsatisfiable, s.specs) == Go(rest, t.satisfiable, t.unsatisfiable, t.specs)
  {
    assert all[1..] == rest;
  }

  /** One iteration: Some if the whole header is malformed, else the loop goes on with t. */
  method Iterate(set_: string, total: int, s: Scan) returns (stop: bool, t: Scan)
    requires s.pos < |set_| && total <= INT64_MAX && s.unsatisfiable + |s.satisfiable| == s.specs
    ensures s.pos < t.pos <= |set_| && t.unsatisfiable + |t.satisfiable| == t.specs
    ensures Ahead(set_, total, s) == if stop then Malformed else Ahead(set_, total, t)
  {
    var v, from, comma := NextVerdict(set_, s.pos, total);
    t := s.(pos := from);
    if v.None? {
      stop := s.specs == 0 && !comma;
      if stop { NothingLeft(set_, total); }
      return;
    }
    var c := v.value;
    if s.specs + 1 > MAX_RANGES || c.Bad? { return true, t; }
    t := t.(specs := s.specs + 1);
    if c.Misses? {
      t := t.(unsatisfiable := s.unsatisfiable + 1);
    } else {
      t := t.(satisfiable := s.satisfiable + [c.range]);
    }
    GoOne(Left(set_, s.pos, total), c, Left(set_, from, total), s, t);
    stop := false;
  }

  /** The loop over the elements of the set. */
  method ParseSet(set_: string, total: int) returns (r: RangeResult)
    requires total <= INT64_MAX
    ensures r == Resolve(Left(set_, 0, total))
  {
    var s := Scan(0, [], 0, 0);
    ghost var all := Left(set_, 0, total);
    assert Ahead(set_, total, s) == Resolve(all) by {
      GoResolves([], all, [], 0);
      assert [] + all == all;
    }
    while s.pos < |set_|
      invariant s.pos <= |set_| && s.unsatisfiable + |s.satisfiable| == s.specs
      invariant Ahead(set_, total, s) == Resolve(all)
    {
      var stop, t := Iterate(set_, total, s);
      if stop { return Malformed; }
      s := t;
    }
    NothingLeft(set_, total);
    if s.satisfiable == [] {
      if s.unsatisfiable > 0 { return Unsatisfiable; }
      return Malformed;
    }
    return Partial(s.satisfiable);
  }

  method ParseRangeHeader(value: string, total: int) returns (r: RangeResult)
    requires total <= INT64_MAX
    ensures r == Reference(value, total)
  {
    var header := Trim(value);
    if header == "" { return Absent; }
    var eq := Find(header, '=', 0);
    if eq == |header| { return Malformed; }
    if Lower(Trim(header[..eq])) != "bytes" { return Malformed; }
    var set_ := Trim(header[eq + 1..]);
    SpecsOfNothing();
    if set_ == "" { return Malformed; }
    assert set_[0..] == set_;
    r := ParseSet(set_, total);
  }

  // ---------------------------------------------------------------------------
  //  What the result means
  // ---------------------------------------------------------------------------

  /** The interval of a spec is exactly the set of its positions in the object. */
  lemma IntervalMeaning(s: Spec, total: int)
    requires 0 <= total && (s.FromTo? ==> s.a <= s.b)
    ensures var r := Interval(s, total);
      && (r.None? ==> forall k :: !Covers(s, total, k))
      && (r.Some? ==>
            && 0 <= r.value.first <= r.value.last < total
            && forall k :: r.value.first <= k <= r.value.last <==> Covers(s, total, k))
  {
    if Interval(s, total).Some? { assert Covers(s, total, Interval(s, total).value.first); }
  }

  /** The positions of the verdicts that are hits. */
  function HitIndex(v: seq<Verdict>): (idx: seq<nat>)
    ensures |idx| == |Ranges(v)|
  {
    if v == [] then []
    else HitIndex(v[..|v| - 1]) + if v[|v| - 1].Hits? then [|v| - 1] else []
  }

  lemma {:induction false} HitAt(v: seq<Verdict>, i: nat)
    requires i < |HitIndex(v)|
    ensures HitIndex(v)[i] < |v| && v[HitIndex(v)[i]] == Hits(Ranges(v)[i])
    decreases |v|
  {
    var n := |v| - 1;
    var head := v[..n];
    if i < |HitIndex(head)| {
      HitAt(head, i);
      assert head[HitIndex(head)[i]] == v[HitIndex(head)[i]];
    }
  }

  lemma {:induction false} HitsInOrder(v: seq<Verdict>, i: nat, j: nat)
    requires i < j < |HitIndex(v)|
    ensures HitIndex(v)[i] < HitIndex(v)[j]
    decreases |v|
  {
    var head := v[..|v| - 1];
    if j < |HitIndex(head)| { HitsInOrder(head, i, j); } else { HitAt(head, i); }
  }

  lemma {:induction false} HitFound(v: seq<Verdict>, j: nat)
    requires j < |v| && v[j].Hits?
    ensures j in HitIndex(v)
    decreases |v|
  {
    var head := v[..|v| - 1];
    if j < |head| {
      HitFound(head, j);
    } else {
      assert HitIndex(v)[|HitIndex(head)|] == j;
    }
  }

  /** The texts left and right of the first dash, without the blanks around them. */
  function First(spec: string): string { Trim(spec[..Find(spec, '-', 0)]) }

  function Last(spec: string): string
    requires '-' in spec
  {
    Trim(spec[Find(spec, '-', 0) + 1..])
  }

  /** `-n`, `a-` or `a-b` with b not below a. */
  predicate Written(spec: string) {
    && '-' in spec && (First(spec) != "" || Last(spec) != "")
    && (First(spec) != "" ==> Number(First(spec)).Some?)
    && (Last(spec) != "" ==> Number(Last(spec)).Some?)
    && (First(spec) != "" && Last(spec) != "" ==> Number(First(spec)).value <= Number(Last(spec)).value)
  }

  /** Does the text of the spec ask for position k of an object of this size?  `-n` asks for the
      last n positions, `a-` for those from a on, `a-b` for those from a to b. */
  predicate AsksFor(spec: string, total: int, k: int)
    requires Written(spec)
  {
    && 0 <= k < total
    && (First(spec) == "" ==> total - k <= Number(Last(spec)).value)
    && (First(spec) != "" ==> Number(First(spec)).value <= k)
    && (First(spec) != "" && Last(spec) != "" ==> k <= Number(Last(spec)).value)
  }

  /** The spec is well-formed and r is exactly the set of the positions it asks for. */
  ghost predicate Selects(spec: string, total: int, r: ByteRange) {
    && Written(spec) && 0 <= r.first <= r.last < total
    && forall k :: r.first <= k <= r.last <==> AsksFor(spec, total, k)
  }

  /** The spec is well-formed and asks for no position. */
  ghost predicate MeetsNothing(spec: string, total: int) {
    Written(spec) && forall k :: !AsksFor(spec, total, k)
  }

  lemma WrittenParses(spec: string)
    ensures ParseSpec(spec).Some? <==> Written(spec)
  {
    var dash := Find(spec, '-', 0);
    if dash == |spec| {
      assert '-' !in spec;
    } else {
      assert spec[dash] in spec;
    }
  }

  lemma AsksCovers(spec: string, total: int, k: int)
    requires Written(spec) && 0 <= total
    ensures ParseSpec(spec).Some? && (AsksFor(spec, total, k) <==> Covers(ParseSpec(spec).value, total, k))
  {
    WrittenParses(spec);
  }

  lemma JudgeMeaning(spec: string, total: int)
    requires 0 <= total
    ensures match Judge(spec, total)
      case Bad => !Written(spec)
      case Misses => MeetsNothing(spec, total)
      case Hits(r) => Selects(spec, total, r) && !MeetsNothing(spec, total)
  {
    WrittenParses(spec);
    if Written(spec) {
      forall k ensures AsksFor(spec, total, k) <==> Covers(ParseSpec(spec).value, total, k) {
        AsksCovers(spec, total, k);
      }
      IntervalMeaning(ParseSpec(spec).value, total);
      if Judge(spec, total).Hits? { assert AsksFor(spec, total, Judge(spec, total).range.first); }
    }
  }

  /** A partial result: at most 32 ranges in the order of their specs, each within bounds and
      equal to its spec's interval; every spec left out is well-formed and meets no position. */
  lemma PartialMeaning(value: string, total: int) returns (idx: seq<nat>)
    requires 0 <= total && Reference(value, total).Partial?
    ensures Elements(value).Some?
    ensures var specs, r := Elements(value).value, Reference(value, total).ranges;
      && 1 <= |r| == |idx| <= MAX_RANGES
      && (forall i, j | 0 <= i < j < |idx| :: idx[i] < idx[j])
      && (forall i | 0 <= i < |idx| :: idx[i] < |specs| && Selects(specs[idx[i]], total, r[i]))
      && (forall j | 0 <= j < |specs| && j !in idx :: MeetsNothing(specs[j], total))
  {
    var specs := Elements(value).value;
    var v := JudgeAll(specs, total);
    var r := Ranges(v);
    idx := HitIndex(v);
    forall i, j | 0 <= i < j < |idx| ensures idx[i] < idx[j] { HitsInOrder(v, i, j); }
    forall i | 0 <= i < |idx| ensures idx[i] < |specs| && Selects(specs[idx[i]], total, r[i]) {
      HitAt(v, i);
      assert v[idx[i]] == Judge(specs[idx[i]], total);
      JudgeMeaning(specs[idx[i]], total);
    }
    forall j | 0 <= j < |specs| && j !in idx ensures MeetsNothing(specs[j], total) {
      assert v[j] == Judge(specs[j], total) && v[j] in v;
      if v[j].Hits? { HitFound(v, j); }
      JudgeMeaning(specs[j], total);
    }
  }

  lemma NoRanges(v: seq<Verdict>)
    ensures Ranges(v) == [] <==> forall j | 0 <= j < |v| :: !v[j].Hits?
  {
    if v != [] {
      NoRanges(v[..|v| - 1]);
      assert forall j | 0 <= j < |v| - 1 :: v[..|v| - 1][j] == v[j];
    }
  }

  /** 416 exactly if there is at least one spec, not more than 32, all are well-formed and none
      meets a position of the object. */
  lemma UnsatisfiableIff(value: string, total: int)
    requires 0 <= total
    ensures Reference(value, total) == Unsatisfiable <==>
      && Elements(value).Some?
      && 1 <= |Elements(value).value| <= MAX_RANGES
      && forall j | 0 <= j < |Elements(value).value| :: MeetsNothing(Elements(value).value[j], total)
  {
    if Elements(value).Some? {
      var specs := Elements(value).value;
      var v := JudgeAll(specs, total);
      NoRanges(v);
      forall j | 0 <= j < |specs| ensures v[j].Misses? <==> MeetsNothing(specs[j], total) {
        assert v[j] == Judge(specs[j], total);
        JudgeMeaning(specs[j], total);
      }
    }
  }

  /** Malformed exactly if the header is not blank and lacks the unit, has no element or more than
      32, or has one that is not well-formed. */
  lemma MalformedIff(value: string, total: int)
    requires 0 <= total
    ensures Reference(value, total) == Malformed <==>
      && Trim(value) != ""
      && (Elements(value).Some? ==>
            || Elements(value).value == [] || |Elements(value).value| > MAX_RANGES
            || exists j | 0 <= j < |Elements(value).value| :: !Written(Elements(value).value[j]))
  {
    if Elements(value).Some? {
      var specs := Elements(value).value;
      var v := JudgeAll(specs, total);
      forall j | 0 <= j < |specs| ensures v[j].Bad? <==> !Written(specs[j]) {
        assert v[j] == Judge(specs[j], total);
        JudgeMeaning(specs[j], total);
      }
      if j :| 0 <= j < |specs| && !Written(specs[j]) { assert v[j] in v; }
    }
  }

  predicate InBounds(ranges: seq<ByteRange>, total: int) {
    forall r | r in ranges :: 0 <= r.first <= r.last < total
  }

  lemma PartialBounds(value: string, total: int)
    requires 0 <= total && Reference(value, total).Partial?
    ensures 1 <= |Reference(value, total).ranges| <= MAX_RANGES
    ensures InBounds(Reference(value, total).ranges, total)
  {
    var idx := PartialMeaning(value, total);
    var ranges := Reference(value, total).ranges;
    forall i | 0 <= i < |ranges| ensures 0 <= ranges[i].first <= ranges[i].last < total {
      assert Selects(Elements(value).value[idx[i]], total, ranges[i]);
    }
  }

  lemma PartialNeedsBytes(value: string, total: int)
    requires 0 <= total && Reference(value, total).Partial?
    ensures total > 0
  {
    PartialBounds(value, total);
    assert Reference(value, total).ranges[0] in Reference(value, total).ranges;
  }

  /** No part of an empty object can be asked for. */
  lemma EmptyNeverPartial(value: string)
    ensures !Reference(value, 0).Partial?
  {
    if Reference(value, 0).Partial? { PartialNeedsBytes(value, 0); }
  }

  // ---------------------------------------------------------------------------
  //  Round trip
  // ---------------------------------------------------------------------------

  function PrintRange(r: ByteRange): string
    requires 0 <= r.first && 0 <= r.last
  {
    Digits(r.first) + "-" + Digits(r.last)
  }

  function PrintRanges(ranges: seq<ByteRange>): (s: seq<string>)
    requires forall r | r in ranges :: 0 <= r.first && 0 <= r.last
    ensures |s| == |ranges|
  {
    seq(|ranges|, i requires 0 <= i < |ranges| => PrintRange(ranges[i]))
  }

  function Print(ranges: seq<ByteRange>): string
    requires forall r | r in ranges :: 0 <= r.first && 0 <= r.last
  {
    "bytes=" + Join(PrintRanges(ranges), ',')
  }

  lemma PrintedNumber(n: nat)
    requires n <= INT64_MAX
    ensures Trim(Digits(n)) == Digits(n) && Number(Digits(n)) == Some(n)
  {
    TrimSolid(Digits(n));
    ValueDigits(n);
  }

  lemma PrintedParsed(a: nat, b: nat)
    requires a <= b <= INT64_MAX
    ensures ParseSpec(PrintRange(ByteRange(a, b))) == Some(FromTo(a, b))
  {
    var s := Digits(a) + ['-'] + Digits(b);
    assert PrintRange(ByteRange(a, b)) == s;
    FindFirst(Digits(a), '-', Digits(b));
    assert s[..|Digits(a)|] == Digits(a) && s[|Digits(a)| + 1..] == Digits(b);
    PrintedNumber(a);
    PrintedNumber(b);
  }

  lemma PrintedJudged(r: ByteRange, total: int)
    requires 0 <= r.first <= r.last < total <= INT64_MAX
    ensures Judge(PrintRange(r), total) == Hits(r)
  {
    PrintedParsed(r.first, r.last);
  }

  predicate Solid(s: string) { forall c | c in s :: !Blank(c) }

  lemma {:induction false} CleanSolid(pieces: seq<string>)
    requires forall p | p in pieces :: p != "" && Solid(p)
    ensures Clean(pieces) == pieces
    decreases |pieces|
  {
    if pieces != [] {
      assert pieces[0] in pieces && forall p | p in pieces[1..] :: p in pieces;
      TrimSolid(pieces[0]);
      CleanSolid(pieces[1..]);
    }
  }

  lemma {:induction false} JoinSolid(pieces: seq<string>)
    requires forall p | p in pieces :: Solid(p)
    ensures Solid(Join(pieces, ','))
    decreases |pieces|
  {
    if pieces != [] {
      assert pieces[0] in pieces && forall p | p in pieces[1..] :: p in pieces;
      if |pieces| > 1 { JoinSolid(pieces[1..]); }
    }
  }

  lemma {:induction false} RangesOfHits(ranges: seq<ByteRange>, v: seq<Verdict>)
    requires |v| == |ranges| && forall i | 0 <= i < |v| :: v[i] == Hits(ranges[i])
    ensures Ranges(v) == ranges
    decreases |v|
  {
    if v != [] { RangesOfHits(ranges[..|v| - 1], v[..|v| - 1]); }
  }

  lemma PrintedPieces(ranges: seq<ByteRange>, total: int)
    requires InBounds(ranges, total)
    ensures forall p | p in PrintRanges(ranges) :: p != "" && Solid(p) && ',' !in p
  {
    var pieces := PrintRanges(ranges);
    forall p | p in pieces ensures p != "" && Solid(p) && ',' !in p {
      var i :| 0 <= i < |pieces| && pieces[i] == p;
      assert p == PrintRange(ranges[i]);
    }
  }

  lemma PrintedElements(pieces: seq<string>)
    requires pieces != [] && forall p | p in pieces :: p != "" && Solid(p) && ',' !in p
    ensures var s := "bytes=" + Join(pieces, ',');
      Trim(s) != "" && Elements(s) == Some(pieces)
  {
    var rest := Join(pieces, ',');
    JoinSolid(pieces);
    var s := "bytes=" + rest;
    assert s == "bytes" + ['='] + rest;
    TrimSolid(s);
    FindFirst("bytes", '=', rest);
    assert s[..5] == "bytes" && s[6..] == rest;
    TrimSolid("bytes");
    assert Lower("bytes") == "bytes";
    TrimSolid(rest);
    SplitJoin(pieces, ',');
    CleanSolid(pieces);
  }

  lemma PrintedVerdicts(ranges: seq<ByteRange>, total: int)
    requires ranges != [] && |ranges| <= MAX_RANGES && InBounds(ranges, total) && total <= INT64_MAX
    ensures Resolve(JudgeAll(PrintRanges(ranges), total)) == Partial(ranges)
  {
    var v := JudgeAll(PrintRanges(ranges), total);
    forall i | 0 <= i < |v| ensures v[i] == Hits(ranges[i]) {
      assert ranges[i] in ranges;
      PrintedJudged(ranges[i], total);
    }
    RangesOfHits(ranges, v);
  }

  /** Parsing a printed list of ranges gives the list back. */
  lemma RoundTrip(ranges: seq<ByteRange>, total: int)
    requires 1 <= |ranges| <= MAX_RANGES && InBounds(ranges, total) && total <= INT64_MAX
    ensures Reference(Print(ranges), total) == Partial(ranges)
  {
    var pieces := PrintRanges(ranges);
    PrintedPieces(ranges, total);
    PrintedElements(pieces);
    PrintedVerdicts(ranges, total);
  }

  // ---------------------------------------------------------------------------
  //  The three forms, written out
  // ---------------------------------------------------------------------------

  /** A header with a single element. */
  lemma OneElement(spec: string, total: int)
    requires spec != "" && Solid(spec) && ',' !in spec
    ensures Reference("bytes=" + spec, total) == Resolve([Judge(spec, total)])
  {
    PrintedElements([spec]);
    assert Join([spec], ',') == spec;
    assert JudgeAll([spec], total) == [Judge(spec, total)];
  }

  lemma OneVerdict(x: Verdict)
    ensures Resolve([x]) == match x
      case Bad => Malformed
      case Misses => Unsatisfiable
      case Hits(r) => Partial([r])
  {
    RangesSnoc([], x);
    assert [] + [x] == [x];
    assert x in [x];
  }

  lemma Dashed(left: string, right: string)
    requires AllDigits(left) && AllDigits(right)
    ensures var s := left + "-" + right;
      Solid(s) && ',' !in s && '-' in s && First(s) == left && Last(s) == right
  {
    var s := left + ['-'] + right;
    assert left + "-" + right == s && s[|left|] == '-';
    FindFirst(left, '-', right);
    assert s[..|left|] == left && s[|left| + 1..] == right;
    TrimSolid(left);
    TrimSolid(right);
  }

  lemma SuffixJudged(s: string, n: nat, total: int)
    requires n <= INT64_MAX && '-' in s && First(s) == "" && Last(s) == Digits(n)
    ensures Judge(s, total) ==
      if n == 0 || total == 0 then Misses
      else if total < 0 then Bad
      else Hits(ByteRange(Max(0, total - n), total - 1))
  {
    PrintedNumber(n);
    assert ParseSpec(s) == Some(Suffix(n));
  }

  /** `bytes=-n` is the last n bytes. */
  lemma SuffixHeader(n: nat, total: int)
    requires n <= INT64_MAX
    ensures Reference("bytes=-" + Digits(n), total) ==
      if n == 0 || total == 0 then Unsatisfiable
      else if total < 0 then Malformed
      else Partial([ByteRange(Max(0, total - n), total - 1)])
  {
    var s := "" + "-" + Digits(n);
    assert "bytes=-" + Digits(n) == "bytes=" + s;
    Dashed("", Digits(n));
    SuffixJudged(s, n, total);
    OneElement(s, total);
    OneVerdict(Judge(s, total));
  }

  lemma OpenJudged(s: string, a: nat, total: int)
    requires a <= INT64_MAX && '-' in s && First(s) == Digits(a) && Last(s) == ""
    ensures Judge(s, total) ==
      if total < 0 then Hits(ByteRange(a, INT64_MAX))
      else if a >= total then Misses
      else Hits(ByteRange(a, total - 1))
  {
    PrintedNumber(a);
    assert ParseSpec(s) == Some(From(a));
  }

  /** `bytes=a-` is everything from byte a on. */
  lemma OpenHeader(a: nat, total: int)
    requires a <= INT64_MAX
    ensures Reference("bytes=" + Digits(a) + "-", total) ==
      if total < 0 then Partial([ByteRange(a, INT64_MAX)])
      else if a >= total then Unsatisfiable
      else Partial([ByteRange(a, total - 1)])
  {
    var s := Digits(a) + "-" + "";
    assert "bytes=" + Digits(a) + "-" == "bytes=" + s;
    Dashed(Digits(a), "");
    OpenJudged(s, a, total);
    OneElement(s, total);
    OneVerdict(Judge(s, total));
  }

  lemma ClosedJudged(s: string, a: nat, b: nat, total: int)
    requires a <= INT64_MAX && b <= INT64_MAX
    requires '-' in s && First(s) == Digits(a) && Last(s) == Digits(b)
    ensures Judge(s, total) ==
      if b < a then Bad
      else if total < 0 then Hits(ByteRange(a, b))
      else if a >= total then Misses
      else Hits(ByteRange(a, Min(b, total - 1)))
  {
    PrintedNumber(a);
    PrintedNumber(b);
    assert ParseSpec(s) == if b < a then None else Some(FromTo(a, b));
  }

  /** `bytes=a-b` is bytes a to b as far as there are any; b below a is malformed. */
  lemma ClosedHeader(a: nat, b: nat, total: int)
    requires a <= INT64_MAX && b <= INT64_MAX
    ensures Reference("bytes=" + Digits(a) + "-" + Digits(b), total) ==
      if b < a then Malformed
      else if total < 0 then Partial([ByteRange(a, b)])
      else if a >= total then Unsatisfiable
      else Partial([ByteRange(a, Min(b, total - 1))])
  {
    var s := Digits(a) + "-" + Digits(b);
    assert "bytes=" + Digits(a) + "-" + Digits(b) == "bytes=" + s;
    Dashed(Digits(a), Digits(b));
    ClosedJudged(s, a, b, total);
    OneElement(s, total);
    OneVerdict(Judge(s, total));
  }

  /** Another unit is malformed whatever follows. */
  lemma OtherUnit(unit: string, rest: string, total: int)
    requires '=' !in unit && Lower(Trim(unit)) != "bytes"
    requires var s := unit + "=" + rest; Trim(s) == s
    ensures Reference(unit + "=" + rest, total) == Malformed
  {
    var s := unit + ['='] + rest;
    assert unit + "=" + rest == s;
    FindFirst(unit, '=', rest);
    assert s[..|unit|] == unit;
  }
}
