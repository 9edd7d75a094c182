/**
  ThrottledSource: a token bucket in whole bytes and milliseconds.  Refilling truncates, and the
  clock may stand still or go back.
*/
module TokenBucket {
  import opened Base

  const DEFAULT_BURST: int := 64 * 1024

  /** The bucket's numbers; `start` is the clock reading at construction. */
  datatype Bucket = Bucket(rate: int, burst: int, start: int, tokens: int, last: int, read: int)

  function Create(rate: int, burst: int, now: int): Bucket {
    var b := if burst <= 0 then DEFAULT_BURST else burst;
    Bucket(rate, b, now, b, now, 0)
  }

  function Refilled(b: Bucket, now: int): Bucket {
    if b.rate <= 0 || now <= b.last then b
    else
      var add := b.rate * (now - b.last) / 1000;
      if add > 0 then b.(tokens := Min(b.burst, b.tokens + add), last := now) else b
  }

  /** A read that asks for `capacity` bytes when the source has `n` ready. */
  function Served(b: Bucket, now: int, capacity: nat, n: nat): Bucket {
    if b.rate <= 0 then b.(read := b.read + Min(n, capacity))
    else
      var r := Refilled(b, now);
      if r.tokens <= 0 then r
      else
        var got := Min(n, Min(r.tokens, capacity));
        r.(tokens := r.tokens - got, read := r.read + got)
  }

  datatype Event = Read(now: int, capacity: nat, ready: nat) | Ask(now: int)

  function After(b: Bucket, e: Event): Bucket {
    match e
    case Read(now, capacity, ready) => Served(b, now, capacity, ready)
    case Ask(now) => Refilled(b, now)
  }

  function Run(b: Bucket, es: seq<Event>): Bucket {
    if es == [] then b else After(Run(b, es[..|es| - 1]), es[|es| - 1])
  }

  /** Tokens stay within the burst, and bytes plus tokens within what the elapsed time allows. */
  predicate Within(b: Bucket) {
    && 0 <= b.tokens <= b.burst && b.start <= b.last
    && (b.read + b.tokens - b.burst) * 1000 <= b.rate * (b.last - b.start)
  }

  lemma RefillWithin(b: Bucket, now: int)
    requires Within(b) && b.rate > 0
    ensures Within(Refilled(b, now)) && Refilled(b, now).read == b.read
    ensures Refilled(b, now).last <= Max(b.last, now)
  {
    if now > b.last {
      var e := now - b.last;
      var add := b.rate * e / 1000;
      assert add * 1000 <= b.rate * e;
      assert b.rate * (now - b.start) == b.rate * e + b.rate * (b.last - b.start);
      if add > 0 { assert (b.read + (b.tokens + add) - b.burst) * 1000 <= b.rate * (now - b.start); }
      else { assert Refilled(b, now) == b; }
    }
  }

  lemma ServeWithin(b: Bucket, now: int, capacity: nat, n: nat)
    requires Within(b) && b.rate > 0
    ensures Within(Served(b, now, capacity, n)) && Served(b, now, capacity, n).last <= Max(b.last, now)
  {
    RefillWithin(b, now);
  }

  /** The latest clock reading of a run. */
  function Latest(start: int, es: seq<Event>): int {
    if es == [] then start else Max(Latest(start, es[..|es| - 1]), es[|es| - 1].now)
  }

  lemma {:induction false} RunWithin(rate: int, burst: int, now: int, es: seq<Event>)
    requires rate > 0
    ensures var b := Run(Create(rate, burst, now), es);
      && Within(b) && b.last <= Latest(now, es)
      && b.rate == rate && b.burst == Create(rate, burst, now).burst && b.start == now
    decreases |es|
  {
    if es != [] {
      var n := |es| - 1;
      RunWithin(rate, burst, now, es[..n]);
      var b := Run(Create(rate, burst, now), es[..n]);
      RefillWithin(b, es[n].now);
      if es[n].Read? { ServeWithin(b, es[n].now, es[n].capacity, es[n].ready); }
    }
  }

  lemma ScaleMono(rate: int, a: int, b: int)
    requires rate > 0 && a <= b
    ensures rate * a <= rate * b
  {}

  lemma FloorBound(x: int, y: int)
    requires x * 1000 <= y
    ensures x <= y / 1000
  {}

  /** Over any sequence of reads and clock readings the bytes delivered never exceed the burst
      plus rate times elapsed time, although every refill truncates. */
  lemma ThroughputBound(rate: int, burst: int, now: int, es: seq<Event>)
    requires rate > 0
    ensures var b := Run(Create(rate, burst, now), es);
      0 <= b.tokens <= b.burst && b.read <= b.burst + rate * (Latest(now, es) - now) / 1000
  {
    RunWithin(rate, burst, now, es);
    var b := Run(Create(rate, burst, now), es);
    ScaleMono(rate, b.last - now, Latest(now, es) - now);
    FloorBound(b.read - b.burst, rate * (Latest(now, es) - now));
  }

  /** Milliseconds until `want` tokens are there. */
  function WaitMillis(b: Bucket, now: int, want: int): int {
    if b.rate <= 0 then 0
    else
      var r := Refilled(b, now);
      if want <= r.tokens then 0 else ((want - r.tokens) * 1000 + r.rate - 1) / r.rate
  }

  lemma CeilEnough(deficit: int, rate: int, w: int)
    requires rate > 0 && deficit > 0 && w == (deficit * 1000 + rate - 1) / rate
    ensures w > 0 && rate * w >= deficit * 1000 && rate * w / 1000 >= deficit
  {
    var x := deficit * 1000 + rate - 1;
    assert x == rate * w + x % rate;
    assert rate * w > x - rate;
  }

  /** Whoever waits that long finds the tokens, if the burst allows that many at all. */
  lemma WaitSuffices(b: Bucket, now: int, want: int, later: int)
    requires Within(b) && b.rate > 0 && want <= b.burst
    requires later >= Max(now, b.last) + WaitMillis(b, now, want)
    ensures Refilled(Refilled(b, now), later).tokens >= want
  {
    RefillWithin(b, now);
    var r := Refilled(b, now);
    if want > r.tokens {
      var w := WaitMillis(b, now, want);
      CeilEnough(want - r.tokens, b.rate, w);
      var e := later - r.last;
      ScaleMono(b.rate, w, e);
    }
  }

  /** Whoever has to wait and waits a millisecond less does not. */
  lemma WaitMinimal(b: Bucket, now: int, want: int, later: int)
    requires Within(b) && b.rate > 0 && Refilled(b, now).tokens < want <= b.burst
    requires later < Refilled(b, now).last + WaitMillis(b, now, want)
    ensures Refilled(Refilled(b, now), later).tokens < want
  {
    RefillWithin(b, now);
    var r := Refilled(b, now);
    if later > r.last {
      CeilTight(want - r.tokens, b.rate, WaitMillis(b, now, want), later - r.last);
    }
  }

  lemma CeilTight(deficit: int, rate: int, w: int, e: int)
    requires rate > 0 && deficit > 0 && w == (deficit * 1000 + rate - 1) / rate && 0 < e < w
    ensures rate * e / 1000 < deficit
  {
    var x := deficit * 1000 + rate - 1;
    assert rate * w <= x;
    ScaleMono(rate, e, w - 1);
    assert rate * (w - 1) == rate * w - rate;
    assert rate * e < deficit * 1000;
  }

  /** A read never takes less than it may: all that is ready and fits, or all the tokens. */
  lemma ServesAll(b: Bucket, now: int, capacity: nat, n: nat)
    requires b.rate > 0 ==> Within(b)
    ensures var s, r := Served(b, now, capacity, n), Refilled(b, now);
      && (b.rate <= 0 ==> s.read == b.read + Min(n, capacity))
      && (b.rate > 0 ==>
            && s.read - b.read == r.tokens - s.tokens
            && (s.read == b.read + Min(n, capacity) || s.tokens == 0)
            && s.read <= b.read + Min(n, capacity))
  {
    if b.rate > 0 { RefillWithin(b, now); }
  }

  /** The source as the program keeps it. */
  class ThrottledSource {
    const rate: int
    const burst: int
    ghost const start: int
    var tokens: int
    var last: int
    var read: int

    ghost function State(): Bucket
      reads this
    {
      Bucket(rate, burst, start, tokens, last, read)
    }

    constructor (rate: int, burst: int, now: int)
      ensures State() == Create(rate, burst, now)
    {
      var b := if burst <= 0 then DEFAULT_BURST else burst;
      this.rate, this.burst, start := rate, b, now;
      tokens, last, read := b, now, 0;
    }

    method Refill(now: int)
      modifies this`tokens, this`last
      ensures State() == Refilled(old(State()), now)
    {
      if rate <= 0 { return; }
      var elapsed := now - last;
      if elapsed <= 0 { return; }
      var add := rate * elapsed / 1000;
      if add > 0 {
        tokens := Min(burst, tokens + add);
        last := now;
      }
    }

    /** None: not enough tokens, come back later. */
    method Read(now: int, capacity: nat, ready: nat) returns (got: Option<nat>)
      requires rate > 0 ==> Within(State())
      modifies this
      ensures State() == Served(old(State()), now, capacity, ready)
      ensures got.Some? ==> read == old(read) + got.value
      ensures got.None? ==> read == old(read) && rate > 0 && tokens <= 0
    {
      if rate <= 0 {
        read := read + Min(ready, capacity);
        return Some(Min(ready, capacity));
      }
      RefillWithin(State(), now);
      Refill(now);
      if tokens <= 0 { return None; }
      var n := Min(ready, Min(tokens, capacity));
      tokens, read := tokens - n, read + n;
      return Some(n);
    }
  }
}
