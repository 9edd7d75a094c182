/**
  The normalised text in which Redactor::ScrubText looks for rule names: lower case, without `_`
  and `-`, with the way back to the original text.
*/
module Scrub {
  import opened Base
  import opened Text

  /** Half-open interval of positions. */
  datatype Span = Span(begin: nat, end: nat)

  // ---------------------------------------------------------------------------
  //  Normalisation
  // ---------------------------------------------------------------------------

  predicate Dropped(c: char) { c == '_' || c == '-' }

  /** Positions a..b of the text in lower case, without `_` and `-`. */
  function Norm(text: string, a: nat, b: nat): string
    requires a <= b <= |text|
    decreases b
  {
    if a == b then ""
    else Norm(text, a, b - 1) + if Dropped(text[b - 1]) then "" else [LowerChar(text[b - 1])]
  }

  /** Where each normalised character of the first b positions came from. */
  function Index(text: string, b: nat): (r: seq<nat>)
    requires b <= |text|
    ensures |r| == |Norm(text, 0, b)|
  {
    if b == 0 then [] else Index(text, b - 1) + if Dropped(text[b - 1]) then [] else [b - 1]
  }

  function Normal(text: string): string { Norm(text, 0, |text|) }

  function Origins(text: string): (r: seq<nat>)
    ensures |r| == |Normal(text)|
  {
    Index(text, |text|)
  }

  method Normalize(text: string) returns (norm: string, index: seq<nat>)
    ensures norm == Normal(text) && index == Origins(text)
  {
    norm, index := "", [];
    var i := 0;
    while i < |text|
      invariant 0 <= i <= |text| && norm == Norm(text, 0, i) && index == Index(text, i)
    {
      var c := text[i];
      if !Dropped(c) {
        norm := norm + [LowerChar(c)];
        index := index + [i];
      }
      i := i + 1;
    }
  }

  lemma {:induction false} IndexPoints(text: string, b: nat, k: nat)
    requires b <= |text| && k < |Norm(text, 0, b)|
    ensures var i := Index(text, b)[k];
      && i < b && !Dropped(text[i]) && Norm(text, 0, b)[k] == LowerChar(text[i])
      && Norm(text, 0, i) == Norm(text, 0, b)[..k]
    decreases b
  {
    if k < |Norm(text, 0, b - 1)| {
      IndexPoints(text, b - 1, k);
      assert Norm(text, 0, b - 1)[..k] == Norm(text, 0, b)[..k];
    } else {
      assert Norm(text, 0, b)[..k] == Norm(text, 0, b - 1);
    }
  }

  lemma {:induction false} IndexRises(text: string, b: nat, k: nat, m: nat)
    requires b <= |text| && k < m < |Norm(text, 0, b)|
    ensures Index(text, b)[k] < Index(text, b)[m]
    decreases b
  {
    if m < |Norm(text, 0, b - 1)| { IndexRises(text, b - 1, k, m); } else { IndexPoints(text, b - 1, k); }
  }

  lemma {:induction false} NormSplits(text: string, a: nat, b: nat, c: nat)
    requires a <= b <= c <= |text|
    ensures Norm(text, a, c) == Norm(text, a, b) + Norm(text, b, c)
    decreases c
  {
    if b < c { NormSplits(text, a, b, c - 1); }
  }

  lemma Remainder(whole: string, a: string, b: string, i: nat, j: nat)
    requires i <= j <= |whole| && whole[..i] == a && whole[..j] == a + b
    ensures b == whole[i..j]
  {
    assert whole[i..j] == whole[..j][i..];
  }

  /** Up to and including the origin of character k the text normalises to k + 1 characters. */
  lemma NormThrough(text: string, b: nat, k: nat)
    requires b <= |text| && k < |Norm(text, 0, b)|
    ensures Index(text, b)[k] < b && Norm(text, 0, Index(text, b)[k] + 1) == Norm(text, 0, b)[..k + 1]
  {
    IndexPoints(text, b, k);
    var whole := Norm(text, 0, b);
    assert whole[..k] + [whole[k]] == whole[..k + 1];
  }

  lemma Between(text: string, whole: string, first: nat, last: nat, h: nat, e: nat)
    requires first <= last < |text| && h <= e < |whole|
    requires Norm(text, 0, first) == whole[..h] && Norm(text, 0, last + 1) == whole[..e + 1]
    ensures Norm(text, first, last + 1) == whole[h..e + 1]
  {
    NormSplits(text, 0, first, last + 1);
    Remainder(whole, Norm(text, 0, first), Norm(text, first, last + 1), h, e + 1);
  }

  lemma OriginsInOrder(text: string, h: nat, e: nat)
    requires h <= e < |Normal(text)|
    ensures Origins(text)[h] <= Origins(text)[e] < |text|
    ensures Norm(text, 0, Origins(text)[h]) == Normal(text)[..h]
    ensures Norm(text, 0, Origins(text)[e] + 1) == Normal(text)[..e + 1]
  {
    IndexPoints(text, |text|, h);
    NormThrough(text, |text|, e);
    if h < e { IndexRises(text, |text|, h, e); }
  }

  /** The original text behind a hit equals the key up to case and dropped characters. */
  lemma HitMapsBack(text: string, key: string, hit: nat)
    requires key != "" && hit + |key| <= |Normal(text)| && Normal(text)[hit..hit + |key|] == key
    ensures var first, last := Origins(text)[hit], Origins(text)[hit + |key| - 1];
      first <= last < |text| && Norm(text, first, last + 1) == key
  {
    var end := hit + |key| - 1;
    OriginsInOrder(text, hit, end);
    Between(text, Normal(text), Origins(text)[hit], Origins(text)[end], hit, end);
  }
}
