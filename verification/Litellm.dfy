/** What LiteLLM's entries come to before they are merged: the copies of one model made one rate, and
    the tier of a long prompt read out of an entry's fields. */
module Litellm {
  import opened Order
  import opened Prices
  import opened Wrappers

  // ---- The copies of one model ----

  /** An entry, under the key LiteLLM lists it by. */
  datatype Copy = Copy(key: string, rate: Rate)

  /** The copy whose key sorts first. */
  ghost predicate IsFirst(copies: seq<Copy>, i: nat) {
    i < |copies| && forall j :: 0 <= j < |copies| ==> TextLeq(copies[i].key, copies[j].key)
  }

  predicate AllAgree(copies: seq<Copy>, rate: Rate) {
    forall i :: 0 <= i < |copies| ==> copies[i].rate.Agrees(rate)
  }

  ghost predicate IsOneRate(copies: seq<Copy>, rate: Option<Rate>) {
    forall i: nat :: IsFirst(copies, i) ==> rate == if AllAgree(copies,
              copies[i].rate) then Some(copies[i].rate) else None
  }

  /** The end of `parse_litellm`: the first copy's rate, if every copy agrees with it. */
  method OneRate(copies: seq<Copy>) returns (rate: Option<Rate>)
    requires copies != []
    requires forall i, j :: 0 <= i < j < |copies| ==> copies[i].key != copies[j].key
    ensures IsOneRate(copies, rate) && exists i: nat :: IsFirst(copies, i)
  {
    var first, i := 0, 1;
    TextTotal(copies[0].key, copies[0].key);
    while i < |copies|
      invariant first < i <= |copies|
      invariant forall j :: 0 <= j < i ==> TextLeq(copies[first].key, copies[j].key)
    {
      TextTotal(copies[first].key, copies[i].key);
      TextTotal(copies[i].key, copies[i].key);
      if !TextLeq(copies[first].key, copies[i].key) {
        forall j | 0 <= j < i ensures TextLeq(copies[i].key, copies[j].key) {
          TextTransitive(copies[i].key, copies[first].key, copies[j].key);
        }
        first := i;
      }
      i := i + 1;
    }
    assert IsFirst(copies, first);
    forall k: nat | IsFirst(copies, k) ensures k == first {
      TextTotal(copies[first].key, copies[k].key);
    }
    rate := if AllAgree(copies, copies[first].rate) then Some(copies[first].rate) else None;
  }

  /** In what order the copies come does not matter. */
  lemma OrderOfCopies(a: seq<Copy>, b: seq<Copy>, ra: Option<Rate>, rb: Option<Rate>, i: nat, j: nat)
    requires forall i, j :: 0 <= i < j < |b| ==> b[i].key != b[j].key
    requires (forall c :: c in a <==> c in b) && IsFirst(a, i) && IsFirst(b, j)
    requires IsOneRate(a, ra) && IsOneRate(b, rb)
    ensures ra == rb
  {
    assert a[i] in b && b[j] in a;
    var k :| 0 <= k < |b| && b[k] == a[i];
    var l :| 0 <= l < |a| && a[l] == b[j];
    TextTotal(a[i].key, b[j].key);
    assert a[i] == b[j];
    var rate := a[i].rate;
    hide IsFirst, IsOneRate;
    if AllAgree(a, rate) {
      forall n | 0 <= n < |b| ensures b[n].rate.Agrees(rate) {
        assert b[n] in a;
      }
    }
    if AllAgree(b, rate) {
      forall n | 0 <= n < |a| ensures a[n].rate.Agrees(rate) {
        assert a[n] in b;
      }
    }
  }

  // ---- When disagreeing copies are dropped ----

  datatype Side = Input | CacheRead | CacheWrite | Output

  function FigureOf(rate: Rate, side: Side): Option<real> {
    match side
    case Input => Some(rate.input)
    case CacheRead => rate.cacheRead
    case CacheWrite => rate.cacheWrite
    case Output => Some(rate.output)
  }

  lemma AgreesSideBySide(a: Rate, b: Rate)
    ensures a.Agrees(b) <==> forall side :: BothWithin(FigureOf(a, side), FigureOf(b, side))
  {
    if forall side :: BothWithin(FigureOf(a, side), FigureOf(b, side)) {
      assert BothWithin(FigureOf(a, Input), FigureOf(b, Input)) && BothWithin(FigureOf(a, Output), FigureOf(b, Output));
      assert BothWithin(FigureOf(a, CacheRead), FigureOf(b, CacheRead))
          && BothWithin(FigureOf(a, CacheWrite), FigureOf(b, CacheWrite));
    }
  }

  /** The figures the copies publish for one side. */
  function FiguresOf(copies: seq<Copy>, side: Side): seq<real> {
    if copies == [] then []
    else
      var first := FigureOf(copies[0].rate, side);
      (if first.Some? then [first.value] else []) + FiguresOf(copies[1..], side)
  }

  lemma {:induction false} FiguresAre(copies: seq<Copy>, side: Side, x: real)
    ensures x in FiguresOf(copies, side) <==> exists i :: 0 <= i < |copies| && FigureOf(copies[i].rate, side) == Some(x)
  {
    if copies != [] {
      FiguresAre(copies[1..], side, x);
      if exists i :: 0 <= i < |copies[1..]| && FigureOf(copies[1..][i].rate, side) == Some(x) {
        var i :| 0 <= i < |copies[1..]| && FigureOf(copies[1..][i].rate, side) == Some(x);
        assert copies[i + 1] == copies[1..][i];
      }
      if exists i :: 0 <= i < |copies| && FigureOf(copies[i].rate, side) == Some(x) {
        var i :| 0 <= i < |copies| && FigureOf(copies[i].rate, side) == Some(x);
        assert i > 0 ==> copies[1..][i - 1] == copies[i];
      }
    }
  }

  function LeastFigure(xs: seq<real>): (r: real)
    requires xs != []
    ensures r in xs && forall x | x in xs :: r <= x
  {
    assert xs == [xs[0]] + xs[1..];
    if |xs| == 1 then xs[0] else var rest := LeastFigure(xs[1..]); if xs[0] < rest then xs[0] else rest
  }

  function GreatestFigure(xs: seq<real>): (r: real)
    requires xs != []
    ensures r in xs && forall x | x in xs :: x <= r
  {
    assert xs == [xs[0]] + xs[1..];
    if |xs| == 1 then xs[0] else var rest := GreatestFigure(xs[1..]); if xs[0] > rest then xs[0] else rest
  }

  /** The least and the greatest of some figures agree. */
  predicate Narrow(xs: seq<real>) {
    xs == [] || Within(LeastFigure(xs), GreatestFigure(xs))
  }

  /** Then any two of them do. */
  lemma NarrowIsWithin(xs: seq<real>)
    ensures Narrow(xs) <==> forall x, y | x in xs && y in xs :: Within(x, y)
  {
    if Narrow(xs) {
      forall x, y | x in xs && y in xs ensures Within(x, y) {
        WithinBetween(LeastFigure(xs), x, y, GreatestFigure(xs));
      }
    }
  }

  lemma WithinBetween(a: real, x: real, y: real, b: real)
    requires a <= x <= b && a <= y <= b && Within(a, b)
    ensures Within(x, y)
  {
  }

  predicate AllNarrow(copies: seq<Copy>) {
    forall side :: Narrow(FiguresOf(copies, side))
  }

  predicate PairsAgree(copies: seq<Copy>) {
    forall i, j :: 0 <= i < |copies| && 0 <= j < |copies| ==> copies[i].rate.Agrees(copies[j].rate)
  }

  lemma NarrowPairsAgree(copies: seq<Copy>)
    ensures PairsAgree(copies) <==> AllNarrow(copies)
  {
    hide Within, Narrow, Rate.Agrees, FiguresOf;
    if AllNarrow(copies) {
      forall i, j | 0 <= i < |copies| && 0 <= j < |copies| ensures copies[i].rate.Agrees(copies[j].rate) {
        forall side ensures BothWithin(FigureOf(copies[i].rate, side), FigureOf(copies[j].rate, side)) {
          NarrowAt(copies, side, i, j);
        }
        AgreesSideBySide(copies[i].rate, copies[j].rate);
      }
    }
    if PairsAgree(copies) {
      forall side ensures Narrow(FiguresOf(copies, side)) {
        forall x, y | x in FiguresOf(copies, side) && y in FiguresOf(copies, side) ensures Within(x, y) {
          FiguresAre(copies, side, x);
          FiguresAre(copies, side, y);
          var i :| 0 <= i < |copies| && FigureOf(copies[i].rate, side) == Some(x);
          var j :| 0 <= j < |copies| && FigureOf(copies[j].rate, side) == Some(y);
          AgreesSideBySide(copies[i].rate, copies[j].rate);
          assert BothWithin(FigureOf(copies[i].rate, side), FigureOf(copies[j].rate, side));
        }
        NarrowIsWithin(FiguresOf(copies, side));
      }
    }
  }

  lemma NarrowAt(copies: seq<Copy>, side: Side, i: nat, j: nat)
    requires i < |copies| && j < |copies| && Narrow(FiguresOf(copies, side))
    ensures BothWithin(FigureOf(copies[i].rate, side), FigureOf(copies[j].rate, side))
  {
    var x, y := FigureOf(copies[i].rate, side), FigureOf(copies[j].rate, side);
    NarrowIsWithin(FiguresOf(copies, side));
    if x.Some? && y.Some? {
      FiguresAre(copies, side, x.value);
      FiguresAre(copies, side, y.value);
    }
    hide Within, Narrow, FiguresOf;
  }

  /** What is said of the copies: if any two disagree, the model is dropped. */
  predicate DroppedIfDisagreeing(copies: seq<Copy>, rate: Option<Rate>) {
    PairsAgree(copies) || rate == None
  }

  /** It holds exactly when some copy disagrees with the first, or, of every side, the least and the
      greatest figure published agree. */
  lemma DroppedExactlyWhen(copies: seq<Copy>, rate: Option<Rate>, first: nat)
    requires IsOneRate(copies, rate) && IsFirst(copies, first)
    ensures DroppedIfDisagreeing(copies, rate) <==> !AllAgree(copies, copies[first].rate) || AllNarrow(copies)
  {
    hide Rate.Agrees, Narrow, FiguresOf;
    NarrowPairsAgree(copies);
  }

  /** So it always holds of two copies, or one. */
  lemma TwoCopiesDropped(copies: seq<Copy>, rate: Option<Rate>, first: nat)
    requires IsOneRate(copies, rate) && IsFirst(copies, first) && |copies| <= 2
    ensures DroppedIfDisagreeing(copies, rate)
  {
    if AllAgree(copies, copies[first].rate) {
      forall i, j | 0 <= i < |copies| && 0 <= j < |copies| ensures copies[i].rate.Agrees(copies[j].rate) {
        AgreesBack(copies[i].rate, copies[j].rate);
        AgreesBack(copies[first].rate, copies[j].rate);
        assert i == first || j == first || i == j;
      }
    }
  }

  lemma AgreesBack(a: Rate, b: Rate)
    ensures a.Agrees(b) <==> b.Agrees(a)
    ensures a.Agrees(a)
  {
  }

  const CLOSE: real := 0.0975

  predicate Close(a: real, b: real) {
    Abs(a - b) <= CLOSE * Max(a, b)
  }

  /** Two figures that each agree with a third are within 9.75% of the larger of them: twice the
      tolerance, less its square. */
  lemma AgreeWithOne(a: real, b: real, c: real)
    requires a > 0.0 && b > 0.0 && c > 0.0 && Within(b, a) && Within(c, a)
    ensures Close(b, c)
  {
  }

  /** A model kept has no two copies further apart than that, in input or output. */
  lemma KeptCopiesAreClose(copies: seq<Copy>, rate: Rate, i: nat, j: nat)
    requires AllAgree(copies, rate) && i < |copies| && j < |copies|
    requires rate.input > 0.0 && rate.output > 0.0
    requires forall k :: 0 <= k < |copies| ==> copies[k].rate.input > 0.0 && copies[k].rate.output > 0.0
    ensures Close(copies[i].rate.input, copies[j].rate.input) && Close(copies[i].rate.output, copies[j].rate.output)
  {
    AgreeWithOne(rate.input, copies[i].rate.input, copies[j].rate.input);
    AgreeWithOne(rate.output, copies[i].rate.output, copies[j].rate.output);
  }

  /** Copies that disagree beyond tolerance can still be kept, when the first one lies between them. */
  lemma DisagreeingCopiesKept()
    ensures exists copies: seq<Copy>, rate: Rate :: |copies| == 3 && IsOneRate(copies, Some(rate))
              && !AllAgree(copies, copies[1].rate)
  {
    var rate := (usd: real) => Rate(usd, None, None, usd, None);
    var copies := [Copy("a", rate(100.0)), Copy("b", rate(104.0)), Copy("c", rate(96.0))];
    assert AllAgree(copies, rate(100.0));
    assert !copies[2].rate.Agrees(copies[1].rate);
    assert "a"[0] == 'a' && "b"[0] == 'b' && "c"[0] == 'c';
    LaterKey("b");
    LaterKey("c");
    forall i: nat | IsFirst(copies, i) ensures i == 0 {
      assert TextLeq(copies[i].key, copies[0].key);
    }
    assert IsOneRate(copies, Some(rate(100.0)));
  }

  lemma LaterKey(key: string)
    requires key != "" && key[0] > 'a'
    ensures !TextLeq(key, "a")
  {
  }

  // ---- The tier of a long prompt ----

  /** The figures an entry publishes for prompts above so many thousand tokens. */
  type Above = map<(Side, nat), real>

  ghost predicate IsLeastThreshold(n: nat, ns: set<nat>) {
    n in ns && forall m | m in ns :: n <= m
  }

  predicate CarriesBoth(above: Above, n: nat) {
    (Input, n) in above && (Output, n) in above
  }

  function Published(above: Above, side: Side, n: nat): Option<real> {
    if (side, n) in above then Some(above[(side, n)]) else None
  }

  function TierAt(above: Above, n: nat): (tier: Option<TierRate>)
    requires CarriesBoth(above, n)
    ensures tier.Some? <==> above[(Input, n)] > 0.0 && above[(Output, n)] > 0.0
  {
    if above[(Input, n)] > 0.0 && above[(Output, n)] > 0.0 then
      Some(TierRate(n * 1000, above[(Input, n)], Published(above, CacheRead, n), Published(above, CacheWrite, n),
                    above[(Output, n)]))
    else None
  }

  lemma {:induction false} LeastIs(ns: set<nat>)
    requires ns != {}
    ensures exists n :: IsLeastThreshold(n, ns)
  {
    var n :| n in ns;
    var rest := ns - {n};
    assert ns == rest + {n};
    if rest == {} {
      assert IsLeastThreshold(n, ns);
    } else {
      LeastIs(rest);
      var m :| IsLeastThreshold(m, rest);
      assert IsLeastThreshold(if n < m then n else m, ns);
    }
  }

  /** What `litellm_tier` makes of an entry whose input fields name these thresholds. */
  ghost predicate IsTier(thresholds: set<nat>, above: Above, tier: Option<TierRate>) {
    && (thresholds == {} ==> tier == None)
    && forall n | IsLeastThreshold(n, thresholds) :: tier == if CarriesBoth(above, n) then TierAt(above, n) else None
  }

  /** The tier at `n` thousand tokens carries the four figures published for it, the prices positive. */
  ghost predicate TierFrom(above: Above, n: nat, tier: TierRate) {
    && tier.threshold == 1000 * n
    && (Input, n) in above && above[(Input, n)] == tier.input > 0.0
    && (Output, n) in above && above[(Output, n)] == tier.output > 0.0
    && (forall usd :: tier.cacheRead == Some(usd) <==> (CacheRead, n) in above && above[(CacheRead, n)] == usd)
    && (forall usd :: tier.cacheWrite == Some(usd) <==> (CacheWrite, n) in above && above[(CacheWrite, n)] == usd)
  }

  /** The tier read is that of the least threshold named, and there is none exactly when that one lacks a
      positive price of either kind. */
  lemma TierReads(thresholds: set<nat>, above: Above, tier: Option<TierRate>, n: nat)
    requires IsTier(thresholds, above, tier) && IsLeastThreshold(n, thresholds)
    ensures tier.Some? <==> (Input, n) in above && (Output, n) in above && above[(Input, n)] > 0.0
                            && above[(Output, n)] > 0.0
    ensures tier.Some? ==> TierFrom(above, n, tier.value)
  {
  }

  /** `litellm_tier`. A field may name a threshold and hold no number, so one may carry neither price. */
  method LitellmTier(thresholds: set<nat>, above: Above) returns (tier: Option<TierRate>)
    ensures IsTier(thresholds, above, tier)
    ensures tier.Some? ==> exists n: nat :: IsLeastThreshold(n, thresholds) && TierFrom(above, n, tier.value)
  {
    if thresholds == {} {
      return None;
    }
    var least: nat :| least in thresholds;
    var rest := thresholds - {least};
    while rest != {}
      invariant rest <= thresholds && IsLeastThreshold(least, thresholds - rest)
    {
      var n: nat :| n in rest;
      if n < least {
        least := n;
      }
      assert thresholds - (rest - {n}) == (thresholds - rest) + {n};
      rest := rest - {n};
    }
    assert thresholds - rest == thresholds;
    tier := if CarriesBoth(above, least) then TierAt(above, least) else None;
    TierReads(thresholds, above, tier, least);
  }

  /** What it is said to be: the tier of the least threshold that carries both prices. */
  ghost predicate IsDocumentedTier(thresholds: set<nat>, above: Above, tier: Option<TierRate>) {
    var both := set n | n in thresholds && CarriesBoth(above, n);
    && (both == {} ==> tier == None)
    && forall n | IsLeastThreshold(n, both) :: tier == TierAt(above, n)
  }

  /** The two are the same exactly when the least threshold carries both prices, or the least that does
      has one that is not positive, or none does. */
  lemma TierAsDocumented(thresholds: set<nat>, above: Above, tier: Option<TierRate>, least: nat)
    requires IsTier(thresholds, above, tier) && IsLeastThreshold(least, thresholds)
    ensures var both := set n | n in thresholds && CarriesBoth(above, n);
            IsDocumentedTier(thresholds, above, tier)
            <==> || CarriesBoth(above, least)
                 || forall n | IsLeastThreshold(n, both) :: above[(Input, n)] <= 0.0 || above[(Output, n)] <= 0.0
  {
    var both := set n | n in thresholds && CarriesBoth(above, n);
    assert least in both <==> CarriesBoth(above, least);
    if both != {} {
      LeastIs(both);
      var n :| IsLeastThreshold(n, both);
      assert forall m | IsLeastThreshold(m, both) :: m == n;
      if CarriesBoth(above, least) {
        assert IsLeastThreshold(least, both);
      } else {
        assert tier == None;
        assert IsDocumentedTier(thresholds, above, tier) <==> TierAt(above, n) == None;
      }
    }
  }

  /** A threshold that carries no output price hides a later one that does. */
  lemma LaterTierHidden()
    ensures exists thresholds: set<nat>, above: Above, tier: Option<TierRate> ::
              IsTier(thresholds, above, tier) && !IsDocumentedTier(thresholds, above, tier)
  {
    var thresholds: set<nat> := {128, 200};
    var above: Above := map[(Input, 128) := 2.0, (Input, 200) := 4.0, (Output, 200) := 8.0];
    assert IsLeastThreshold(128, thresholds);
    var both := set n | n in thresholds && CarriesBoth(above, n);
    assert 200 in both && IsLeastThreshold(200, both);
    assert IsTier(thresholds, above, None);
    assert TierAt(above, 200).Some?;
    assert !IsDocumentedTier(thresholds, above, None);
  }
}
