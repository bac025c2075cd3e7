/** What an id that a refresh leaves out is priced at: the row of the longest prefix of it, and when
    that is the price it would have been written with. */
module Lookups {
  import opened Wrappers
  import opened Order
  import opened Refresh
  import opened Prices
  import opened PriceLaws

  /** The longest prefix of `id`, no longer than `n`, that is among the keys. */
  function LookupFrom(keys: set<Key>, provider: string, id: string, n: nat): Option<Key>
    requires n <= |id|
  {
    if Key(provider, id[..n]) in keys then Some(Key(provider, id[..n]))
    else if n == 0 then None
    else LookupFrom(keys, provider, id, n - 1)
  }

  function Lookup(keys: set<Key>, key: Key): Option<Key> {
    LookupFrom(keys, key.provider, key.id, |key.id|)
  }

  lemma {:induction false} LookupFinds(keys: set<Key>, key: Key, n: nat, m: nat)
    requires m <= n <= |key.id| && Cut(key, m) in keys
    ensures LookupFrom(keys, key.provider, key.id, n) == Some(Cut(key, m)) <==>
              forall i | m < i <= n :: Cut(key, i) !in keys
    ensures var found := LookupFrom(keys, key.provider, key.id, n);
            found.Some? && found.value in keys && m <= |found.value.id| <= n
                && found.value == Cut(key, |found.value.id|)
    decreases n
  {
    if n > m {
      if Cut(key, n) in keys {
        assert |Cut(key, n).id| == n;
      } else {
        LookupFinds(keys, key, n - 1, m);
      }
    }
  }

  // ---- Rows that price alike ----

  predicate FiguresAlike(f: Figures, g: Figures) {
    && Within(f.input, g.input) && Within(f.cacheRead, g.cacheRead)
    && Within(f.cacheWrite, g.cacheWrite) && Within(f.output, g.output)
  }

  predicate TiersAlike(s: Option<Tier>, t: Option<Tier>) {
    match (s, t)
    case (None, None) => true
    case (Some(a), Some(b)) => a.threshold == b.threshold && FiguresAlike(a.figures, b.figures)
    case _ => false
  }

  predicate RowsAlike(a: Row, b: Row) {
    FiguresAlike(a.figures, b.figures) && TiersAlike(a.longContext, b.longContext)
  }

  /** The lookup finds a row for the id, and that row prices it as one of its own would. */
  predicate PricedRight(after: Rows, key: Key, c: Candidate) {
    var found := Lookup(after.Keys, key);
    found.Some? && found.value in after && RowsAlike(after[found.value], NewRow(key, c))
  }

  ghost predicate LeftOut(rows: Rows, candidates: map<Key, Candidate>, key: Key) {
    key in candidates && key !in RowsAfter(rows, candidates)
  }

  /** An id left out is covered by an id that is in the table after. */
  lemma LeftOutIsCovered(rows: Rows, openrouter: map<Key, Rate>, litellm: map<Key, Rate>, key: Key) returns (cover: Key)
    requires LeftOut(rows, CandidatesOf(openrouter, litellm), key)
    ensures var candidates := CandidatesOf(openrouter, litellm);
            Covers(candidates, cover, key) && Kept(candidates, rows.Keys, cover) && cover in RowsAfter(rows, candidates)
  {
    var candidates := CandidatesOf(openrouter, litellm);
    assert !Kept(candidates, rows.Keys, key);
    KeptIff(candidates, rows.Keys, key);
    cover :| cover in candidates && Covers(candidates, cover, key) && Kept(candidates, rows.Keys, cover);
    RefreshAdds(rows, openrouter, litellm);
  }

  /** The row found for an id left out is that of its longest prefix among the ids in the file and the
      ids kept; it is no shorter than the id that covers it. It prices the id right exactly when, if the
      refresh wrote that row, the two rates come to figures and tiers alike, and if it did not, because a
      person wrote it or the sources did not price it together, the row that was there does. */
  lemma LeftOutPricedRight(rows: Rows, openrouter: map<Key, Rate>, litellm: map<Key, Rate>, key: Key)
    returns (found: Key, cover: Key)
    requires LeftOut(rows, CandidatesOf(openrouter, litellm), key)
    ensures var candidates := CandidatesOf(openrouter, litellm);
            var after := RowsAfter(rows, candidates);
            && Covers(candidates, cover, key) && |cover.id| <= |found.id| < |key.id| && found == Cut(key, |found.id|)
            && Lookup(rows.Keys + KeptKeys(candidates, rows.Keys), key) == Lookup(after.Keys, key) == Some(found)
            && (found in rows || found in candidates)
            && (PricedRight(after, key, candidates[key]) <==>
                if Writes(rows, candidates, found) then RowsAlike(NewRow(found, candidates[found]),
                                                                  NewRow(key, candidates[key]))
                else found in rows && RowsAlike(rows[found], NewRow(key, candidates[key])))
  {
    hide Kept, Covers, NewRow, LookupFrom, RowsAlike;
    var candidates := CandidatesOf(openrouter, litellm);
    var after := RowsAfter(rows, candidates);
    cover := LeftOutIsCovered(rows, openrouter, litellm, key);
    hide CandidatesIn;
    CoverIsShorter(candidates, cover, key);
    RefreshAdds(rows, openrouter, litellm);
    LookupFinds(after.Keys, key, |key.id|, |cover.id|);
    found := Lookup(after.Keys, key).value;
    assert Cut(key, |key.id|) == key;
  }

  lemma CoverIsShorter(candidates: map<Key, Candidate>, cover: Key, key: Key)
    requires key in candidates && Covers(candidates, cover, key)
    ensures |cover.id| < |key.id| && cover == Cut(key, |cover.id|) && cover in candidates
  {
    CutIsShorter(cover, key);
  }

  // ---- Two rates that agree ----

  predicate TakesRead(rate: Rate) {
    rate.cacheRead.Some? && rate.cacheRead.value > 0.0
  }

  predicate TakesWrite(rate: Rate) {
    rate.cacheWrite.Some? && rate.cacheWrite.value >= rate.input
  }

  /** A cache read as it is charged: as published, or as input is. */
  function ReadRate(rate: Rate): real {
    if TakesRead(rate) then rate.cacheRead.value else rate.input
  }

  function WriteRate(rate: Rate): real {
    if TakesWrite(rate) then rate.cacheWrite.value else rate.input
  }

  predicate IsExact(x: real) {
    Round6(x) == x
  }

  /** Published to the millionth, as the table is written. */
  predicate RateIsExact(rate: Rate) {
    && IsExact(rate.input) && IsExact(rate.output)
    && (rate.cacheRead.Some? ==> IsExact(rate.cacheRead.value))
    && (rate.cacheWrite.Some? ==> IsExact(rate.cacheWrite.value))
  }

  lemma ExactResolves(rate: Rate)
    requires RateIsExact(rate)
    ensures rate.Resolve() == Figures(rate.input, ReadRate(rate), WriteRate(rate), rate.output)
  {
    hide Round6;
  }

  /** Of two rates that agree, as the rate that covers an id and the id's own do, the rows price alike
      exactly when each cache side that only one of them publishes is within tolerance of what the
      other charges in its stead, and the tiers are alike: agreeing does not look at either. */
  lemma AgreeingRowsAlike(a: Candidate, b: Candidate, k: Key, l: Key)
    requires RateIsExact(a.rate) && RateIsExact(b.rate) && a.rate.Agrees(b.rate)
    ensures RowsAlike(NewRow(k, a), NewRow(l, b)) <==>
            && (TakesRead(a.rate) == TakesRead(b.rate) || Within(ReadRate(a.rate), ReadRate(b.rate)))
            && (TakesWrite(a.rate) == TakesWrite(b.rate) || Within(WriteRate(a.rate), WriteRate(b.rate)))
            && TiersAlike(NewRow(k, a).longContext, NewRow(l, b).longContext)
  {
    ExactResolves(a.rate);
    ExactResolves(b.rate);
    hide Round6, IsExact, TiersAlike, Within;
  }

  /** So an id left out, found at a row the refresh wrote from a rate that agrees with its own, is priced
      right exactly when nothing only one of the two publishes makes a difference beyond tolerance. */
  lemma CoveredPricedRight(rows: Rows, openrouter: map<Key, Rate>, litellm: map<Key, Rate>, key: Key, found: Key)
    requires LeftOut(rows, CandidatesOf(openrouter, litellm), key)
    requires Lookup(RowsAfter(rows, CandidatesOf(openrouter, litellm)).Keys, key) == Some(found)
    requires Writes(rows, CandidatesOf(openrouter, litellm), found)
    requires CandidatesOf(openrouter, litellm)[found].rate.Agrees(CandidatesOf(openrouter, litellm)[key].rate)
    requires RateIsExact(CandidatesOf(openrouter, litellm)[found].rate)
    requires RateIsExact(CandidatesOf(openrouter, litellm)[key].rate)
    ensures var candidates := CandidatesOf(openrouter, litellm);
            var a, b := candidates[found].rate, candidates[key].rate;
            PricedRight(RowsAfter(rows, candidates), key, candidates[key]) <==>
            && (TakesRead(a) == TakesRead(b) || Within(ReadRate(a), ReadRate(b)))
            && (TakesWrite(a) == TakesWrite(b) || Within(WriteRate(a), WriteRate(b)))
            && TiersAlike(NewRow(found, candidates[found]).longContext, NewRow(key, candidates[key]).longContext)
  {
    var candidates := CandidatesOf(openrouter, litellm);
    hide CandidatesIn, Kept, Covers, LookupFrom, RowsAlike, NewRow, Rate.Agrees, RateIsExact, TiersAlike;
    var it, cover := LeftOutPricedRight(rows, openrouter, litellm, key);
    AgreeingRowsAlike(candidates[found], candidates[key], found, key);
  }

  /** Rounding to the millionth can part figures that agree. */
  lemma RoundingParts()
    ensures exists a, b :: Within(a, b) && !Within(Round6(a), Round6(b))
  {
    var a, b := 0.0000105, 0.0000104;
    assert (a * 1000000.0 + 0.5).Floor == 11 && (b * 1000000.0 + 0.5).Floor == 10;
    assert Round6(a) == 0.000011 && Round6(b) == 0.00001;
    assert Within(a, b) && !Within(Round6(a), Round6(b));
  }

  // ---- Ids left out, priced right and wrong ----

  function Flat(usd: real): Rate {
    Rate(usd, None, None, usd, None)
  }

  const SHORT := Key("openai", "ab")
  const BETWEEN := Key("openai", "abc")
  const LONG := Key("openai", "abcd")

  /** Both ids, at these rates. */
  function Both(short: Rate, long: Rate): map<Key, Rate> {
    map[SHORT := short, LONG := long]
  }

  function ByHand(key: Key, usd: real): Rows {
    map[key := Row(key.provider, key.id, Figures(usd, usd, usd, usd), MANUAL, None)]
  }

  lemma BothPriced(short: Rate, long: Rate)
    requires short.Agrees(short) && long.Agrees(long)
    ensures var candidates := CandidatesOf(Both(short, long), Both(short, long));
            && candidates.Keys == {SHORT, LONG}
            && candidates[SHORT] == Candidate(short, "both") && candidates[LONG] == Candidate(long, "both")
  {
    KeysDiffer();
    hide Rate.Agrees;
    assert Both(short, long).Keys == {SHORT, LONG};
  }

  lemma OnlyShortKept(candidates: map<Key, Candidate>, existing: set<Key>)
    requires candidates.Keys == {SHORT, LONG} && candidates[SHORT].rate.Agrees(candidates[LONG].rate)
    requires existing <= {SHORT} || existing <= {BETWEEN}
    ensures Covers(candidates, SHORT, LONG) && KeptKeys(candidates, existing) == {SHORT}
  {
    KeysDiffer();
    KeptIff(candidates, existing, SHORT);
    KeptIff(candidates, existing, LONG);
    hide Kept, Rate.Agrees;
    assert !Covers(candidates, LONG, SHORT) && !Covers(candidates, SHORT, SHORT);
  }

  /** With these rates of both sources the longer id is left out, whatever one other row there is. */
  lemma LongLeftOut(short: Rate, long: Rate, rows: Rows)
    requires short.Agrees(short) && long.Agrees(long) && short.Agrees(long)
    requires rows.Keys <= {SHORT} || rows.Keys <= {BETWEEN}
    ensures var candidates := CandidatesOf(Both(short, long), Both(short, long));
            && candidates.Keys == {SHORT, LONG} && LeftOut(rows, candidates, LONG)
            && candidates[SHORT] == Candidate(short, "both") && candidates[LONG] == Candidate(long, "both")
            && Covers(candidates, SHORT, LONG) && SHORT in KeptKeys(candidates, rows.Keys)
            && RowsAfter(rows, candidates).Keys == rows.Keys + {SHORT}
            && Lookup(RowsAfter(rows, candidates).Keys, LONG) == Some(if BETWEEN in rows then BETWEEN else SHORT)
  {
    hide Kept, Covers, Rate.Agrees, CandidatesIn, Both, NewRow;
    var candidates := CandidatesOf(Both(short, long), Both(short, long));
    BothPriced(short, long);
    OnlyShortKept(candidates, rows.Keys);
    RefreshAdds(rows, Both(short, long), Both(short, long));
    hide RowsAfter, KeptKeys;
    LongFinds(RowsAfter(rows, candidates).Keys);
  }

  lemma LongFinds(keys: set<Key>)
    requires SHORT in keys && keys <= {SHORT, BETWEEN}
    ensures LONG !in keys && Lookup(keys, LONG) == Some(if BETWEEN in keys then BETWEEN else SHORT)
    ensures BETWEEN != SHORT
  {
    KeysDiffer();
    LookupFinds(keys, LONG, 4, if BETWEEN in keys then 3 else 2);
    assert Cut(LONG, 4) !in keys;
    hide LookupFrom;
  }

  lemma KeysDiffer()
    ensures Cut(LONG, 2) == SHORT && Cut(LONG, 3) == BETWEEN && Cut(LONG, 4) == LONG
    ensures |SHORT.id| == 2 && |BETWEEN.id| == 3 && |LONG.id| == 4
    ensures ShorterId(SHORT, LONG)
  {
  }

  lemma WholeDollars(n: int)
    ensures Round6(n as real) == n as real
  {
    RoundsWhole(n * 1000000);
    assert (n * 1000000) as real / 1000000.0 == n as real;
  }

  /** A cache read and a long prompt's tier only the longer id has: the two rates agree, the longer id is
      left out, no row lies between and nobody wrote one, and the lookup charges ten times the cache
      read and no tier. */
  lemma CacheSideAndTierLost()
    ensures var short := Rate(20.0, None, None, 80.0, None);
            var long := Rate(20.0, Some(2.0), None, 80.0, Some(TierRate(200000, 40.0, None, None, 160.0)));
            var candidates := CandidatesOf(Both(short, long), Both(short, long));
            var after := RowsAfter(map[], candidates);
            && LeftOut(map[], candidates, LONG) && Lookup(after.Keys, LONG) == Some(SHORT)
            && after[SHORT].figures.cacheRead == 20.0 && after[SHORT].longContext == None
            && NewRow(LONG, candidates[LONG]).figures.cacheRead == 2.0
            && NewRow(LONG, candidates[LONG]).longContext.Some?
            && !PricedRight(after, LONG, candidates[LONG])
  {
    var short := Rate(20.0, None, None, 80.0, None);
    var long := Rate(20.0, Some(2.0), None, 80.0, Some(TierRate(200000, 40.0, None, None, 160.0)));
    LongLeftOut(short, long, map[]);
    WholeDollars(20);
    WholeDollars(2);
    var candidates := CandidatesOf(Both(short, long), Both(short, long));
    hide Kept, Covers, Round6, CandidatesIn, LookupFrom, Both;
    var after := RowsAfter(map[], candidates);
    assert SHORT in after && after[SHORT] == NewRow(SHORT, candidates[SHORT]);
    hide RowsAfter;
  }

  /** A row a person wrote for the very id that covers: the lookup finds it, at the person's price. */
  lemma CoverByHandPricesOtherwise()
    ensures var candidates := CandidatesOf(Both(Flat(2.0), Flat(2.0)), Both(Flat(2.0), Flat(2.0)));
            var after := RowsAfter(ByHand(SHORT, 9.0), candidates);
            && LeftOut(ByHand(SHORT, 9.0), candidates, LONG) && Lookup(after.Keys, LONG) == Some(SHORT)
            && !PricedRight(after, LONG, candidates[LONG])
  {
    FoundByHand(SHORT, 9.0);
  }

  /** A row a person wrote between the two ids: the lookup finds that one, at the person's price. */
  lemma RowBetweenPricesOtherwise()
    ensures var candidates := CandidatesOf(Both(Flat(2.0), Flat(2.0)), Both(Flat(2.0), Flat(2.0)));
            var after := RowsAfter(ByHand(BETWEEN, 9.0), candidates);
            && LeftOut(ByHand(BETWEEN, 9.0), candidates, LONG) && Lookup(after.Keys, LONG) == Some(BETWEEN)
            && !PricedRight(after, LONG, candidates[LONG])
  {
    FoundByHand(BETWEEN, 9.0);
  }

  /** A row between is no harm by itself: at the same price it prices the id right. */
  lemma RowBetweenAtThePrice()
    ensures var candidates := CandidatesOf(Both(Flat(2.0), Flat(2.0)), Both(Flat(2.0), Flat(2.0)));
            var after := RowsAfter(ByHand(BETWEEN, 2.0), candidates);
            && LeftOut(ByHand(BETWEEN, 2.0), candidates, LONG) && Lookup(after.Keys, LONG) == Some(BETWEEN)
            && PricedRight(after, LONG, candidates[LONG])
  {
    FoundByHand(BETWEEN, 2.0);
  }

  lemma FoundByHand(key: Key, usd: real)
    requires key == SHORT || key == BETWEEN
    ensures var candidates := CandidatesOf(Both(Flat(2.0), Flat(2.0)), Both(Flat(2.0), Flat(2.0)));
            var after := RowsAfter(ByHand(key, usd), candidates);
            && LeftOut(ByHand(key, usd), candidates, LONG) && Lookup(after.Keys, LONG) == Some(key)
            && (PricedRight(after, LONG, candidates[LONG]) <==> Within(usd, 2.0))
  {
    var rows := ByHand(key, usd);
    assert rows.Keys == {key};
    KeysDiffer();
    LongLeftOut(Flat(2.0), Flat(2.0), rows);
    WholeDollars(2);
    var candidates := CandidatesOf(Both(Flat(2.0), Flat(2.0)), Both(Flat(2.0), Flat(2.0)));
    hide Kept, Covers, Round6, CandidatesIn, LookupFrom, Both, LeftOut;
    var after := RowsAfter(rows, candidates);
    assert key in after && after[key] == rows[key];
    hide RowsAfter;
    assert NewRow(LONG, candidates[LONG]).figures == Figures(2.0, 2.0, 2.0, 2.0);
  }
}
