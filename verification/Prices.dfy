/** The price refresh: two sources merged into the kept table, ids a shorter one already prices left
    out, and a table that would be wrong refused. Figures are reals. */
module Prices {
  import opened Wrappers
  import opened Order
  import opened Diff
  import opened Refresh

  const PROVIDERS: seq<string> := ["anthropic", "google", "meta", "openai", "xai"]
  const AGREE_TOLERANCE: real := 0.05
  const REFUSE_RATIO: real := 3.0

  datatype TierRate = TierRate(threshold: nat, input: real, cacheRead: Option<real>, cacheWrite: Option<real>,
                               output: real)

  /** One model's price as a source publishes it. */
  datatype Rate = Rate(input: real, cacheRead: Option<real>, cacheWrite: Option<real>, output: real,
                       longContext: Option<TierRate>) {
    function Resolve(): Figures {
      var inp := Round6(input);
      var read := if cacheRead.Some? && cacheRead.value > 0.0 then Round6(cacheRead.value) else inp;
      var write := if cacheWrite.Some? && Round6(cacheWrite.value) >= inp then Round6(cacheWrite.value) else inp;
      Figures(inp, read, write, Round6(output))
    }

    predicate Agrees(other: Rate) {
      && Within(input, other.input)
      && Within(output, other.output)
      && BothWithin(cacheRead, other.cacheRead)
      && BothWithin(cacheWrite, other.cacheWrite)
    }
  }

  datatype Figures = Figures(input: real, cacheRead: real, cacheWrite: real, output: real)

  datatype Tier = Tier(threshold: nat, figures: Figures)

  datatype Row = Row(provider: string, prefix: string, figures: Figures, source: string, longContext: Option<Tier>)

  type Rows = map<Key, Row>

  datatype Table = Table(readOn: string, rows: Rows)

  datatype Candidate = Candidate(rate: Rate, source: string)

  datatype Merged = Merged(table: Table, changes: seq<Change<Row>>, disagreements: seq<Key>)

  datatype Refusal = ListsNone(source: string, provider: string) | Moves(key: Key) | NoPrice(key: Key)

  function Abs(x: real): real {
    if x < 0.0 then -x else x
  }

  function Max(x: real, y: real): real {
    if x < y then y else x
  }

  /** To a millionth, halves away from zero. */
  function Round6(v: real): real {
    var scaled := v * 1000000.0;
    var whole := if scaled >= 0.0 then (scaled + 0.5).Floor else -((-scaled + 0.5).Floor);
    whole as real / 1000000.0
  }

  predicate Within(a: real, b: real) {
    Abs(a - b) <= AGREE_TOLERANCE * Max(Abs(a), Abs(b))
  }

  predicate BothWithin(a: Option<real>, b: Option<real>) {
    a.Some? && b.Some? ==> Within(a.value, b.value)
  }

  /** Agreement does not carry over: two figures may each agree with a third and not with each other,
      so which ids a shorter one covers depends on comparing with the ids kept. */
  lemma AgreementIsNotTransitive()
    ensures exists a, b, c :: Within(a, b) && Within(b, c) && !Within(a, c)
  {
    assert Within(100.0, 96.0) && Within(96.0, 92.0) && !Within(100.0, 92.0);
  }

  /** Whether a figure moves by more than the ratio, either way. A quotient by zero is infinite, or
      no number at all when both are zero, and then says nothing. */
  predicate Exceeds(a: real, b: real) {
    if a == 0.0 && b == 0.0 then false
    else if b == 0.0 then a > 0.0
    else if a == 0.0 then b > 0.0
    else a / b > REFUSE_RATIO || b / a > REFUSE_RATIO
  }

  predicate MovesTooFar(was: Row, row: Row) {
    Exceeds(was.figures.input, row.figures.input) || Exceeds(was.figures.output, row.figures.output)
  }

  predicate Positive(row: Row) {
    row.figures.output > 0.0 && row.figures.input > 0.0
  }

  // ---- What the sources say together ----

  predicate Disagree(openrouter: map<Key, Rate>, litellm: map<Key, Rate>, k: Key) {
    k in openrouter && k in litellm && !openrouter[k].Agrees(litellm[k])
  }

  function CandidateOf(openrouter: map<Key, Rate>, litellm: map<Key, Rate>, k: Key): Candidate
    requires k in openrouter || k in litellm
  {
    if k in openrouter && k in litellm then Candidate(openrouter[k].(longContext := litellm[k].longContext), "both")
    else if k in openrouter then Candidate(openrouter[k], "openrouter")
    else Candidate(litellm[k], "litellm")
  }

  /** One rate for each of `keys` some source prices and no two price differently. */
  function CandidatesIn(openrouter: map<Key, Rate>, litellm: map<Key, Rate>, keys: set<Key>): map<Key, Candidate> {
    map k | k in keys && (k in openrouter || k in litellm) && !Disagree(openrouter, litellm,
              k) :: CandidateOf(openrouter, litellm, k)
  }

  function CandidatesOf(openrouter: map<Key, Rate>, litellm: map<Key, Rate>): map<Key, Candidate> {
    CandidatesIn(openrouter, litellm, openrouter.Keys + litellm.Keys)
  }

  // ---- Ids a shorter id already prices ----

  predicate ShorterId(short: Key, key: Key) {
    short.provider == key.provider && |short.id| < |key.id| && short.id <= key.id
  }

  /** `short` is a shorter id whose price `key`'s agrees with. */
  predicate Covers(candidates: map<Key, Candidate>, short: Key, key: Key)
    requires key in candidates
  {
    short in candidates && ShorterId(short, key) && candidates[short].rate.Agrees(candidates[key].rate)
  }

  function Cut(key: Key, n: nat): Key
    requires n <= |key.id|
  {
    Key(key.provider, key.id[..n])
  }

  /** The rule itself: an id is kept if the file has it, or no shorter kept id covers it. */
  predicate Kept(candidates: map<Key, Candidate>, existing: set<Key>, key: Key)
    requires key in candidates
    decreases |key.id|
  {
    key in existing
    || !exists n | 0 <= n < |key.id| ::
         Covers(candidates, Cut(key, n), key) && Kept(candidates, existing, Cut(key, n))
  }

  lemma CutIsShorter(short: Key, key: Key)
    requires ShorterId(short, key)
    ensures short == Cut(key, |short.id|)
  {
  }

  lemma KeptIff(candidates: map<Key, Candidate>, existing: set<Key>, key: Key)
    requires key in candidates
    ensures Kept(candidates, existing, key) <==>
            || key in existing
            || !exists s :: s in candidates && Covers(candidates, s, key) && Kept(candidates, existing, s)
  {
    forall s | s in candidates && Covers(candidates, s, key)
      ensures s == Cut(key, |s.id|)
    {
      CutIsShorter(s, key);
    }
  }

  /** A set of ids kept by the rule, which speaks of the set itself. */
  ghost predicate IsCollapse(candidates: map<Key, Candidate>, existing: set<Key>, kept: set<Key>) {
    && kept <= candidates.Keys
    && forall k | k in candidates :: k in kept <==> k in existing || !exists s :: s in kept && Covers(candidates, s, k)
  }

  ghost function KeptKeys(candidates: map<Key, Candidate>, existing: set<Key>): set<Key> {
    set k | k in candidates && Kept(candidates, existing, k)
  }

  lemma KeptKeysCollapse(candidates: map<Key, Candidate>, existing: set<Key>)
    ensures IsCollapse(candidates, existing, KeptKeys(candidates, existing))
  {
    forall k | k in candidates
      ensures Kept(candidates, existing, k) <==>
                k in existing || !exists s :: s in KeptKeys(candidates, existing) && Covers(candidates, s, k)
    {
      KeptIff(candidates, existing, k);
    }
  }

  /** There is only one such set. */
  lemma CollapseIsUnique(candidates: map<Key, Candidate>, existing: set<Key>, kept: set<Key>)
    requires IsCollapse(candidates, existing, kept)
    ensures kept == KeptKeys(candidates, existing)
  {
    forall k | k in candidates
      ensures k in kept <==> Kept(candidates, existing, k)
    {
      CollapseAt(candidates, existing, kept, k);
    }
  }

  lemma {:induction false} CollapseAt(candidates: map<Key, Candidate>, existing: set<Key>, kept: set<Key>, k: Key)
    requires IsCollapse(candidates, existing, kept) && k in candidates
    ensures k in kept <==> Kept(candidates, existing, k)
    decreases |k.id|
  {
    KeptIff(candidates, existing, k);
    forall s | s in candidates && Covers(candidates, s, k)
      ensures s in kept <==> Kept(candidates, existing, s)
    {
      CollapseAt(candidates, existing, kept, s);
    }
  }

  /** Keeping what is kept in the file keeps nothing more and nothing less. */
  lemma {:induction false} CollapseAgain(candidates: map<Key, Candidate>, existing: set<Key>, k: Key)
    requires k in candidates
    ensures Kept(candidates, existing + KeptKeys(candidates, existing), k) <==> Kept(candidates, existing, k)
    decreases |k.id|
  {
    var again := existing + KeptKeys(candidates, existing);
    KeptIff(candidates, existing, k);
    KeptIff(candidates, again, k);
    forall s | s in candidates && Covers(candidates, s, k)
      ensures Kept(candidates, again, s) <==> Kept(candidates, existing, s)
    {
      CollapseAgain(candidates, existing, s);
    }
  }

  // ---- The table after ----

  function NewRow(k: Key, c: Candidate): Row {
    var t := c.rate.longContext;
    Row(k.provider, k.id, c.rate.Resolve(), c.source,
        if t.None? then None
        else Some(Tier(t.value.threshold,
                       Rate(t.value.input, t.value.cacheRead, t.value.cacheWrite, t.value.output, None).Resolve())))
  }

  predicate Writes(rows: Rows, candidates: map<Key, Candidate>, k: Key) {
    k in candidates && Kept(candidates, rows.Keys, k) && (k in rows ==> rows[k].source != MANUAL)
  }

  function RowsAfter(rows: Rows, candidates: map<Key, Candidate>): Rows {
    rows + map k | k in candidates && Writes(rows, candidates, k) :: NewRow(k, candidates[k])
  }

  predicate Lists(prices: map<Key, Rate>, provider: string) {
    exists k | k in prices :: k.provider == provider
  }

  ghost predicate SourcesList(openrouter: map<Key, Rate>, litellm: map<Key, Rate>) {
    forall p | p in PROVIDERS :: Lists(openrouter, p) && Lists(litellm, p)
  }

  ghost predicate RowMoves(rows: Rows, candidates: map<Key, Candidate>, k: Key) {
    k in rows && Writes(rows, candidates, k) && MovesTooFar(rows[k], NewRow(k, candidates[k]))
  }

  /** The merge goes ahead exactly when every source lists every provider, no row it would write
      moves too far, and every row of the table it would leave has a positive price. */
  ghost predicate GoesAhead(rows: Rows, openrouter: map<Key, Rate>, litellm: map<Key, Rate>) {
    var candidates := CandidatesOf(openrouter, litellm);
    && SourcesList(openrouter, litellm)
    && (forall k | k in candidates :: !RowMoves(rows, candidates, k))
    && forall k | k in RowsAfter(rows, candidates) :: Positive(RowsAfter(rows, candidates)[k])
  }

  method CheckSources(openrouter: map<Key, Rate>, litellm: map<Key, Rate>) returns (refusal: Option<Refusal>)
    ensures refusal.None? <==> SourcesList(openrouter, litellm)
    ensures refusal.Some? ==>
              && refusal.value.ListsNone? && refusal.value.provider in PROVIDERS
              && !exists k | k in (if refusal.value.source == "OpenRouter" then openrouter else litellm) ::
                   k.provider == refusal.value.provider
  {
    var i := 0;
    while i < |PROVIDERS|
      invariant i <= |PROVIDERS|
      invariant forall j :: 0 <= j < i ==> Lists(openrouter, PROVIDERS[j]) && Lists(litellm, PROVIDERS[j])
    {
      if !Lists(openrouter, PROVIDERS[i]) {
        return Some(ListsNone("OpenRouter", PROVIDERS[i]));
      }
      if !Lists(litellm, PROVIDERS[i]) {
        return Some(ListsNone("LiteLLM", PROVIDERS[i]));
      }
      i := i + 1;
    }
    return None;
  }

  lemma EmptyIsAscending()
    ensures Ascending([]) && Members([]) == {}
  {
  }

  /** The ids the two sources price differently, among `keys`. */
  ghost function Disputed(openrouter: map<Key, Rate>, litellm: map<Key, Rate>, keys: set<Key>): set<Key> {
    set k | k in keys && Disagree(openrouter, litellm, k)
  }

  lemma OneMoreId(openrouter: map<Key, Rate>, litellm: map<Key, Rate>, keys: set<Key>, key: Key)
    requires key in openrouter || key in litellm
    ensures if Disagree(openrouter, litellm, key) then
              && CandidatesIn(openrouter, litellm, keys + {key}) == CandidatesIn(openrouter, litellm, keys - {key})
              && Disputed(openrouter, litellm, keys + {key}) == Disputed(openrouter, litellm, keys) + {key}
            else
              && CandidatesIn(openrouter, litellm, keys + {key}) == CandidatesIn(openrouter, litellm,
                        keys)[key := CandidateOf(openrouter, litellm, key)]
              && Disputed(openrouter, litellm, keys + {key}) == Disputed(openrouter, litellm, keys)
  {
  }

  method Gather(openrouter: map<Key, Rate>, litellm: map<Key, Rate>)
    returns (candidates: map<Key, Candidate>, disagreements: seq<Key>)
    ensures candidates == CandidatesOf(openrouter, litellm)
    ensures Ascending(disagreements)
    ensures Members(disagreements) == Disputed(openrouter, litellm, openrouter.Keys + litellm.Keys)
  {
    hide Disagree, CandidateOf, KeyLeq, Ascending, Members, CandidatesIn;
    var all := openrouter.Keys + litellm.Keys;
    var todo := all;
    candidates, disagreements := CandidatesIn(openrouter, litellm, {}), [];
    EmptyIsAscending();
    assert all - todo == {};
    while todo != {}
      invariant todo <= all
      invariant candidates == CandidatesIn(openrouter, litellm, all - todo)
      invariant Ascending(disagreements) && Members(disagreements) == Disputed(openrouter, litellm, all - todo)
      invariant forall j, k | j in all - todo && k in todo :: KeyLeq(j, k)
      decreases |todo|
    {
      var key := NextKey(todo);
      ghost var had := all - todo;
      assert all - (todo - {key}) == had + {key} && had - {key} == had;
      OneMoreId(openrouter, litellm, had, key);
      if Disagree(openrouter, litellm, key) {
        AppendedLater(disagreements, key);
        disagreements := disagreements + [key];
      } else {
        candidates := candidates[key := CandidateOf(openrouter, litellm, key)];
      }
      todo := todo - {key};
    }
    assert all - todo == all;
  }

  /** The one pass over the candidates, in order: a covering id sorts before the ids it covers, so
      comparing with the ids kept so far is comparing with all of them. */
  method Collapse(candidates: map<Key, Candidate>, existing: set<Key>) returns (kept: seq<Key>)
    ensures Ascending(kept) && Members(kept) == KeptKeys(candidates, existing)
  {
    kept := [];
    var todo := candidates.Keys;
    while todo != {}
      invariant todo <= candidates.Keys
      invariant Ascending(kept)
      invariant Members(kept) == set k | k in candidates.Keys - todo && Kept(candidates, existing, k)
      invariant forall j, k | j in candidates.Keys - todo && k in todo :: KeyLeq(j, k)
      decreases |todo|
    {
      var key := NextKey(todo);
      var covered := key !in existing && exists i | 0 <= i < |kept| :: Covers(candidates, kept[i], key);
      KeptIff(candidates, existing, key);
      forall s | s in candidates && Covers(candidates, s, key)
        ensures s !in todo
      {
        PrefixLeq(s.id, key.id);
        KeyTotal(s, key);
      }
      assert covered <==> key !in existing && exists s :: s in Members(kept) && Covers(candidates, s, key);
      if !covered {
        AppendedLater(kept, key);
        kept := kept + [key];
      }
      todo := todo - {key};
    }
  }

  predicate Stands(was: Row, row: Row) {
    was.source == MANUAL || was == row
  }

  /** A row that is written as it was has not moved: asking about the move first, as `merge` does,
      or only of a row that changes, is one and the same. */
  lemma SameDoesNotMove(row: Row)
    ensures !MovesTooFar(row, row)
  {
    Quotient(row.figures.input);
    Quotient(row.figures.output);
  }

  lemma Quotient(x: real)
    ensures x != 0.0 ==> x / x == 1.0
  {
  }

  /** Folding in the rows of the ids kept is what the refresh means to do. */
  lemma FetchedWrites(rows: Rows, candidates: map<Key, Candidate>, fetched: Rows)
    requires fetched.Keys == KeptKeys(candidates, rows.Keys)
              && forall k | k in fetched :: fetched[k] == NewRow(k, candidates[k])
    ensures After(rows, fetched, Stands) == RowsAfter(rows, candidates)
  {
    hide Kept, NewRow;
  }

  lemma FetchedStops(rows: Rows, candidates: map<Key, Candidate>, fetched: Rows)
    requires fetched.Keys == KeptKeys(candidates, rows.Keys)
              && forall k | k in fetched :: fetched[k] == NewRow(k, candidates[k])
    ensures forall k | k in candidates :: RowMoves(rows, candidates, k) <==>
              k in fetched && Stops(rows, fetched, Stands, MovesTooFar, k)
  {
    hide Kept, NewRow, MovesTooFar;
    forall k | k in candidates
      ensures RowMoves(rows, candidates, k) <==> k in fetched && Stops(rows, fetched, Stands, MovesTooFar, k)
    {
      SameDoesNotMove(NewRow(k, candidates[k]));
    }
  }


  /** The last step: write the kept candidates into the table. */
  method Write(rows: Rows, candidates: map<Key, Candidate>, kept: seq<Key>)
    returns (r: Result<(Rows, seq<Change<Row>>), Refusal>)
    requires Members(kept) == KeptKeys(candidates, rows.Keys)
    ensures r.Ok? <==> forall k | k in candidates :: !RowMoves(rows, candidates, k)
    ensures r.Ok? ==> r.value.0 == RowsAfter(rows, candidates) && IsDiff(rows, r.value.0, r.value.1)
  {
    hide Kept, NewRow, MovesTooFar, IsDiff;
    var fetched := map k | k in kept && k in candidates :: NewRow(k, candidates[k]);
    assert fetched.Keys == Members(kept);
    FetchedWrites(rows, candidates, fetched);
    FetchedStops(rows, candidates, fetched);
    hide RowMoves, RowsAfter, After, Stops, KeptKeys;
    var folded := Fold(rows, fetched, Stands, MovesTooFar);
    if folded.Err? {
      return Err(Moves(folded.error));
    }
    return Ok(folded.value);
  }

  // ---- The table a merge leaves, in terms of the two sources ----

  ghost predicate MillionthsOf(a: real, v: real, n: int) {
    var d := n as real - v * 1000000.0;
    && a == n as real / 1000000.0 && -0.5 <= d <= 0.5
    && (d == 0.5 ==> v > 0.0) && (d == -0.5 ==> v < 0.0)
  }

  /** `a` is the millionth next to `v`, of two as near the one further from zero. */
  ghost predicate NextMillionth(a: real, v: real) {
    exists n: int :: MillionthsOf(a, v, n)
  }

  lemma RoundIsNext(a: real, v: real)
    ensures NextMillionth(a, v) <==> a == Round6(v)
  {
    var scaled := v * 1000000.0;
    var whole := if scaled >= 0.0 then (scaled + 0.5).Floor else -((-scaled + 0.5).Floor);
    assert MillionthsOf(Round6(v), v, whole);
    if NextMillionth(a, v) {
      var n: int :| MillionthsOf(a, v, n);
      OneNext(v, scaled, n, whole);
    }
  }

  lemma OneNext(v: real, scaled: real, n: int, m: int)
    requires scaled == v * 1000000.0
    requires var d := n as real - scaled; -0.5 <= d <= 0.5 && (d == 0.5 ==> v > 0.0) && (d == -0.5 ==> v < 0.0)
    requires var d := m as real - scaled; -0.5 <= d <= 0.5 && (d == 0.5 ==> v > 0.0) && (d == -0.5 ==> v < 0.0)
    ensures n == m
  {
    assert -1.0 <= n as real - m as real <= 1.0;
    assert (n - m) as real == n as real - m as real;
  }

  /** The figures are those published: a cache side that is not, a read at nothing, or a write below
      input, is priced as input is. */
  ghost predicate FiguresAs(f: Figures, input: real, cacheRead: Option<real>, cacheWrite: Option<real>,
                            output: real) {
    && NextMillionth(f.input, input)
    && NextMillionth(f.output, output)
    && (if cacheRead.Some? && cacheRead.value > 0.0 then NextMillionth(f.cacheRead, cacheRead.value)
        else f.cacheRead == f.input)
    && if cacheWrite.Some? && cacheWrite.value >= input then NextMillionth(f.cacheWrite, cacheWrite.value)
       else f.cacheWrite == f.input
  }

  ghost predicate TierAs(t: Option<Tier>, r: Option<TierRate>) {
    if r.None? then t.None?
    else
      && t.Some? && t.value.threshold == r.value.threshold
      && FiguresAs(t.value.figures, r.value.input, r.value.cacheRead, r.value.cacheWrite, r.value.output)
  }

  /** The row is at OpenRouter's figures where it prices the id, with LiteLLM's tier where both do; else
      at LiteLLM's; and it says whose it is. */
  ghost predicate RowAs(openrouter: map<Key, Rate>, litellm: map<Key, Rate>, k: Key, row: Row)
    requires k in openrouter || k in litellm
  {
    && row.provider == k.provider && row.prefix == k.id
    && (k in openrouter ==>
          var r := openrouter[k]; FiguresAs(row.figures, r.input, r.cacheRead, r.cacheWrite, r.output))
    && (k !in openrouter ==>
          var r := litellm[k]; FiguresAs(row.figures, r.input, r.cacheRead, r.cacheWrite, r.output))
    && row.source == (if k !in openrouter then "litellm" else if k in litellm then "both" else "openrouter")
    && TierAs(row.longContext, if k in litellm then litellm[k].longContext else openrouter[k].longContext)
  }

  /** Not further apart than 5% of the larger. */
  predicate InFivePercent(x: real, y: real) {
    var d := 20.0 * if x < y then y - x else x - y;
    d <= x || d <= -x || d <= y || d <= -y
  }

  predicate SamePrice(a: Rate, b: Rate) {
    && InFivePercent(a.input, b.input)
    && InFivePercent(a.output, b.output)
    && (a.cacheRead.Some? && b.cacheRead.Some? ==> InFivePercent(a.cacheRead.value, b.cacheRead.value))
    && (a.cacheWrite.Some? && b.cacheWrite.Some? ==> InFivePercent(a.cacheWrite.value, b.cacheWrite.value))
  }

  /** A source prices the id, and no two price it apart. */
  predicate Settled(openrouter: map<Key, Rate>, litellm: map<Key, Rate>, k: Key) {
    && (k in openrouter || k in litellm)
    && (k in openrouter && k in litellm ==> SamePrice(openrouter[k], litellm[k]))
  }

  /** A shorter id of the table, a prefix of this one, that the sources settle at the same price. */
  predicate PricedBy(openrouter: map<Key, Rate>, litellm: map<Key, Rate>, after: Rows, short: Key, k: Key)
    requires k in openrouter || k in litellm
  {
    && short in after && Settled(openrouter, litellm, short)
    && short.provider == k.provider && short.id <= k.id && short.id != k.id
    && SamePrice(if short in openrouter then openrouter[short] else litellm[short],
                 if k in openrouter then openrouter[k] else litellm[k])
  }

  /** What becomes of an id: a row is kept where a person wrote it or the sources do not settle a price;
      any other that was there is written; and one that was not is, unless a shorter id prices it. */
  ghost predicate IdAfter(rows: Rows, openrouter: map<Key, Rate>, litellm: map<Key, Rate>, after: Rows, k: Key) {
    if k in rows && (rows[k].source == "manual" || !Settled(openrouter, litellm, k)) then
      k in after && after[k] == rows[k]
    else
      && (k in after <==>
            || k in rows
            || (Settled(openrouter, litellm, k)
                && !exists short | short in after :: PricedBy(openrouter, litellm, after, short, k)))
      && (k in after ==> Settled(openrouter, litellm, k) && RowAs(openrouter, litellm, k, after[k]))
  }

  lemma WithinIsFivePercent(x: real, y: real)
    ensures Within(x, y) <==> InFivePercent(x, y)
  {
  }

  lemma AgreesIsSame(a: Rate, b: Rate)
    ensures a.Agrees(b) <==> SamePrice(a, b)
  {
    WithinIsFivePercent(a.input, b.input);
    WithinIsFivePercent(a.output, b.output);
    if a.cacheRead.Some? && b.cacheRead.Some? {
      WithinIsFivePercent(a.cacheRead.value, b.cacheRead.value);
    }
    if a.cacheWrite.Some? && b.cacheWrite.Some? {
      WithinIsFivePercent(a.cacheWrite.value, b.cacheWrite.value);
    }
    hide Within, InFivePercent;
  }

  lemma RoundKeepsOrder(a: real, b: real)
    ensures a <= b ==> Round6(a) <= Round6(b)
  {
    var x, y := a * 1000000.0, b * 1000000.0;
    if a <= b {
      assert x <= y;
      WholeKeepsOrder(x, y);
      DivideKeepsOrder(Whole(x), Whole(y));
      assert Round6(a) == Whole(x) as real / 1000000.0 && Round6(b) == Whole(y) as real / 1000000.0;
    }
  }

  function Whole(x: real): int {
    if x >= 0.0 then (x + 0.5).Floor else -((-x + 0.5).Floor)
  }

  lemma WholeKeepsOrder(x: real, y: real)
    requires x <= y
    ensures Whole(x) <= Whole(y)
  {
  }

  lemma DivideKeepsOrder(m: int, n: int)
    requires m <= n
    ensures m as real / 1000000.0 <= n as real / 1000000.0
  {
  }

  lemma ResolveIs(rate: Rate)
    ensures FiguresAs(rate.Resolve(), rate.input, rate.cacheRead, rate.cacheWrite, rate.output)
  {
    var f := rate.Resolve();
    RoundIsNext(f.input, rate.input);
    RoundIsNext(f.output, rate.output);
    if rate.cacheRead.Some? {
      RoundIsNext(f.cacheRead, rate.cacheRead.value);
    }
    if rate.cacheWrite.Some? {
      RoundIsNext(f.cacheWrite, rate.cacheWrite.value);
      RoundKeepsOrder(rate.input, rate.cacheWrite.value);
      RoundKeepsOrder(rate.cacheWrite.value, rate.input);
    }
    hide Round6, NextMillionth;
  }

  lemma NewRowIs(openrouter: map<Key, Rate>, litellm: map<Key, Rate>, k: Key)
    requires k in openrouter || k in litellm
    ensures RowAs(openrouter, litellm, k, NewRow(k, CandidateOf(openrouter, litellm, k)))
  {
    var c := CandidateOf(openrouter, litellm, k);
    var t := c.rate.longContext;
    ResolveIs(c.rate);
    if t.Some? {
      ResolveIs(Rate(t.value.input, t.value.cacheRead, t.value.cacheWrite, t.value.output, None));
    }
    hide FiguresAs, Rate.Resolve;
  }

  lemma SettledIsCandidate(openrouter: map<Key, Rate>, litellm: map<Key, Rate>, k: Key)
    ensures k in CandidatesOf(openrouter, litellm) <==> Settled(openrouter, litellm, k)
    ensures k in CandidatesOf(openrouter, litellm) ==>
              CandidatesOf(openrouter, litellm)[k] == CandidateOf(openrouter, litellm, k)
  {
    if k in openrouter && k in litellm {
      AgreesIsSame(openrouter[k], litellm[k]);
    }
    hide SamePrice, Rate.Agrees, CandidateOf;
  }

  lemma CoverIsPrice(openrouter: map<Key, Rate>, litellm: map<Key, Rate>, after: Rows, short: Key, k: Key)
    requires k in CandidatesOf(openrouter, litellm) && short in after
    ensures k in openrouter || k in litellm
    ensures Covers(CandidatesOf(openrouter, litellm), short, k) <==> PricedBy(openrouter, litellm, after, short, k)
  {
    SettledIsCandidate(openrouter, litellm, k);
    SettledIsCandidate(openrouter, litellm, short);
    if Settled(openrouter, litellm, short) {
      AgreesIsSame(CandidateOf(openrouter, litellm, short).rate, CandidateOf(openrouter, litellm, k).rate);
      assert short.id <= k.id && short.id != k.id ==> |short.id| < |k.id|;
    }
    hide InFivePercent, Within, Settled, CandidatesOf;
  }

  /** So it is of every id. */
  lemma TableAfter(rows: Rows, openrouter: map<Key, Rate>, litellm: map<Key, Rate>, k: Key)
    ensures IdAfter(rows, openrouter, litellm, RowsAfter(rows, CandidatesOf(openrouter, litellm)), k)
  {
    var candidates := CandidatesOf(openrouter, litellm);
    var after := RowsAfter(rows, candidates);
    SettledIsCandidate(openrouter, litellm, k);
    if Settled(openrouter, litellm, k) {
      NewRowIs(openrouter, litellm, k);
      KeptIff(candidates, rows.Keys, k);
      forall s | s in after
        ensures s in candidates && Covers(candidates, s, k) && Kept(candidates, rows.Keys, s)
                <==> PricedBy(openrouter, litellm, after, s, k)
      {
        CoverIsPrice(openrouter, litellm, after, s, k);
        KeptIsThere(rows, openrouter, litellm, s);
      }
      forall s | s in candidates && Covers(candidates, s, k) && Kept(candidates, rows.Keys, s) ensures s in after {
        KeptIsThere(rows, openrouter, litellm, s);
      }
    }
    hide Kept, Covers, PricedBy, RowAs, Settled, CandidatesOf, NewRow;
  }

  lemma DisputedApart(openrouter: map<Key, Rate>, litellm: map<Key, Rate>, k: Key)
    ensures k in Disputed(openrouter, litellm, openrouter.Keys + litellm.Keys) <==>
              k in openrouter && k in litellm && !SamePrice(openrouter[k], litellm[k])
  {
    if k in openrouter && k in litellm {
      AgreesIsSame(openrouter[k], litellm[k]);
    }
    hide SamePrice, Rate.Agrees;
  }

  lemma KeptIsThere(rows: Rows, openrouter: map<Key, Rate>, litellm: map<Key, Rate>, s: Key)
    ensures var candidates := CandidatesOf(openrouter, litellm);
            s in candidates ==> (Kept(candidates, rows.Keys, s) <==> s in RowsAfter(rows, candidates))
  {
    hide NewRow, CandidatesOf;
  }

  /** `merge`. */
  method Merge(existing: Table, openrouter: map<Key, Rate>, litellm: map<Key, Rate>, today: string)
    returns (r: Result<Merged, Refusal>)
    ensures r.Ok? <==> GoesAhead(existing.rows, openrouter, litellm)
    ensures r.Ok? ==>
              && r.value.table.rows == RowsAfter(existing.rows, CandidatesOf(openrouter, litellm))
              && IsDiff(existing.rows, r.value.table.rows, r.value.changes)
              && r.value.table.readOn == (if r.value.changes == [] then existing.readOn else today)
              && Ascending(r.value.disagreements)
              && Members(r.value.disagreements) == Disputed(openrouter, litellm, openrouter.Keys + litellm.Keys)
    ensures r.Ok? ==> forall k :: IdAfter(existing.rows, openrouter, litellm, r.value.table.rows, k)
    ensures r.Ok? ==> forall k :: k in Members(r.value.disagreements) <==>
              k in openrouter && k in litellm && !SamePrice(openrouter[k], litellm[k])
  {
    hide Kept, NewRow, MovesTooFar, IsDiff, Ascending, KeyLeq, Writes, Disputed, CandidatesOf, RowMoves, RowsAfter;
    var refusal := CheckSources(openrouter, litellm);
    if refusal.Some? {
      return Err(refusal.value);
    }
    var candidates, disagreements := Gather(openrouter, litellm);
    var kept := Collapse(candidates, existing.rows.Keys);
    var written := Write(existing.rows, candidates, kept);
    if written.Err? {
      return Err(written.error);
    }
    var (rows, changes) := written.value;
    if k :| k in rows && !Positive(rows[k]) {
      return Err(NoPrice(k));
    }
    forall k
      ensures IdAfter(existing.rows, openrouter, litellm, rows, k)
      ensures k in Members(disagreements) <==>
                k in openrouter && k in litellm && !SamePrice(openrouter[k], litellm[k])
    {
      TableAfter(existing.rows, openrouter, litellm, k);
      DisputedApart(openrouter, litellm, k);
    }
    return Ok(Merged(Table(if changes == [] then existing.readOn else today, rows), changes, disagreements));
  }
}
