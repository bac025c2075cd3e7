/** The Bedrock windows refresh: model cards folded into the kept table, a thin scrape refused. A row's
    key is its id; the provider part of the key is empty. */
module BedrockWindows {
  import opened Wrappers
  import opened Order
  import opened Diff
  import opened Refresh

  datatype Row = Row(id: string, name: string, context: nat, output: nat, reasoning: bool, countTokens: bool,
                     profiles: seq<string>, source: string)

  type Rows = map<Key, Row>

  datatype Table = Table(readOn: string, rows: Rows)

  datatype Merged = Merged(table: Table, changes: seq<Change<Row>>)

  datatype Refusal = NoCards | FewCards(cards: nat, rows: nat) | Moves(key: Key)

  /** More than threefold, either way; a zero is infinitely far from anything else. */
  predicate Implausible(was: nat, now: nat) {
    was > 3 * now || now > 3 * was
  }

  predicate MovesTooFar(was: Row, row: Row) {
    Implausible(was.context, row.context) || Implausible(was.output, row.output)
  }

  predicate Stands(was: Row, row: Row) {
    was.source == MANUAL || was == row
  }

  predicate TooThin(rows: Rows, fetched: Rows) {
    |fetched| * 2 < |rows|
  }

  ghost predicate GoesAhead(rows: Rows, fetched: Rows) {
    && fetched != map[]
    && !TooThin(rows, fetched)
    && forall k | k in fetched :: !Stops(rows, fetched, Stands, MovesTooFar, k)
  }

  /** `merge`. */
  method Merge(existing: Table, fetched: Rows, today: string) returns (r: Result<Merged, Refusal>)
    ensures r.Ok? <==> GoesAhead(existing.rows, fetched)
    ensures fetched != map[] && TooThin(existing.rows, fetched) <==> r == Err(FewCards(|fetched|, |existing.rows|))
    ensures r.Ok? ==>
              && r.value.table.rows == After(existing.rows, fetched, Stands)
              && IsDiff(existing.rows, r.value.table.rows, r.value.changes)
              && r.value.table.readOn == if r.value.changes == [] then existing.readOn else today
  {
    hide After, IsDiff, Stops, MovesTooFar;
    if fetched == map[] {
      return Err(NoCards);
    }
    if |fetched| * 2 < |existing.rows| {
      return Err(FewCards(|fetched|, |existing.rows|));
    }
    var folded := Fold(existing.rows, fetched, Stands, MovesTooFar);
    if folded.Err? {
      return Err(Moves(folded.error));
    }
    var (rows, changes) := folded.value;
    return Ok(Merged(Table(if changes == [] then existing.readOn else today, rows), changes));
  }

  /** No row is dropped, a person's row stays, a row no card names stays, and a row that changes takes
      the card's, its limits within threefold of what they were. */
  lemma RefreshIsCareful(rows: Rows, fetched: Rows, k: Key)
    requires GoesAhead(rows, fetched) && k in rows
    ensures var after := After(rows, fetched, Stands);
            && k in after
            && (rows[k].source == MANUAL || k !in fetched ==> after[k] == rows[k])
            && (rows[k].source != MANUAL && k in fetched ==> after[k] == fetched[k])
            && rows[k].context <= 3 * after[k].context && after[k].context <= 3 * rows[k].context
            && rows[k].output <= 3 * after[k].output && after[k].output <= 3 * rows[k].output
  {
    if k in fetched {
      assert !Stops(rows, fetched, Stands, MovesTooFar, k);
    }
  }

  /** A card's row is new where the table had none, and the refresh adds no other. */
  lemma RefreshAdds(rows: Rows, fetched: Rows, k: Key)
    requires k !in rows
    ensures k in After(rows, fetched, Stands) <==> k in fetched
    ensures k in fetched ==> After(rows, fetched, Stands)[k] == fetched[k]
  {
  }

  /** When the refresh goes ahead: some cards are read, at least half as many as there are rows, and no
      row but a person's has a limit more than three times, or less than a third of, its card's. */
  lemma GoesAheadWhen(rows: Rows, fetched: Rows)
    ensures GoesAhead(rows, fetched) <==>
            && |fetched| > 0 && |rows| <= 2 * |fetched|
            && forall k | k in rows && k in fetched && rows[k].source != "manual" ::
                 && rows[k].context <= 3 * fetched[k].context && fetched[k].context <= 3 * rows[k].context
                 && rows[k].output <= 3 * fetched[k].output && fetched[k].output <= 3 * rows[k].output
  {
  }

  /** Merging the same cards again changes nothing, unless the rows the first merge added make twice
      the cards read too few for the table: exactly then it is refused instead. */
  lemma RefreshTwice(rows: Rows, fetched: Rows)
    requires GoesAhead(rows, fetched)
    ensures var after := After(rows, fetched, Stands);
            && After(after, fetched, Stands) == after
            && (GoesAhead(after, fetched) <==> |rows.Keys + fetched.Keys| <= 2 * |fetched|)
  {
    hide After, MovesTooFar;
    var after := After(rows, fetched, Stands);
    AfterTwice(rows, fetched, Stands);
    AfterKeys(rows, fetched);
    forall k | k in fetched
      ensures !Stops(after, fetched, Stands, MovesTooFar, k)
    {
      assert !Replaces(after, fetched, Stands, k);
    }
  }

  lemma AfterKeys(rows: Rows, fetched: Rows)
    ensures After(rows, fetched, Stands).Keys == rows.Keys + fetched.Keys
    ensures |After(rows, fetched, Stands)| == |rows.Keys + fetched.Keys|
  {
    var after := After(rows, fetched, Stands);
    assert after.Keys == rows.Keys + fetched.Keys;
    assert |after| == |after.Keys|;
  }

  /** The refresh run twice on the same cards. */
  method RefreshAgain(existing: Table, fetched: Rows, today: string, later: string)
    returns (first: Result<Merged, Refusal>, second: Option<Result<Merged, Refusal>>)
    ensures first.Ok? ==> second.Some?
    ensures first.Ok? && |existing.rows.Keys + fetched.Keys| <= 2 * |fetched| ==>
              second.value.Ok? && second.value.value.table == first.value.table && second.value.value.changes == []
    ensures first.Ok? && |existing.rows.Keys + fetched.Keys| > 2 * |fetched| ==>
              second.value == Err(FewCards(|fetched|, |existing.rows.Keys + fetched.Keys|))
  {
    first := Merge(existing, fetched, today);
    second := None;
    if first.Ok? {
      RefreshTwice(existing.rows, fetched);
      AfterKeys(existing.rows, fetched);
      var again := Merge(first.value.table, fetched, later);
      if again.Ok? {
        NoDiff(first.value.table.rows, again.value.table.rows, again.value.changes);
      }
      second := Some(again);
    }
  }

  function ARow(id: string): Row {
    Row(id, id, 1000, 100, false, false, [], "aws-model-card")
  }

  function TwoRows(): Rows {
    map[Key("", "a") := ARow("a"), Key("", "b") := ARow("b")]
  }

  function OneCard(): Rows {
    map[Key("", "c") := ARow("c")]
  }

  lemma OneCardCounts()
    ensures |TwoRows()| == 2 && |OneCard()| == 1 && |TwoRows().Keys + OneCard().Keys| == 3
    ensures TwoRows().Keys !! OneCard().Keys
  {
    assert TwoRows().Keys == {Key("", "a"), Key("", "b")} && OneCard().Keys == {Key("", "c")};
    assert TwoRows().Keys + OneCard().Keys == {Key("", "a"), Key("", "b"), Key("", "c")};
  }

  /** The refused case happens: a table of two rows and a scrape of one card, for a third model. */
  lemma SecondRefreshRefused()
    ensures GoesAhead(TwoRows(), OneCard()) && !GoesAhead(After(TwoRows(), OneCard(), Stands), OneCard())
  {
    hide TwoRows, OneCard, After, MovesTooFar;
    OneCardCounts();
    assert forall k | k in OneCard() :: k !in TwoRows();
    RefreshTwice(TwoRows(), OneCard());
  }
}
