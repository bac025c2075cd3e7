/** The modalities refresh: the catalogue's lists folded into the kept table, never refused. */
module Modalities {
  import opened Order
  import opened Diff
  import opened Refresh

  datatype Row = Row(provider: string, prefix: string, input: seq<string>, output: seq<string>, source: string)

  type Rows = map<Key, Row>

  datatype Table = Table(readOn: string, rows: Rows)

  datatype Merged = Merged(table: Table, changes: seq<Change<Row>>)

  /** Only the lists are compared: a row that lists the same keeps the source it has. */
  predicate Stands(was: Row, row: Row) {
    was.source == MANUAL || (was.input == row.input && was.output == row.output)
  }

  method Merge(existing: Table, fetched: Rows, today: string) returns (r: Merged)
    ensures r.table.rows == After(existing.rows, fetched, Stands)
    ensures IsDiff(existing.rows, r.table.rows, r.changes)
    ensures r.table.readOn == if r.changes == [] then existing.readOn else today
  {
    var folded := Fold(existing.rows, fetched, Stands, (was, row) => false);
    var (rows, changes) := folded.value;
    return Merged(Table(if changes == [] then existing.readOn else today, rows), changes);
  }

  /** After a merge a person's row is as it was, and so is one whose lists are the catalogue's already; any
      other fetched model's row is the catalogue's, and nothing else has changed. */
  lemma RefreshLists(rows: Rows, fetched: Rows, k: Key)
    requires k in rows || k in fetched
    ensures var after := After(rows, fetched, Stands);
            && k in after
            && after[k] == if k !in fetched then rows[k]
                           else if k !in rows then fetched[k]
                           else if rows[k].source == "manual" then rows[k]
                           else if rows[k].input == fetched[k].input && rows[k].output == fetched[k].output then rows[k]
                           else fetched[k]
  {
    assert After(rows, fetched, Stands).Keys == rows.Keys + fetched.Keys;
  }

  /** Merging the same catalogue again changes nothing, whatever the table and the catalogue. */
  method MergeAgain(existing: Table, fetched: Rows, today: string, later: string)
    returns (first: Merged, second: Merged)
    ensures second.table == first.table && second.changes == []
    ensures Apply(existing.rows, first.changes) == first.table.rows
  {
    first := Merge(existing, fetched, today);
    second := Merge(first.table, fetched, later);
    AfterTwice(existing.rows, fetched, Stands);
    NoDiff(first.table.rows, second.table.rows, second.changes);
    DiffApplies(existing.rows, first.table.rows, first.changes);
  }
}
