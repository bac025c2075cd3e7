/** What a price refresh leaves behind: a second one on the same sources does nothing, no row is lost
    or a person's row touched, and what figures are written. */
module PriceLaws {
  import opened Wrappers
  import opened Order
  import opened Diff
  import opened Refresh
  import opened Prices

  /** The rows a refresh leaves, refreshed again from the same sources, are the same rows; and the
      second refresh is never refused. The ids kept are the same although the ids the file has
      are now others. */
  lemma RefreshTwice(rows: Rows, openrouter: map<Key, Rate>, litellm: map<Key, Rate>)
    requires GoesAhead(rows, openrouter, litellm)
    ensures var after := RowsAfter(rows, CandidatesOf(openrouter, litellm));
            GoesAhead(after, openrouter, litellm) && RowsAfter(after, CandidatesOf(openrouter, litellm)) == after
  {
    hide Kept, NewRow, MovesTooFar, Positive, CandidatesIn, KeptKeys;
    var candidates := CandidatesOf(openrouter, litellm);
    var after := RowsAfter(rows, candidates);
    RefreshAdds(rows, openrouter, litellm);
    assert after.Keys == rows.Keys + KeptKeys(candidates, rows.Keys);
    forall k | k in candidates
      ensures Kept(candidates, after.Keys, k) <==> Kept(candidates, rows.Keys, k)
    {
      CollapseAgain(candidates, rows.Keys, k);
    }
    forall k | k in candidates && Writes(after, candidates, k)
      ensures after[k] == NewRow(k, candidates[k]) && !RowMoves(after, candidates, k)
    {
      WrittenBefore(rows, candidates, k);
      SameDoesNotMove(after[k]);
    }
    assert RowsAfter(after, candidates) == after;
  }

  lemma WrittenBefore(rows: Rows, candidates: map<Key, Candidate>, k: Key)
    requires k in candidates && Kept(candidates, rows.Keys, k) && Writes(RowsAfter(rows, candidates), candidates, k)
    ensures Writes(rows, candidates, k) && k in RowsAfter(rows, candidates)
    ensures RowsAfter(rows, candidates)[k] == NewRow(k, candidates[k])
  {
    hide Kept, NewRow;
  }

  /** `cargo xtask prices` twice in a row: the second run changes nothing, not even the day. */
  method RefreshAgain(existing: Table, openrouter: map<Key, Rate>, litellm: map<Key, Rate>, today: string,
                      later: string)
    returns (first: Result<Merged, Refusal>, second: Option<Result<Merged, Refusal>>)
    ensures first.Ok? ==> second.Some? && second.value.Ok?
                          && second.value.value.table == first.value.table && second.value.value.changes == []
  {
    first := Merge(existing, openrouter, litellm, today);
    second := None;
    if first.Ok? {
      var again := Merge(first.value.table, openrouter, litellm, later);
      RefreshTwice(existing.rows, openrouter, litellm);
      NoDiff(first.value.table.rows, again.value.table.rows, again.value.changes);
      second := Some(again);
    }
  }

  /** A refresh that goes ahead loses no row, leaves a person's rows as they are, moves no other
      row's input or output more than threefold, and leaves every row a positive price. */
  lemma RefreshIsCareful(rows: Rows, openrouter: map<Key, Rate>, litellm: map<Key, Rate>, k: Key)
    requires GoesAhead(rows, openrouter, litellm) && k in rows
    ensures var after := RowsAfter(rows, CandidatesOf(openrouter, litellm));
            && k in after
            && after[k].figures.input > 0.0 && after[k].figures.output > 0.0
            && (Disagree(openrouter, litellm, k) ==> after[k] == rows[k])
            && (rows[k].source == MANUAL ==> after[k] == rows[k])
            && (Positive(rows[k]) ==>
                  && rows[k].figures.input <= 3.0 * after[k].figures.input
                  && after[k].figures.input <= 3.0 * rows[k].figures.input
                  && rows[k].figures.output <= 3.0 * after[k].figures.output
                  && after[k].figures.output <= 3.0 * rows[k].figures.output)
  {
    var candidates := CandidatesOf(openrouter, litellm);
    var after := RowsAfter(rows, candidates);
    assert k in after && Positive(after[k]);
    if k in candidates && Writes(rows, candidates, k) {
      assert !RowMoves(rows, candidates, k);
      if Positive(rows[k]) {
        NotFar(rows[k].figures.input, after[k].figures.input);
        NotFar(rows[k].figures.output, after[k].figures.output);
      }
    }
  }

  /** A figure moves too far exactly when one of the two is more than three times the other. */
  lemma FarIsThreefold(was: Row, row: Row)
    requires was.figures.input >= 0.0 && was.figures.output >= 0.0
    requires row.figures.input >= 0.0 && row.figures.output >= 0.0
    ensures MovesTooFar(was, row) <==>
            || was.figures.input > 3.0 * row.figures.input || row.figures.input > 3.0 * was.figures.input
            || was.figures.output > 3.0 * row.figures.output || row.figures.output > 3.0 * was.figures.output
  {
    FarExactly(was.figures.input, row.figures.input);
    FarExactly(was.figures.output, row.figures.output);
    hide Exceeds;
  }

  lemma FarExactly(a: real, b: real)
    requires a >= 0.0 && b >= 0.0
    ensures Exceeds(a, b) <==> a > 3.0 * b || b > 3.0 * a
  {
    if a > 0.0 && b > 0.0 {
      TimesExactly(a, b);
      TimesExactly(b, a);
    }
  }

  lemma TimesExactly(a: real, b: real)
    requires b > 0.0
    ensures a / b > 3.0 <==> a > 3.0 * b
  {
    assert a == (a / b) * b;
    if a / b > 3.0 {
      assert (a / b - 3.0) * b > 0.0;
    }
  }

  lemma NotFar(a: real, b: real)
    requires a > 0.0 && b > 0.0 && !Exceeds(a, b)
    ensures a <= 3.0 * b && b <= 3.0 * a
  {
    Times(a, b);
    Times(b, a);
  }

  lemma Times(a: real, b: real)
    requires b > 0.0 && a / b <= 3.0
    ensures a <= 3.0 * b
  {
    assert a == (a / b) * b;
  }

  /** A row is new exactly when its id was kept and the file did not have it. */
  lemma RefreshAdds(rows: Rows, openrouter: map<Key, Rate>, litellm: map<Key, Rate>)
    ensures var candidates := CandidatesOf(openrouter, litellm);
            RowsAfter(rows, candidates).Keys == rows.Keys + KeptKeys(candidates, rows.Keys)
  {
  }

  /** The change list is exact: applied to the table before, it gives the table after. */
  lemma RefreshDiffApplies(rows: Rows, openrouter: map<Key, Rate>, litellm: map<Key, Rate>, changes: seq<Change<Row>>)
    requires IsDiff(rows, RowsAfter(rows, CandidatesOf(openrouter, litellm)), changes)
    ensures Apply(rows, changes) == RowsAfter(rows, CandidatesOf(openrouter, litellm))
  {
    DiffApplies(rows, RowsAfter(rows, CandidatesOf(openrouter, litellm)), changes);
  }

  // ---- The figures written ----

  /** Rounding takes a figure to the nearest millionth, and leaves a rounded one alone. */
  lemma RoundsToNearest(v: real)
    ensures Abs(Round6(v) - v) <= 0.0000005
    ensures Round6(Round6(v)) == Round6(v)
  {
    var scaled := v * 1000000.0;
    var whole := if scaled >= 0.0 then (scaled + 0.5).Floor else -((-scaled + 0.5).Floor);
    assert Round6(v) == whole as real / 1000000.0;
    assert Abs(whole as real - scaled) <= 0.5;
    RoundsWhole(whole);
  }

  lemma RoundsWhole(n: int)
    ensures Round6(n as real / 1000000.0) == n as real / 1000000.0
  {
    assert n as real / 1000000.0 * 1000000.0 == n as real;
    if n >= 0 {
      assert (n as real + 0.5).Floor == n;
    } else {
      assert (-(n as real) + 0.5).Floor == -n;
    }
  }

  /** A cache write is never priced below input, and either cache side that no source prices, or prices
      as nothing, is priced as input is. */
  lemma ResolvedFigures(rate: Rate)
    ensures var f := rate.Resolve();
            && f.cacheWrite >= f.input
            && (rate.cacheWrite.Some? && rate.cacheWrite.value >= rate.input ==>
                  f.cacheWrite == Round6(rate.cacheWrite.value))
            && (f.cacheWrite != f.input ==> rate.cacheWrite.Some? && rate.cacheWrite.value > rate.input)
            && (f.cacheRead == if rate.cacheRead.Some?
                && rate.cacheRead.value > 0.0 then Round6(rate.cacheRead.value) else f.input)
  {
    if rate.cacheWrite.Some? {
      RoundKeepsOrder(rate.input, rate.cacheWrite.value);
      RoundKeepsOrder(rate.cacheWrite.value, rate.input);
    }
  }
}
