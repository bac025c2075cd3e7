/** The change list every table refresh prints: what it says of the table before and after. */
module Diff {
  import opened Order

  datatype Change<R> = Added(key: Key, row: R) | Changed(key: Key, was: R, row: R)

  ghost function Keys<R>(changes: seq<Change<R>>): seq<Key> {
    seq(|changes|, i requires 0 <= i < |changes| => changes[i].key)
  }

  /** One entry for each row that is new or differs, in key order, and no other. */
  ghost predicate IsDiff<R>(before: map<Key, R>, after: map<Key, R>, changes: seq<Change<R>>) {
    && Ascending(Keys(changes))
    && (forall i :: 0 <= i < |changes| ==> IsChange(before, after, changes[i]))
    && forall k :: k in after && (k !in before || before[k] != after[k]) ==> k in Members(Keys(changes))
  }

  ghost predicate IsChange<R>(before: map<Key, R>, after: map<Key, R>, c: Change<R>) {
    && c.key in after && c.row == after[c.key]
    && match c
       case Added(k, _) => k !in before
       case Changed(k, was, row) => k in before && was == before[k] && was != row
  }

  function Apply<R>(rows: map<Key, R>, changes: seq<Change<R>>): map<Key, R> {
    if changes == [] then rows
    else Apply(rows, changes[..|changes| - 1])[changes[|changes| - 1].key := changes[|changes| - 1].row]
  }

  lemma {:induction false} ApplyAt<R>(rows: map<Key, R>, changes: seq<Change<R>>, k: Key)
    requires Ascending(Keys(changes))
    ensures k in Apply(rows, changes) <==> k in rows || k in Members(Keys(changes))
    ensures forall i :: 0 <= i < |changes| && changes[i].key == k ==>
              k in Apply(rows, changes) && Apply(rows, changes)[k] == changes[i].row
    ensures k in rows && k !in Members(Keys(changes)) ==> Apply(rows, changes)[k] == rows[k]
    decreases |changes|
  {
    if changes != [] {
      var most, last := changes[..|changes| - 1], changes[|changes| - 1];
      assert Keys(most) == Keys(changes)[..|changes| - 1];
      ApplyAt(rows, most, k);
      LastOut(Keys(changes), k);
      forall i | 0 <= i < |changes| && changes[i].key == k
        ensures k in Apply(rows, changes) && Apply(rows, changes)[k] == changes[i].row
      {
        if i < |most| {
          assert most[i] == changes[i];
          assert Keys(changes)[i] != Keys(changes)[|changes| - 1];
        }
      }
      assert k == last.key ==> Keys(changes)[|changes| - 1] == k;
    }
  }

  /** Applied to the table before, the change list gives the table after, when no row was dropped. */
  lemma DiffApplies<R>(before: map<Key, R>, after: map<Key, R>, changes: seq<Change<R>>)
    requires IsDiff(before, after, changes) && before.Keys <= after.Keys
    ensures Apply(before, changes) == after
  {
    forall k
      ensures k in Apply(before, changes) <==> k in after
      ensures k in after ==> Apply(before, changes)[k] == after[k]
    {
      ApplyAt(before, changes, k);
      if k in Members(Keys(changes)) {
        var i :| 0 <= i < |changes| && Keys(changes)[i] == k;
        assert changes[i].key == k;
      }
    }
  }

  /** Nothing is listed exactly when nothing changed. */
  lemma NoDiff<R>(before: map<Key, R>, after: map<Key, R>, changes: seq<Change<R>>)
    requires IsDiff(before, after, changes) && before.Keys <= after.Keys
    ensures changes == [] <==> before == after
  {
    if changes != [] {
      assert IsChange(before, after, changes[0]);
    } else {
      NoMembers(Keys(changes));
      assert forall k | k in after :: k in before && before[k] == after[k];
      assert before.Keys == after.Keys;
    }
  }

  /** A refresh that has gone through the keys of `done`, all before `k`, adds what it did at `k`. */
  lemma DiffGrows<R>(before: map<Key, R>, rows: map<Key, R>, changes: seq<Change<R>>, k: Key, row: R)
    requires IsDiff(before, rows, changes)
    requires forall i :: 0 <= i < |changes| ==> KeyLeq(changes[i].key, k) && changes[i].key != k
    requires k in rows <==> k in before
    requires k in before ==> rows[k] == before[k] && row != before[k]
    ensures var c := if k in before then Changed(k, before[k], row) else Added(k, row);
            IsDiff(before, rows[k := row], changes + [c])
  {
    var c := if k in before then Changed(k, before[k], row) else Added(k, row);
    var more := changes + [c];
    assert Keys(more) == Keys(changes) + [k];
    forall i | 0 <= i < |changes|
      ensures KeyLeq(Keys(changes)[i], k) && Keys(changes)[i] != k
    {
      assert Keys(changes)[i] == changes[i].key;
    }
    AscendingAppended(Keys(changes), k);
    forall i | 0 <= i < |more|
      ensures IsChange(before, rows[k := row], more[i])
    {
      if i < |changes| {
        assert IsChange(before, rows, changes[i]);
        assert more[i] == changes[i];
      }
    }
  }
}
