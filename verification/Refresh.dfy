/** The fold all table refreshers end in: the fetched rows win over the kept ones, except where a
    kept row is to be left alone, and a row that would change beyond belief stops the refresh. */
module Refresh {
  import opened Wrappers
  import opened Order
  import opened Diff

  const MANUAL := "manual"

  predicate Replaces<R>(rows: map<Key, R>, fetched: map<Key, R>, keeps: (R, R) -> bool, k: Key)
    requires k in fetched
  {
    k in rows ==> !keeps(rows[k], fetched[k])
  }

  /** The rows once the fetched rows of `done` have been gone through. */
  function Once<R>(rows: map<Key, R>, fetched: map<Key, R>, keeps: (R, R) -> bool, done: set<Key>): map<Key, R> {
    rows + map k | k in done && k in fetched && Replaces(rows, fetched, keeps, k) :: fetched[k]
  }

  function After<R>(rows: map<Key, R>, fetched: map<Key, R>, keeps: (R, R) -> bool): map<Key, R> {
    Once(rows, fetched, keeps, fetched.Keys)
  }

  predicate Stops<R>(rows: map<Key, R>, fetched: map<Key, R>, keeps: (R, R) -> bool, refuses: (R, R) -> bool, k: Key)
    requires k in fetched
  {
    k in rows && !keeps(rows[k], fetched[k]) && refuses(rows[k], fetched[k])
  }

  /** A row that would be replaced by itself is kept. */
  ghost predicate KeepsSame<R(!new)>(keeps: (R, R) -> bool) {
    forall r :: keeps(r, r)
  }

  ghost predicate Applied<R>(rows: map<Key, R>, fetched: map<Key, R>, keeps: (R, R) -> bool, now: map<Key, R>,
                             changes: seq<Change<R>>, done: set<Key>) {
    && now == Once(rows, fetched, keeps, done)
    && IsDiff(rows, now, changes)
    && forall i :: 0 <= i < |changes| ==> changes[i].key in done
  }

  method Fold<R(!new)>(rows: map<Key, R>, fetched: map<Key, R>, keeps: (R, R) -> bool, refuses: (R, R) -> bool)
    returns (r: Result<(map<Key, R>, seq<Change<R>>), Key>)
    requires KeepsSame(keeps)
    ensures r.Ok? <==> forall k | k in fetched :: !Stops(rows, fetched, keeps, refuses, k)
    ensures r.Ok? ==> r.value.0 == After(rows, fetched, keeps) && IsDiff(rows, r.value.0, r.value.1)
    ensures r.Err? ==> r.error in fetched && Stops(rows, fetched, keeps, refuses, r.error)
  {
    hide Applied, IsDiff, KeyLeq, KeepsSame;
    var now, changes: seq<Change<R>> := rows, [];
    var todo := fetched.Keys;
    NoneFolded(rows, fetched, keeps);
    assert fetched.Keys - todo == {};
    while todo != {}
      invariant todo <= fetched.Keys
      invariant Applied(rows, fetched, keeps, now, changes, fetched.Keys - todo)
      invariant forall k | k in fetched.Keys - todo :: !Stops(rows, fetched, keeps, refuses, k)
      invariant forall j, k | j in fetched.Keys - todo && k in todo :: KeyLeq(j, k)
      decreases |todo|
    {
      var key := NextKey(todo);
      var row := fetched[key];
      AtNext(rows, fetched, keeps, now, changes, fetched.Keys - todo, key);
      assert fetched.Keys - (todo - {key}) == (fetched.Keys - todo) + {key};
      if key in now && keeps(now[key], row) {
      } else if key in now && refuses(now[key], row) {
        return Err(key);
      } else {
        changes := changes + [if key in now then Changed(key, now[key], row) else Added(key, row)];
        now := now[key := row];
      }
      todo := todo - {key};
    }
    assert fetched.Keys - todo == fetched.Keys;
    AllFolded(rows, fetched, keeps, now, changes);
    return Ok((now, changes));
  }

  lemma NoneFolded<R>(rows: map<Key, R>, fetched: map<Key, R>, keeps: (R, R) -> bool)
    ensures Applied(rows, fetched, keeps, rows, [], {})
  {
  }

  lemma AllFolded<R>(rows: map<Key, R>, fetched: map<Key, R>, keeps: (R, R) -> bool, now: map<Key, R>,
                     changes: seq<Change<R>>)
    requires Applied(rows, fetched, keeps, now, changes, fetched.Keys)
    ensures now == After(rows, fetched, keeps) && IsDiff(rows, now, changes)
  {
  }

  /** What the next key does to the rows: kept, or replaced or added and listed. */
  lemma AtNext<R(!new)>(rows: map<Key, R>, fetched: map<Key, R>, keeps: (R, R) -> bool, now: map<Key, R>,
                        changes: seq<Change<R>>, done: set<Key>, key: Key)
    requires KeepsSame(keeps) && Applied(rows, fetched, keeps, now, changes, done) && key in fetched
    requires forall j | j in done :: KeyLeq(j, key) && j != key
    ensures (key in now <==> key in rows) && (key in now ==> now[key] == rows[key])
    ensures key in now && keeps(now[key], fetched[key]) ==> Applied(rows, fetched, keeps, now, changes, done + {key})
    ensures !(key in now && keeps(now[key], fetched[key])) ==>
              Applied(rows, fetched, keeps, now[key := fetched[key]],
                      changes + [if key in now then Changed(key, now[key], fetched[key]) else Added(key,
                                fetched[key])], done + {key})
  {
    hide KeyLeq, IsDiff;
    var row := fetched[key];
    if key in rows && keeps(rows[key], row) {
      assert Once(rows, fetched, keeps, done + {key}) == now;
    } else {
      assert Once(rows, fetched, keeps, done + {key}) == now[key := row];
      DiffGrows(rows, now, changes, key, row);
    }
  }

  /** Folding the same rows in again finds nothing to replace. */
  lemma AfterTwice<R(!new)>(rows: map<Key, R>, fetched: map<Key, R>, keeps: (R, R) -> bool)
    requires KeepsSame(keeps)
    ensures var after := After(rows, fetched, keeps);
            After(after, fetched, keeps) == after && forall k | k in fetched :: !Replaces(after, fetched, keeps, k)
  {
    var after := After(rows, fetched, keeps);
    forall k | k in fetched
      ensures k in after && keeps(after[k], fetched[k])
    {
      assert Replaces(rows, fetched, keeps, k) ==> after[k] == fetched[k];
    }
  }
}
