/** The unit-priced rows: every row a person wrote kept as written, then the fetched rows for the
    models no person priced, each keeping the day it was first read while it does not move. */
module UnitRows {
  import opened Order
  import opened Sets

  const LITELLM := "litellm"

  datatype UnitRow = UnitRow(provider: string, prefix: string, unit: string, usd: real, source: string,
                             checkedOn: string)

  datatype UnitChange = Moved(was: UnitRow, row: UnitRow) | New(row: UnitRow) | Dropped(key: Key)

  function KeyOf(r: UnitRow): Key {
    Key(r.provider, r.prefix)
  }

  function Manual(rows: seq<UnitRow>): seq<UnitRow> {
    if rows == [] then []
    else (if rows[0].source != LITELLM then [rows[0]] else []) + Manual(rows[1..])
  }

  /** LiteLLM's rows of before by key, the last of a key winning. */
  function Earlier(rows: seq<UnitRow>): map<Key, UnitRow> {
    if rows == [] then map[]
    else
      var row := rows[|rows| - 1];
      var rest := Earlier(rows[..|rows| - 1]);
      if row.source == LITELLM then rest[KeyOf(row) := row] else rest
  }

  predicate ByHand(manual: seq<UnitRow>, k: Key) {
    exists i | 0 <= i < |manual| :: KeyOf(manual[i]) == k
  }

  predicate Unmoved(earlier: map<Key, UnitRow>, row: UnitRow) {
    KeyOf(row) in earlier && earlier[KeyOf(row)].unit == row.unit && earlier[KeyOf(row)].usd == row.usd
  }

  function Dated(earlier: map<Key, UnitRow>, row: UnitRow): UnitRow {
    if Unmoved(earlier, row) then row.(checkedOn := earlier[KeyOf(row)].checkedOn) else row
  }

  function Fetched(manual: seq<UnitRow>, earlier: map<Key, UnitRow>, recent: seq<UnitRow>): seq<UnitRow> {
    if recent == [] then []
    else Fetched(manual, earlier, recent[..|recent| - 1])
         + (var row := recent[|recent| - 1]; if ByHand(manual, KeyOf(row)) then [] else [Dated(earlier, row)])
  }

  function Changes(manual: seq<UnitRow>, earlier: map<Key, UnitRow>, recent: seq<UnitRow>): seq<UnitChange> {
    if recent == [] then []
    else Changes(manual, earlier, recent[..|recent| - 1])
         + (var row := recent[|recent| - 1];
            if ByHand(manual, KeyOf(row)) || Unmoved(earlier, row) then []
            else if KeyOf(row) in earlier then [Moved(earlier[KeyOf(row)], row)]
            else [New(row)])
  }

  function Priced(manual: seq<UnitRow>, recent: seq<UnitRow>): set<Key> {
    set i | 0 <= i < |recent| && !ByHand(manual, KeyOf(recent[i])) :: KeyOf(recent[i])
  }

  function After(existing: seq<UnitRow>, recent: seq<UnitRow>): seq<UnitRow> {
    Manual(existing) + Fetched(Manual(existing), Earlier(existing), recent)
  }

  function Gone(keys: seq<Key>): seq<UnitChange> {
    seq(|keys|, i requires 0 <= i < |keys| => Dropped(keys[i]))
  }

  /** `merge_units`. */
  method MergeUnits(existing: seq<UnitRow>, recent: seq<UnitRow>)
    returns (rows: seq<UnitRow>, changes: seq<UnitChange>, ghost dropped: seq<Key>)
    ensures rows == After(existing, recent)
    ensures Ascending(dropped) && Members(dropped) == Earlier(existing).Keys - Priced(Manual(existing), recent)
    ensures changes == Changes(Manual(existing), Earlier(existing), recent) + Gone(dropped)
    ensures RowsAs(existing, recent, rows)
    ensures |dropped| <= |changes| && LinesAs(existing, recent, changes[..|changes| - |dropped|])
    ensures changes[|changes| - |dropped|..] == Gone(dropped)
    ensures forall k :: k in Members(dropped) <==> IsDropped(existing, recent, k)
  {
    hide RowsAs, LinesAs;
    hide Manual, Earlier, ByHand, Priced;
    var manual, earlier := Manual(existing), Earlier(existing);
    rows, changes := manual, [];
    var kept: set<Key> := {};
    var i := 0;
    NonePriced(manual);
    while i < |recent|
      invariant i <= |recent|
      invariant rows == manual + Fetched(manual, earlier, recent[..i])
      invariant changes == Changes(manual, earlier, recent[..i])
      invariant kept == Priced(manual, recent[..i])
    {
      var row := recent[i];
      OneMorePriced(manual, recent, i);
      OneMoreRow(manual, earlier, recent, i);
      if !ByHand(manual, KeyOf(row)) {
        if KeyOf(row) in earlier {
          var before := earlier[KeyOf(row)];
          if before.unit == row.unit && before.usd == row.usd {
            rows := rows + [row.(checkedOn := before.checkedOn)];
          } else {
            rows, changes := rows + [row], changes + [Moved(before, row)];
          }
        } else {
          rows, changes := rows + [row], changes + [New(row)];
        }
        kept := kept + {KeyOf(row)};
      }
      i := i + 1;
    }
    assert recent[..i] == recent;
    var lines;
    lines, dropped := DropLines(earlier.Keys - kept);
    changes := changes + lines;
    UnitsAre(existing, recent);
    forall k ensures k in Members(dropped) <==> IsDropped(existing, recent, k) {
      DroppedIs(existing, recent, k);
    }
    hide IsDropped;
    assert changes[..|changes| - |dropped|] == Changes(manual, earlier, recent);
  }

  lemma NonePriced(manual: seq<UnitRow>)
    ensures Priced(manual, []) == {}
  {
  }

  lemma OneMoreRow(manual: seq<UnitRow>, earlier: map<Key, UnitRow>, recent: seq<UnitRow>, i: nat)
    requires i < |recent|
    ensures Fetched(manual, earlier, recent[..i + 1]) ==
            Fetched(manual, earlier, recent[..i]) + if ByHand(manual,
                                                              KeyOf(recent[i])) then [] else [Dated(earlier, recent[i])]
    ensures Changes(manual, earlier, recent[..i + 1]) ==
            Changes(manual, earlier, recent[..i]) +
            if ByHand(manual, KeyOf(recent[i])) || Unmoved(earlier, recent[i]) then []
            else if KeyOf(recent[i]) in earlier then [Moved(earlier[KeyOf(recent[i])], recent[i])]
            else [New(recent[i])]
  {
    assert recent[..i + 1][..i] == recent[..i];
  }

  /** A line for each of LiteLLM's rows it no longer prices, in key order. */
  method DropLines(keys: set<Key>) returns (lines: seq<UnitChange>, ghost dropped: seq<Key>)
    ensures Ascending(dropped) && Members(dropped) == keys && lines == Gone(dropped)
  {
    hide KeyLeq, Ascending, Members;
    var left := keys;
    lines, dropped := [], [];
    NoKeys();
    while left != {}
      invariant left <= keys
      invariant Ascending(dropped) && Members(dropped) == keys - left
      invariant forall j, k | j in keys - left && k in left :: KeyLeq(j, k)
      invariant lines == Gone(dropped)
      decreases |left|
    {
      var key := NextKey(left);
      AppendedLater(dropped, key);
      dropped := dropped + [key];
      lines := lines + [Dropped(key)];
      left := left - {key};
    }
  }

  lemma NoKeys()
    ensures Ascending([]) && Members([]) == {}
  {
  }

  lemma OneMorePriced(manual: seq<UnitRow>, recent: seq<UnitRow>, i: nat)
    requires i < |recent|
    ensures Priced(manual, recent[..i + 1]) ==
            Priced(manual, recent[..i]) + if ByHand(manual, KeyOf(recent[i])) then {} else {KeyOf(recent[i])}
  {
    var more := recent[..i + 1];
    assert forall j | 0 <= j < i :: more[j] == recent[..i][j];
    assert more[i] == recent[i];
  }

  // ---- Row by row ----

  predicate SameModel(a: UnitRow, b: UnitRow) {
    a.provider == b.provider && a.prefix == b.prefix
  }

  /** The last row of before that was read from LiteLLM for this row's model. */
  ghost predicate LastRead(existing: seq<UnitRow>, row: UnitRow, i: nat) {
    && i < |existing| && existing[i].source == "litellm" && SameModel(existing[i], row)
    && forall j :: i < j < |existing| ==> !(existing[j].source == "litellm" && SameModel(existing[j], row))
  }

  predicate SamePrice(a: UnitRow, b: UnitRow) {
    a.unit == b.unit && a.usd == b.usd
  }

  /** A row that does not move keeps the day it was last read; any other is as fetched. */
  ghost predicate DatedAs(existing: seq<UnitRow>, row: UnitRow, now: UnitRow) {
    && (forall i: nat :: LastRead(existing, row, i) ==>
          now == if SamePrice(existing[i], row) then row.(checkedOn := existing[i].checkedOn) else row)
    && ((forall i: nat :: !LastRead(existing, row, i)) ==> now == row)
  }

  /** A person wrote a row for this row's model. */
  ghost predicate Written(existing: seq<UnitRow>, row: UnitRow) {
    exists i :: 0 <= i < |existing| && existing[i].source != "litellm" && SameModel(existing[i], row)
  }

  ghost predicate Stays(existing: seq<UnitRow>, row: UnitRow) {
    exists i: nat :: LastRead(existing, row, i) && SamePrice(existing[i], row)
  }

  /** The rows a person wrote, in order and as they were; then the fetched rows of the models no person
      priced, in order, each dated. */
  ghost predicate RowsAs(existing: seq<UnitRow>, recent: seq<UnitRow>, rows: seq<UnitRow>) {
    exists at, hand, on, mine ::
      && TakenAt(existing, at, hand) && TakenAt(recent, on, mine) && |rows| == |hand| + |mine|
      && (forall i: nat :: i in at <==> i < |existing| && existing[i].source != "litellm")
      && (forall i: nat :: i in on <==> i < |recent| && !Written(existing, recent[i]))
      && rows[..|hand|] == hand
      && forall k :: 0 <= k < |mine| ==> DatedAs(existing, mine[k], rows[|hand| + k])
  }

  /** One line for each fetched row of a model no person priced that is new or moves, in order. */
  ghost predicate LinesAs(existing: seq<UnitRow>, recent: seq<UnitRow>, lines: seq<UnitChange>) {
    exists on, mine ::
      && TakenAt(recent, on, mine) && |lines| == |mine|
      && (forall i: nat :: i in on <==>
            i < |recent| && !Written(existing, recent[i]) && !Stays(existing, recent[i]))
      && forall k :: 0 <= k < |mine| ==> LineAs(existing, mine[k], lines[k])
  }

  ghost predicate LineAs(existing: seq<UnitRow>, row: UnitRow, line: UnitChange) {
    match line
    case Moved(was, now) => now == row && exists i: nat :: LastRead(existing, row, i) && was == existing[i]
    case New(now) => now == row && forall i: nat :: !LastRead(existing, row, i)
    case Dropped(_) => false
  }

  lemma {:induction false} HandIs(rows: seq<UnitRow>) returns (at: seq<nat>)
    ensures TakenAt(rows, at, Manual(rows))
    ensures forall i: nat :: i in at <==> i < |rows| && rows[i].source != "litellm"
    decreases |rows|
  {
    if rows == [] {
      at := [];
    } else {
      var rest := HandIs(rows[1..]);
      var take := rows[0].source != "litellm";
      TakenWithFirst(rows, rest, Manual(rows[1..]), take);
      at := if take then [0] + Later(rest) else Later(rest);
      forall i: nat ensures i in at <==> i < |rows| && rows[i].source != "litellm" {
        LaterMembers(rest, i);
        assert 0 < i < |rows| ==> rows[i] == rows[1..][i - 1];
      }
    }
  }

  lemma {:induction false} EarlierIs(existing: seq<UnitRow>, row: UnitRow)
    ensures KeyOf(row) in Earlier(existing) <==> exists i: nat :: LastRead(existing, row, i)
    ensures forall i: nat :: LastRead(existing, row, i) ==> Earlier(existing)[KeyOf(row)] == existing[i]
    decreases |existing|
  {
    if existing != [] {
      var n := |existing| - 1;
      var last, most := existing[n], existing[..n];
      EarlierIs(most, row);
      assert forall j | 0 <= j < n :: most[j] == existing[j];
      var here := last.source == "litellm" && SameModel(last, row);
      assert KeyOf(last) == KeyOf(row) <==> SameModel(last, row);
      if here {
        assert LastRead(existing, row, n);
        assert forall i: nat :: LastRead(existing, row, i) ==> i == n;
      } else {
        assert forall i: nat :: LastRead(existing, row, i) <==> LastRead(most, row, i);
      }
    }
  }

  lemma ByHandIs(existing: seq<UnitRow>, row: UnitRow)
    ensures ByHand(Manual(existing), KeyOf(row)) <==> Written(existing, row)
  {
    var at := HandIs(existing);
    var hand := Manual(existing);
    if Written(existing, row) {
      var i :| 0 <= i < |existing| && existing[i].source != "litellm" && SameModel(existing[i], row);
      assert i in at;
      var k :| 0 <= k < |at| && at[k] == i;
      assert KeyOf(hand[k]) == KeyOf(row);
    }
    if ByHand(hand, KeyOf(row)) {
      var k :| 0 <= k < |hand| && KeyOf(hand[k]) == KeyOf(row);
      assert at[k] in at && SameModel(existing[at[k]], row);
    }
  }

  lemma DatedIs(existing: seq<UnitRow>, row: UnitRow)
    ensures DatedAs(existing, row, Dated(Earlier(existing), row))
    ensures Unmoved(Earlier(existing), row) <==> Stays(existing, row)
  {
    EarlierIs(existing, row);
    hide Earlier;
    if KeyOf(row) in Earlier(existing) {
      var i: nat :| LastRead(existing, row, i);
      assert forall j: nat :: LastRead(existing, row, j) ==> j == i;
    }
  }

  lemma {:induction false} FetchedAre(existing: seq<UnitRow>, recent: seq<UnitRow>)
    returns (on: seq<nat>, mine: seq<UnitRow>)
    ensures TakenAt(recent, on, mine)
    ensures forall i: nat :: i in on <==> i < |recent| && !Written(existing, recent[i])
    ensures var rows := Fetched(Manual(existing), Earlier(existing), recent);
            |rows| == |mine| && forall k :: 0 <= k < |mine| ==> DatedAs(existing, mine[k], rows[k])
    decreases |recent|
  {
    if recent == [] {
      on, mine := [], [];
    } else {
      var n := |recent| - 1;
      var row := recent[n];
      on, mine := FetchedAre(existing, recent[..n]);
      DatedIs(existing, row);
      NextRow(existing, recent);
      hide Written, DatedAs, Fetched, Dated, Earlier, Manual, TakenAt;
      TakenLast(recent, on, mine, n);
      assert forall i | 0 <= i < n :: recent[..n][i] == recent[i];
      if !Written(existing, row) {
        on, mine := on + [n], mine + [row];
      }
    }
  }

  lemma {:induction false} ChangesAre(existing: seq<UnitRow>, recent: seq<UnitRow>)
    returns (on: seq<nat>, mine: seq<UnitRow>)
    ensures TakenAt(recent, on, mine)
    ensures forall i: nat :: i in on <==> i < |recent| && !Written(existing, recent[i]) && !Stays(existing, recent[i])
    ensures var lines := Changes(Manual(existing), Earlier(existing), recent);
            |lines| == |mine| && forall k :: 0 <= k < |mine| ==> LineAs(existing, mine[k], lines[k])
    decreases |recent|
  {
    if recent == [] {
      on, mine := [], [];
    } else {
      var n := |recent| - 1;
      var row := recent[n];
      on, mine := ChangesAre(existing, recent[..n]);
      LineIs(existing, row);
      NextRow(existing, recent);
      hide Written, Stays, LineAs, Changes, Earlier, Manual, TakenAt;
      TakenLast(recent, on, mine, n);
      assert forall i | 0 <= i < n :: recent[..n][i] == recent[i];
      if !Written(existing, row) && !Stays(existing, row) {
        on, mine := on + [n], mine + [row];
      }
    }
  }

  lemma LineIs(existing: seq<UnitRow>, row: UnitRow)
    ensures KeyOf(row) in Earlier(existing) ==> LineAs(existing, row, Moved(Earlier(existing)[KeyOf(row)], row))
    ensures KeyOf(row) !in Earlier(existing) ==> LineAs(existing, row, New(row))
  {
    EarlierIs(existing, row);
    hide Earlier;
  }

  /** A model LiteLLM priced before and does not now, unless for one a person prices. */
  ghost predicate IsDropped(existing: seq<UnitRow>, recent: seq<UnitRow>, k: Key) {
    && (exists i :: 0 <= i < |existing| && existing[i].source == "litellm" && KeyOf(existing[i]) == k)
    && !exists i :: 0 <= i < |recent| && !Written(existing, recent[i]) && KeyOf(recent[i]) == k
  }

  lemma DroppedIs(existing: seq<UnitRow>, recent: seq<UnitRow>, k: Key)
    ensures k in Earlier(existing).Keys - Priced(Manual(existing), recent) <==> IsDropped(existing, recent, k)
  {
    KeysRead(existing, k);
    forall i | 0 <= i < |recent| ensures ByHand(Manual(existing), KeyOf(recent[i])) <==> Written(existing, recent[i]) {
      ByHandIs(existing, recent[i]);
    }
    hide Written, ByHand, Earlier, Manual;
  }

  lemma {:induction false} KeysRead(existing: seq<UnitRow>, k: Key)
    ensures k in Earlier(existing) <==>
              exists i :: 0 <= i < |existing| && existing[i].source == "litellm" && KeyOf(existing[i]) == k
    decreases |existing|
  {
    if existing != [] {
      KeysRead(existing[..|existing| - 1], k);
      assert forall j | 0 <= j < |existing| - 1 :: existing[..|existing| - 1][j] == existing[j];
    }
  }

  lemma TakenLast(recent: seq<UnitRow>, on: seq<nat>, mine: seq<UnitRow>, n: nat)
    requires n < |recent| && TakenAt(recent[..n], on, mine)
    ensures TakenAt(recent, on, mine) && TakenAt(recent, on + [n], mine + [recent[n]]) && |on| == |mine|
    ensures forall i: nat :: i in on + [n] <==> i in on || i == n
  {
  }

  lemma NextRow(existing: seq<UnitRow>, recent: seq<UnitRow>)
    requires recent != []
    ensures var n, manual, earlier := |recent| - 1, Manual(existing), Earlier(existing);
            var row := recent[n];
            && Fetched(manual, earlier, recent)
               == Fetched(manual, earlier, recent[..n]) + (if Written(existing, row) then [] else [Dated(earlier, row)])
            && Changes(manual, earlier, recent)
               == Changes(manual, earlier, recent[..n])
                  + (if Written(existing, row) || Stays(existing, row) then []
                     else if KeyOf(row) in earlier then [Moved(earlier[KeyOf(row)], row)]
                     else [New(row)])
  {
    var n := |recent| - 1;
    ByHandIs(existing, recent[n]);
    DatedIs(existing, recent[n]);
    OneMoreRow(Manual(existing), Earlier(existing), recent, n);
    assert recent[..n + 1] == recent;
    hide *;
  }

  /** What a merge leaves and prints is that. */
  lemma UnitsAre(existing: seq<UnitRow>, recent: seq<UnitRow>)
    ensures RowsAs(existing, recent, After(existing, recent))
    ensures LinesAs(existing, recent, Changes(Manual(existing), Earlier(existing), recent))
  {
    var at := HandIs(existing);
    var on, mine := FetchedAre(existing, recent);
    var moved, rows := ChangesAre(existing, recent);
    hide Written, Stays, LineAs, DatedAs, Manual, Earlier, Fetched, Changes;
    var hand := Manual(existing);
    assert After(existing, recent)[..|hand|] == hand;
  }

  // ---- A second refresh ----

  ghost predicate OneAModel(recent: seq<UnitRow>) {
    forall i, j :: 0 <= i < j < |recent| ==> KeyOf(recent[i]) != KeyOf(recent[j])
  }

  lemma {:induction false} ManualOfBoth(a: seq<UnitRow>, b: seq<UnitRow>)
    ensures Manual(a + b) == Manual(a) + Manual(b)
  {
    if a == [] {
      assert a + b == b;
    } else {
      assert (a + b)[1..] == a[1..] + b;
      ManualOfBoth(a[1..], b);
    }
  }

  lemma ManualTwice(rows: seq<UnitRow>)
    ensures Manual(Manual(rows)) == Manual(rows)
    ensures Earlier(Manual(rows)) == map[]
    ensures forall r | r in Manual(rows) :: r.source != LITELLM
  {
    hide *;
    ManualIsByHand(rows);
    AllByHand(Manual(rows));
    NoneEarlier(Manual(rows));
  }

  lemma {:induction false} ManualIsByHand(rows: seq<UnitRow>)
    ensures forall r | r in Manual(rows) :: r.source != LITELLM
  {
    if rows != [] {
      ManualIsByHand(rows[1..]);
    }
  }

  lemma {:induction false} AllByHand(rows: seq<UnitRow>)
    requires forall r | r in rows :: r.source != LITELLM
    ensures Manual(rows) == rows
  {
    if rows != [] {
      AllByHand(rows[1..]);
    }
  }

  lemma {:induction false} NoneEarlier(rows: seq<UnitRow>)
    requires forall r | r in rows :: r.source != LITELLM
    ensures Earlier(rows) == map[]
  {
    if rows != [] {
      NoneEarlier(rows[..|rows| - 1]);
    }
  }

  /** No fetched row counts as a person's. */
  lemma {:induction false} FetchedNotManual(manual: seq<UnitRow>, earlier: map<Key, UnitRow>, recent: seq<UnitRow>)
    requires forall i :: 0 <= i < |recent| ==> recent[i].source == LITELLM
    ensures Manual(Fetched(manual, earlier, recent)) == []
  {
    if recent != [] {
      var i := |recent| - 1;
      FetchedNotManual(manual, earlier, recent[..i]);
      OneMoreRow(manual, earlier, recent, i);
      assert recent[..i + 1] == recent;
      var row := Dated(earlier, recent[i]);
      assert Manual([row]) == [];
      ManualOfBoth(Fetched(manual, earlier, recent[..i]), [row]);
      assert Fetched(manual, earlier, recent[..i]) + [] == Fetched(manual, earlier, recent[..i]);
    }
  }

  /** The fetched rows are one for each model no person priced. */
  lemma {:induction false} FetchedIs(base: seq<UnitRow>, manual: seq<UnitRow>, earlier: map<Key, UnitRow>,
                                     recent: seq<UnitRow>)
    requires forall i :: 0 <= i < |recent| ==> recent[i].source == LITELLM
    requires OneAModel(recent)
    ensures EarlierAfter(base, manual, earlier, recent)
  {
    if recent == [] {
      NonePriced(manual);
      assert base + Fetched(manual, earlier, recent) == base;
    } else {
      var i := |recent| - 1;
      FetchedIs(base, manual, earlier, recent[..i]);
      assert recent[..i + 1] == recent;
      EarlierOneMore(base, manual, earlier, recent, i);
    }
  }

  lemma EarlierOneMore(base: seq<UnitRow>, manual: seq<UnitRow>, earlier: map<Key, UnitRow>, recent: seq<UnitRow>,
                       i: nat)
    requires i < |recent| && recent[i].source == LITELLM && OneAModel(recent)
    requires EarlierAfter(base, manual, earlier, recent[..i])
    ensures EarlierAfter(base, manual, earlier, recent[..i + 1])
  {
    hide ByHand, Earlier, Priced, Fetched;
    var row, part, more := recent[i], Fetched(manual, earlier, recent[..i]), recent[..i + 1];
    OneMoreRow(manual, earlier, recent, i);
    OneMorePriced(manual, recent, i);
    if ByHand(manual, KeyOf(row)) {
      assert part + [] == part;
    } else {
      OneMoreEarlier(base + part, Dated(earlier, row));
      assert base + (part + [Dated(earlier, row)]) == (base + part) + [Dated(earlier, row)];
    }
    var now := Earlier(base + Fetched(manual, earlier, more));
    forall j | 0 <= j < |more| && !ByHand(manual, KeyOf(more[j]))
      ensures KeyOf(more[j]) in now && now[KeyOf(more[j])] == Dated(earlier, more[j])
    {
      if j < i {
        assert more[j] == recent[..i][j];
      }
    }
  }

  lemma OneMoreEarlier(rows: seq<UnitRow>, row: UnitRow)
    requires row.source == LITELLM
    ensures Earlier(rows + [row]) == Earlier(rows)[KeyOf(row) := row]
  {
    assert (rows + [row])[..|rows|] == rows;
  }

  /** What the rows fetched, put after `base`, are by key. */
  ghost predicate EarlierAfter(base: seq<UnitRow>, manual: seq<UnitRow>, earlier: map<Key, UnitRow>,
                               recent: seq<UnitRow>) {
    var now := Earlier(base + Fetched(manual, earlier, recent));
    && now.Keys == Earlier(base).Keys + Priced(manual, recent)
    && forall i | 0 <= i < |recent| && !ByHand(manual, KeyOf(recent[i])) ::
         KeyOf(recent[i]) in now && now[KeyOf(recent[i])] == Dated(earlier, recent[i])
  }

  lemma {:induction false} FetchedAgain(manual: seq<UnitRow>, earlier: map<Key, UnitRow>, again: map<Key, UnitRow>,
                                        recent: seq<UnitRow>)
    requires forall i | 0 <= i < |recent| && !ByHand(manual, KeyOf(recent[i])) ::
               KeyOf(recent[i]) in again && again[KeyOf(recent[i])] == Dated(earlier, recent[i])
    ensures Fetched(manual, again, recent) == Fetched(manual, earlier, recent)
    ensures Changes(manual, again, recent) == []
  {
    if recent != [] {
      var most := recent[..|recent| - 1];
      forall i | 0 <= i < |most| ensures most[i] == recent[i] {}
      FetchedAgain(manual, earlier, again, most);
    }
  }

  /** Merged again with the same fetched rows, one a model, the unit rows stay as they are and no
      line is printed for any of them. */
  lemma UnitsTwice(existing: seq<UnitRow>, recent: seq<UnitRow>)
    requires OneAModel(recent) && forall r | r in recent :: r.source == LITELLM
    ensures var rows := After(existing, recent);
            && After(rows, recent) == rows
            && Changes(Manual(rows), Earlier(rows), recent) == []
            && Earlier(rows).Keys - Priced(Manual(rows), recent) == {}
  {
    var manual, earlier := Manual(existing), Earlier(existing);
    var part := Fetched(manual, earlier, recent);
    ManualTwice(existing);
    FetchedNotManual(manual, earlier, recent);
    FetchedIs(manual, manual, earlier, recent);
    ManualOfBoth(manual, part);
    assert Manual(manual + part) == manual;
    assert EarlierAfter(manual, manual, earlier, recent);
    FetchedAgain(manual, earlier, Earlier(manual + part), recent);
  }
}
