/** `refill`, and what `render` writes: the minimised tree with every table that leaving out
    defaults emptied given back its first key. */
module Refill {
  import opened TomlTree
  import opened Candidates
  import opened Minimise
  import opened MinimiseLaws

  /** A thinned tree never names a key, or reaches a position, that the full one lacks, so looking
      up the original of each child cannot fail. */
  function Refilled(v: Value, full: Value): (r: Value)
    requires Valid(v) && Valid(full) && Thinner(v, full)
    ensures v.Table? <==> r.Table?
    ensures v.Array? <==> r.Array?
    decreases v
  {
    match v
    case Table(order, kids) =>
      if kids == map[] then
        if full.order == [] then v
        else Table([full.order[0]], map[full.order[0] := full.kids[full.order[0]]])
      else Table(order, map k | k in kids :: Refilled(kids[k], full.kids[k]))
    case Array(items) =>
      Array(seq(|items|, i requires 0 <= i < |items| => Refilled(items[i], full.items[i])))
    case _ => v
  }

  lemma {:induction false} RefilledBetween(v: Value, full: Value)
    requires Valid(v) && Valid(full) && Thinner(v, full)
    ensures Valid(Refilled(v, full))
    ensures Thinner(v, Refilled(v, full)) && Thinner(Refilled(v, full), full)
    decreases v
  {
    var r := Refilled(v, full);
    match v
    case Table(order, kids) =>
      if kids == map[] {
        ThinnerSelf(v);
        if full.order != [] {
          var first := full.order[0];
          ThinnerSelf(full.kids[first]);
          KeepOnly(full.order, first);
          assert Keep([first], {}) == [];
          assert r.kids.Keys == {first};
        }
      } else {
        assert r.kids.Keys == kids.Keys;
        KeepAll(order, kids.Keys);
        forall k | k in kids
          ensures Valid(r.kids[k]) && Thinner(kids[k], r.kids[k]) && Thinner(r.kids[k], full.kids[k])
        {
          RefilledBetween(kids[k], full.kids[k]);
        }
      }
    case Array(items) =>
      forall i | 0 <= i < |items|
        ensures Valid(r.items[i]) && Thinner(items[i], r.items[i]) && Thinner(r.items[i], full.items[i])
      {
        RefilledBetween(items[i], full.items[i]);
      }
    case _ =>
  }

  lemma KeepOnly(order: seq<string>, first: string)
    requires Distinct(order) && order != [] && order[0] == first
    ensures Keep(order, {first}) == [first]
  {
    KeepNone(order[1..], {first});
  }

  lemma {:induction false} KeepNone(order: seq<string>, keys: set<string>)
    requires forall k :: k in order ==> k !in keys
    ensures Keep(order, keys) == []
  {
    if order != [] {
      KeepNone(order[1..], keys);
    }
  }

  /** No table of `v` is empty unless the table it came from was. */
  ghost predicate NothingEmptied(v: Value, full: Value)
    requires Thinner(v, full)
    decreases v
  {
    match v
    case Table(_, kids) =>
      && (kids == map[] ==> full.kids == map[])
      && forall k | k in kids :: NothingEmptied(kids[k], full.kids[k])
    case Array(items) => forall i | 0 <= i < |items| :: NothingEmptied(items[i], full.items[i])
    case _ => true
  }

  lemma {:induction false} NothingEmptiedSelf(v: Value)
    requires Valid(v) && Thinner(v, v)
    ensures NothingEmptied(v, v)
    decreases v
  {
    match v
    case Table(_, kids) =>
      forall k | k in kids
        ensures NothingEmptied(kids[k], kids[k])
      {
        NothingEmptiedSelf(kids[k]);
      }
    case Array(items) =>
      forall i | 0 <= i < |items|
        ensures NothingEmptied(items[i], items[i])
      {
        NothingEmptiedSelf(items[i]);
      }
    case _ =>
  }

  lemma {:induction false} RefilledNothingEmptied(v: Value, full: Value)
    requires Valid(v) && Valid(full) && Thinner(v, full)
    ensures Thinner(Refilled(v, full), full) && NothingEmptied(Refilled(v, full), full)
    decreases v
  {
    RefilledBetween(v, full);
    match v
    case Table(order, kids) =>
      if kids == map[] {
        if full.order != [] {
          var child := full.kids[full.order[0]];
          ThinnerSelf(child);
          NothingEmptiedSelf(child);
        }
      } else {
        forall k | k in kids
          ensures Thinner(Refilled(kids[k], full.kids[k]), full.kids[k])
          ensures NothingEmptied(Refilled(kids[k], full.kids[k]), full.kids[k])
        {
          RefilledNothingEmptied(kids[k], full.kids[k]);
        }
        var k :| k in kids;
        assert k in Refilled(v, full).kids;
      }
    case Array(items) =>
      forall i | 0 <= i < |items|
        ensures Thinner(Refilled(items[i], full.items[i]), full.items[i])
        ensures NothingEmptied(Refilled(items[i], full.items[i]), full.items[i])
      {
        RefilledNothingEmptied(items[i], full.items[i]);
      }
    case _ =>
  }

  /** Only emptied tables gain anything: where nothing was emptied, nothing changes. */
  lemma {:induction false} RefilledOnlyEmptied(v: Value, full: Value)
    requires Valid(v) && Valid(full) && Thinner(v, full) && NothingEmptied(v, full)
    ensures Refilled(v, full) == v
    decreases v
  {
    match v
    case Table(order, kids) =>
      if kids != map[] {
        forall k | k in kids
          ensures Refilled(kids[k], full.kids[k]) == kids[k]
        {
          RefilledOnlyEmptied(kids[k], full.kids[k]);
        }
        assert Refilled(v, full).kids == kids;
      }
    case Array(items) =>
      forall i | 0 <= i < |items|
        ensures Refilled(items[i], full.items[i]) == items[i]
      {
        RefilledOnlyEmptied(items[i], full.items[i]);
      }
      assert Refilled(v, full).items == items;
    case _ =>
  }

  /** What a refilled tree holds, one step down. */
  lemma RefilledBelow(v: Value, full: Value, step: Step)
    requires Valid(v) && Valid(full) && Thinner(v, full)
    ensures full.Table? && v.kids != map[] ==> Refilled(v, full).kids.Keys == v.kids.Keys
    ensures full.Table? && v.kids == map[] ==>
              && Refilled(v, full).kids.Keys <= full.kids.Keys
              && (full.kids == map[] ==> Refilled(v, full) == v)
              && forall k | k in Refilled(v, full).kids :: Refilled(v, full).kids[k] == full.kids[k]
    ensures Enters(v, step) ==>
              && Enters(full, step)
              && Valid(Child(v, step)) && Valid(Child(full, step)) && Thinner(Child(v, step), Child(full, step))
              && Enters(Refilled(v, full), step)
              && Child(Refilled(v, full), step) == Refilled(Child(v, step), Child(full, step))
  {
  }

  // ---- Place by place ----

  /** The same keys in the same order, as many items, or the same leaf. */
  predicate SameNode(a: Value, b: Value) {
    match a
    case Table(order, kids) => b.Table? && b.order == order && b.kids.Keys == kids.Keys
    case Array(items) => b.Array? && |b.items| == |items|
    case _ => b == a
  }

  /** `c` is the full table's first key with all it holds, and nothing else. */
  predicate IsFirstOf(c: Value, full: Value)
    requires full.Table? && full.order != []
  {
    var first := full.order[0];
    c.Table? && c.order == [first] && c.kids.Keys == {first} && first in full.kids && c.kids[first] == full.kids[first]
  }

  /** Wherever `v` has an empty table and `full` a table with keys, `w` has the first of them; everywhere
      else it has what `v` has. */
  ghost predicate FirstKeyBack(v: Value, full: Value, w: Value) {
    forall path | Leads(v, path) :: FirstBackAt(v, full, w, path)
  }

  ghost predicate FirstBackAt(v: Value, full: Value, w: Value, path: Path)
    requires Leads(v, path)
  {
    && Leads(full, path) && Leads(w, path)
    && var a, b, c := Found(v, path), Found(full, path), Found(w, path);
       if a.Table? && a.order == [] && b.Table? && b.order != [] then IsFirstOf(c, b) else SameNode(a, c)
  }

  /** That is so of the refilled tree, and of no other. */
  lemma RefilledIsFirstBack(v: Value, full: Value, w: Value)
    requires Valid(v) && Valid(full) && Thinner(v, full)
    ensures w == Refilled(v, full) <==> FirstKeyBack(v, full, w)
  {
    hide Valid, Thinner, Refilled, FirstBackAt;
    forall path | Leads(v, path) ensures FirstBackAt(v, full, Refilled(v, full), path) {
      RefilledAt(v, full, path);
    }
    if FirstKeyBack(v, full, w) {
      OnlyFirstBack(v, full, w);
    }
  }

  lemma {:induction false} RefilledAt(v: Value, full: Value, path: Path)
    requires Valid(v) && Valid(full) && Thinner(v, full) && Leads(v, path)
    ensures FirstBackAt(v, full, Refilled(v, full), path)
    decreases |path|
  {
    if path == [] {
      RefilledHere(v, full);
    } else {
      hide Valid, Thinner, Refilled, FirstBackAt;
      RefilledBelow(v, full, path[0]);
      RefilledAt(Child(v, path[0]), Child(full, path[0]), path[1..]);
      BackStep(v, full, Refilled(v, full), path);
    }
  }

  lemma RefilledHere(v: Value, full: Value)
    requires Valid(v) && Valid(full) && Thinner(v, full)
    ensures FirstBackAt(v, full, Refilled(v, full), [])
  {
    var w := Refilled(v, full);
    assert v.Table? && v.kids != map[] ==> w.kids.Keys == v.kids.Keys;
    assert v.Table? ==> (v.order == [] <==> v.kids == map[]) by {
      if v.Table? && v.order != [] {
        assert v.order[0] in v.kids;
      }
      if v.Table? && v.kids != map[] {
        var k :| k in v.kids;
      }
    }
  }

  lemma BackStep(v: Value, full: Value, w: Value, path: Path)
    requires path != [] && Leads(v, path) && Enters(full, path[0]) && Enters(w, path[0])
    ensures FirstBackAt(v, full, w, path)
            <==> FirstBackAt(Child(v, path[0]), Child(full, path[0]), Child(w, path[0]), path[1..])
  {
    hide Enters, Child, SameNode, IsFirstOf;
  }

  lemma {:induction false} OnlyFirstBack(v: Value, full: Value, w: Value)
    requires Valid(v) && Valid(full) && Thinner(v, full) && FirstKeyBack(v, full, w)
    ensures w == Refilled(v, full)
    decreases v
  {
    assert Leads(v, []) && FirstBackAt(v, full, w, []);
    OnlyHere(v, full, w);
    RefilledShape(v, full);
    hide FirstKeyBack, FirstBackAt, Valid, Thinner, Refilled;
    match v
    case Table(order, kids) =>
      if kids != map[] {
        forall k | k in kids ensures w.kids[k] == Refilled(kids[k], full.kids[k]) {
          BackBelow(v, full, w, Key(k));
          RefilledBelow(v, full, Key(k));
          OnlyFirstBack(kids[k], full.kids[k], w.kids[k]);
        }
        assert w.kids == Refilled(v, full).kids;
      }
    case Array(items) =>
      forall i | 0 <= i < |items| ensures w.items[i] == Refilled(items[i], full.items[i]) {
        BackBelow(v, full, w, Index(i));
        RefilledBelow(v, full, Index(i));
        OnlyFirstBack(items[i], full.items[i], w.items[i]);
      }
      assert w.items == Refilled(v, full).items;
    case _ =>
  }

  lemma RefilledShape(v: Value, full: Value)
    requires Valid(v) && Valid(full) && Thinner(v, full)
    ensures var r := Refilled(v, full);
            && (v.Table? && v.kids != map[] ==> r == Table(v.order, r.kids) && r.kids.Keys == v.kids.Keys)
            && (v.Array? ==> r == Array(r.items) && |r.items| == |v.items|)
            && (!v.Table? && !v.Array? ==> r == v)
  {
  }

  lemma OnlyHere(v: Value, full: Value, w: Value)
    requires Valid(v) && Valid(full) && Thinner(v, full) && Leads(v, []) && FirstBackAt(v, full, w, [])
    ensures if v.Table? && v.kids == map[] then w == Refilled(v, full) else SameNode(v, w)
  {
    RefilledHere(v, full);
    if v.Table? && v.kids == map[] && full.order != [] {
      assert w.kids == map[full.order[0] := full.kids[full.order[0]]];
    }
  }

  lemma BackBelow(v: Value, full: Value, w: Value, step: Step)
    requires FirstKeyBack(v, full, w) && Enters(v, step)
    ensures Enters(full, step) && Enters(w, step)
    ensures FirstKeyBack(Child(v, step), Child(full, step), Child(w, step))
  {
    hide FirstBackAt;
    assert [step][1..] == [];
    assert Leads(Child(v, step), []) && Leads(v, [step]) && FirstBackAt(v, full, w, [step]);
    BackReaches(v, full, w, step);
    forall path | Leads(Child(v, step), path)
      ensures FirstBackAt(Child(v, step), Child(full, step), Child(w, step), path)
    {
      var all := [step] + path;
      assert all[0] == step && all[1..] == path;
      assert Leads(v, all) && FirstBackAt(v, full, w, all);
      BackStep(v, full, w, all);
    }
  }

  lemma BackReaches(v: Value, full: Value, w: Value, step: Step)
    requires Enters(v, step) && Leads(v, [step]) && FirstBackAt(v, full, w, [step])
    ensures Enters(full, step) && Enters(w, step)
  {
  }

  /** The tree `render` writes for a file whose whole tree is `full`. */
  function Rendered(asFile: Reads, full: Value): Value
    requires Valid(full)
  {
    Refilled(Minimized(asFile, full), full)
  }

  /** What is written is the minimised tree, with the first key the full one has in each table that was
      emptied, and nothing else changed. */
  method Render(asFile: Reads, full: Value) returns (written: Value)
    requires Valid(full)
    ensures written == Rendered(asFile, full)
    ensures FirstKeyBack(Minimized(asFile, full), full, written)
  {
    var m := new Minimizer(asFile, full);
    m.Minimize();
    written := Refilled(m.value, full);
    RefilledIsFirstBack(m.value, full, written);
  }

  /** What is written reads back as the file, for any reader that reads alike between two trees it
      reads alike: the keys `refill` puts back without reading the tree again are safe. */
  lemma RenderRoundTrips(asFile: Reads, full: Value)
    requires Convex(asFile) && Valid(full) && asFile(full)
    ensures asFile(Rendered(asFile, full))
    ensures Thinner(Rendered(asFile, full), full) && NothingEmptied(Rendered(asFile, full), full)
  {
    MinimizeReads(asFile, full, {});
    var m := Minimized(asFile, full);
    RefilledBetween(m, full);
    RefilledNothingEmptied(m, full);
  }

  /** Writing what was written writes the same again, as long as a table that was emptied is one the
      writer would empty again. */
  lemma RefilledTwice(v: Value, full: Value)
    requires Valid(v) && Valid(full) && Thinner(v, full)
    ensures Thinner(Refilled(v, full), full) && Valid(Refilled(v, full))
    ensures Refilled(Refilled(v, full), full) == Refilled(v, full)
  {
    RefilledBetween(v, full);
    RefilledNothingEmptied(v, full);
    RefilledOnlyEmptied(Refilled(v, full), full);
  }

  // ---- A reader that is not constant between ----

  function Pair(): Value {
    Table(["a", "b"], map["a" := Boolean(false), "b" := Boolean(false)])
  }

  function Bare(): Value {
    Table([], map[])
  }

  /** A reader that takes two trees and no other. */
  predicate BothOrNeither(v: Value) {
    v == Bare() || v == Pair()
  }

  lemma PairCandidates(c: Candidate)
    ensures IsCandidate(Pair(), c) <==> c == Candidate([], "a") || c == Candidate([], "b")
  {
    if HasKey(Pair(), c) {
      if c.table != [] {
        NotBeneath(Child(Pair(), c.table[0]), Inner(c));
      }
    }
  }

  /** Tried together, whichever comes first, both keys go. */
  lemma BothGo(cs: seq<Candidate>)
    requires Valid(Pair()) && AllCandidates(Pair(), cs) && forall c :: c in cs <==> IsCandidate(Pair(), c)
    ensures cs != [] && RemoveAll(Pair(), cs) == Bare()
  {
    var a, b := Candidate([], "a"), Candidate([], "b");
    PairCandidates(a);
    PairCandidates(b);
    var r := RemoveAll(Pair(), cs);
    assert a in cs && b in cs;
    assert forall k :: k in r.kids ==> HasKey(r, Candidate([], k));
    assert r.kids.Keys == {};
    KeepNone(["a", "b"], {});
  }

  lemma PairIsEmptied(asFile: Reads)
    requires forall v :: asFile(v) <==> BothOrNeither(v)
    ensures Valid(Bare()) && Valid(Pair()) && Minimized(asFile, Pair()) == Bare() && Thinner(Bare(), Pair())
  {
    var found := Round(Pair(), {});
    BothGo(found);
    assert Settle(asFile, Pair(), found) == Settled(Bare(), {});
    assert Listed(Bare(), []) == [];
    assert Round(Bare(), {}) == [];
    KeepNone(["a", "b"], {});
  }

  lemma PairRefilled()
    requires Valid(Bare()) && Valid(Pair()) && Thinner(Bare(), Pair())
    ensures !BothOrNeither(Refilled(Bare(), Pair()))
  {
    assert Refilled(Bare(), Pair()).order == ["a"];
  }

  /** Not every reader has that property, and without it the keys put back can change the file: one
      that takes a table with both of its keys or with neither, and no other, gets the table emptied
      and then given one key. */
  lemma RefillNeedsConvex()
    ensures exists asFile: Reads, full: Value ::
              Valid(full) && asFile(full) && asFile(Minimized(asFile, full)) && !asFile(Rendered(asFile, full))
  {
    hide Valid, Thinner, Pair, Bare, Minimized, Refilled;
    var asFile: Reads := BothOrNeither;
    PairIsEmptied(asFile);
    PairRefilled();
    assert Rendered(asFile, Pair()) == Refilled(Bare(), Pair());
    assert asFile(Minimized(asFile, Pair()));
  }
}
