/** A reader of the kind serde derives: records of named fields, unknown keys refused, and a field
    left out read as its own default; variants named by a text or by the one key of a table; and
    short forms, where a name or a number stands for a table, and may read as the same. It meets both
    conditions the laws of `MinimiseLaws` ask of a reader, provided each default is what the field's
    own defaults add up to. */
module SchemaReader {
  import opened Wrappers
  import opened TomlTree
  import opened Candidates
  import opened Minimise
  import opened MinimiseLaws

  /** What a value was read as. `Absent` is the `None` of an optional field. */
  datatype Parsed =
    | Absent
    | Plain(leaf: Value)
    | Opaque(document: Value)
    | Items(items: seq<Parsed>)
    | Record(fields: map<string, Parsed>)
    | Mapped(entries: map<string, Parsed>)
    | Tagged(variant: string, held: Parsed)

  /** `Document` keeps a value as it is, as a JSON schema inside a blueprint is kept. `TaggedOf` is a
      choice of variants: one of `units` by its name, one of `variants` as a table of that one key.
      `read` is what a leaf is taken for, if it is one to take; `ShortOr` is a value with a short form,
      a leaf taken for what `short` makes of it, or else what `long` takes. */
  datatype Schema =
    | Leaf(read: Value -> Option<Parsed>)
    | Document
    | ListOf(element: Schema)
    | RecordOf(named: map<string, Field>)
    | MapOf(entry: Schema)
    | TaggedOf(units: set<string>, variants: map<string, Schema>)
    | ShortOr(short: Value -> Option<Parsed>, long: Schema)

  /** `absent` is what the field reads as when its key is left out, if it may be. */
  datatype Field = Field(schema: Schema, absent: Option<Parsed>)

  predicate IsLeaf(v: Value) {
    v.Boolean? || v.Text? || v.Other?
  }

  /** What a leaf is taken for: any value, but none that is not there. */
  function Taken(take: Value -> Option<Parsed>, v: Value): Option<Parsed> {
    if IsLeaf(v) && take(v) != Some(Absent) then take(v) else None
  }

  function Read(s: Schema, v: Value): Option<Parsed>
    decreases s, 0
  {
    match s
    case Leaf(read) => Taken(read, v)
    case Document => Some(Opaque(v))
    case ListOf(element) =>
      if v.Array? && forall i | 0 <= i < |v.items| :: Read(element, v.items[i]).Some?
      then Some(Items(seq(|v.items|, i requires 0 <= i < |v.items| => ReadOr(element, v.items[i]))))
      else None
    case RecordOf(named) =>
      if v.Table? && v.kids.Keys <= named.Keys && forall n | n in named :: ReadField(named[n], n, v.kids).Some?
      then Some(Record(map n | n in named :: FieldOr(named[n], n, v.kids)))
      else None
    case MapOf(entry) =>
      if v.Table? && forall k | k in v.kids :: Read(entry, v.kids[k]).Some?
      then Some(Mapped(map k | k in v.kids :: ReadOr(entry, v.kids[k])))
      else None
    case TaggedOf(units, variants) =>
      if v.Text? && v.s in units then Some(Plain(v))
      else if exists name | name in variants ::
                v.Table? && v.kids.Keys == {name} && Read(variants[name], v.kids[name]).Some?
      then var name :| name in variants && v.Table? && v.kids.Keys == {name}
          && Read(variants[name], v.kids[name]).Some?;
           Some(Tagged(name, ReadOr(variants[name], v.kids[name])))
      else None
    case ShortOr(short, long) => if Taken(short, v).Some? then Taken(short, v) else Read(long, v)
  }

  function ReadOr(s: Schema, v: Value): Parsed
    decreases s, 1
  {
    var r := Read(s, v);
    if r.Some? then r.value else Absent
  }

  function ReadField(f: Field, name: string, kids: map<string, Value>): Option<Parsed>
    decreases f, 0
  {
    if name in kids then Read(f.schema, kids[name]) else f.absent
  }

  function FieldOr(f: Field, name: string, kids: map<string, Value>): Parsed
    decreases f, 1
  {
    var r := ReadField(f, name, kids);
    if r.Some? then r.value else Absent
  }

  /** `p` is what the barest value the schema takes reads as, so thinning a value that reads as `p`
      cannot make it read as anything else. */
  ghost predicate Barest(s: Schema, p: Parsed)
    decreases s
  {
    match s
    case Leaf(_) => true
    case Document => p.Opaque? && (IsLeaf(p.document) || p.document == Array([]) || p.document == Table([], map[]))
    case ListOf(element) => p.Items? && forall q | q in p.items :: Barest(element, q)
    case RecordOf(named) =>
      && p.Record?
      && p.fields.Keys == named.Keys
      && forall n | n in named ::
           named[n].absent == Some(p.fields[n]) && (p.fields[n] == Absent || Barest(named[n].schema, p.fields[n]))
    case MapOf(_) => p == Mapped(map[])
    case TaggedOf(_, _) => p.Plain?
    case ShortOr(_, long) => Barest(long, p) || forall v | !IsLeaf(v) :: Read(long, v) != Some(p)
  }

  /** Every field's default is `None`, or what reading the barest value for the field gives. */
  ghost predicate Coherent(s: Schema)
    decreases s
  {
    match s
    case ListOf(element) => Coherent(element)
    case RecordOf(named) =>
      forall n | n in named ::
        Coherent(named[n].schema)
        && (named[n].absent.Some? && named[n].absent.value != Absent ==> Barest(named[n].schema, named[n].absent.value))
    case MapOf(entry) => Coherent(entry)
    case TaggedOf(_, variants) => forall n | n in variants :: Coherent(variants[n])
    case ShortOr(_, long) => Coherent(long)
    case _ => true
  }

  lemma NeverAbsent(s: Schema, v: Value)
    ensures Read(s, v) != Some(Absent)
  {
  }

  /** Thinning a value that reads as the barest thing there is leaves it reading as that. */
  lemma {:induction false} BarestHolds(s: Schema, u: Value, v: Value, p: Parsed)
    requires Coherent(s) && Valid(u) && Valid(v) && Thinner(u, v) && Barest(s, p) && Read(s, v) == Some(p)
    ensures Read(s, u) == Some(p)
    decreases s
  {
    hide Read;
    match s
    case Leaf(read) =>
      LeafReads(read, v, p);
      assert u == v;
    case Document =>
      DocumentReads(v, p);
      DocumentReads(u, p);
      if v.Table? {
        assert u.kids == map[];
        assert u.order == [];
      }
    case ListOf(element) =>
      ListReads(element, v, p);
      ListReads(element, u, p);
      forall i | 0 <= i < |v.items|
        ensures Read(element, u.items[i]) == Some(p.items[i])
      {
        BarestHolds(element, u.items[i], v.items[i], p.items[i]);
      }
    case RecordOf(named) =>
      RecordReads(named, v, p);
      RecordReads(named, u, p);
      forall n | n in named
        ensures ReadField(named[n], n, u.kids) == Some(p.fields[n])
      {
        assert named[n].absent == Some(p.fields[n]);
        assert ReadField(named[n], n, v.kids) == Some(p.fields[n]);
        if n in u.kids {
          NeverAbsent(named[n].schema, v.kids[n]);
          BarestHolds(named[n].schema, u.kids[n], v.kids[n], p.fields[n]);
        }
      }
    case MapOf(entry) =>
      MapReads(entry, v, p);
      MapReads(entry, u, p);
      assert v.kids.Keys == p.entries.Keys;
      assert u.kids == map[];
    case TaggedOf(units, variants) =>
      TaggedReads(units, variants, v, p);
      TaggedReads(units, variants, u, p);
    case ShortOr(short, long) =>
      ShortReads(short, long, v, p);
      ShortReads(short, long, u, p);
      ThinnerShape(u, v);
      if !IsLeaf(v) {
        BarestHolds(long, u, v, p);
      }
  }

  lemma LeafReads(take: Value -> Option<Parsed>, v: Value, p: Parsed)
    ensures Read(Leaf(take), v) == Some(p) <==> IsLeaf(v) && take(v) == Some(p) && p != Absent
  {
  }

  lemma DocumentReads(v: Value, p: Parsed)
    ensures Read(Document, v) == Some(p) <==> p == Opaque(v)
  {
  }

  lemma ListReads(element: Schema, v: Value, p: Parsed)
    ensures Read(ListOf(element), v) == Some(p) <==>
            && v.Array? && p.Items? && |p.items| == |v.items|
            && forall i | 0 <= i < |v.items| :: Read(element, v.items[i]) == Some(p.items[i])
  {
    var r := Read(ListOf(element), v);
    if v.Array? && p.Items? && |p.items| == |v.items| && r.Some? {
      if forall i | 0 <= i < |v.items| :: Read(element, v.items[i]) == Some(p.items[i]) {
        forall i | 0 <= i < |v.items|
          ensures r.value.items[i] == p.items[i]
        {
          assert r.value.items[i] == ReadOr(element, v.items[i]);
        }
        assert r.value.items == p.items;
      }
    }
  }

  lemma RecordReads(named: map<string, Field>, v: Value, p: Parsed)
    ensures Read(RecordOf(named), v) == Some(p) <==>
            && v.Table? && v.kids.Keys <= named.Keys && p.Record? && p.fields.Keys == named.Keys
            && forall n | n in named :: ReadField(named[n], n, v.kids) == Some(p.fields[n])
  {
    var r := Read(RecordOf(named), v);
    if v.Table? && v.kids.Keys <= named.Keys && p.Record? && p.fields.Keys == named.Keys && r.Some? {
      if forall n | n in named :: ReadField(named[n], n, v.kids) == Some(p.fields[n]) {
        forall n | n in named
          ensures r.value.fields[n] == p.fields[n]
        {
          assert r.value.fields[n] == FieldOr(named[n], n, v.kids);
          assert ReadField(named[n], n, v.kids) == Some(p.fields[n]);
        }
        assert r.value.fields == p.fields;
      }
    }
  }

  lemma ReadOrIs(s: Schema, v: Value)
    ensures Read(s, v).Some? ==> Read(s, v) == Some(ReadOr(s, v))
  {
    hide Read;
  }

  lemma MapReadIs(entry: Schema, v: Value)
    ensures var r := Read(MapOf(entry), v);
            && (r.Some? <==> v.Table? && forall k | k in v.kids :: Read(entry, v.kids[k]).Some?)
            && (r.Some? ==> r.value.Mapped? && r.value.entries.Keys == v.kids.Keys
                            && forall k | k in v.kids :: r.value.entries[k] == ReadOr(entry, v.kids[k]))
  {
  }

  lemma MapReads(entry: Schema, v: Value, p: Parsed)
    ensures Read(MapOf(entry), v) == Some(p) <==>
            && v.Table? && p.Mapped? && p.entries.Keys == v.kids.Keys
            && forall k | k in v.kids :: Read(entry, v.kids[k]) == Some(p.entries[k])
  {
    MapReadIs(entry, v);
    hide Read, ReadOr;
    var r := Read(MapOf(entry), v);
    if r.Some? {
      forall k | k in v.kids ensures Read(entry, v.kids[k]) == Some(r.value.entries[k]) {
        ReadOrIs(entry, v.kids[k]);
      }
      if && p.Mapped? && p.entries.Keys == v.kids.Keys
         && forall k | k in v.kids :: Read(entry, v.kids[k]) == Some(p.entries[k]) {
        assert r.value.entries == p.entries;
      }
    }
  }

  lemma TaggedReads(units: set<string>, variants: map<string, Schema>, v: Value, p: Parsed)
    ensures Read(TaggedOf(units, variants), v) == Some(p) <==>
            || (v.Text? && v.s in units && p == Plain(v))
            || (v.Table? && p.Tagged? && p.variant in variants && v.kids.Keys == {p.variant}
                && Read(variants[p.variant], v.kids[p.variant]) == Some(p.held))
  {
    var r := Read(TaggedOf(units, variants), v);
    if v.Table? && r.Some? {
      var name := r.value.variant;
      assert name in v.kids.Keys;
      assert p.Tagged? && v.kids.Keys == {p.variant} ==> p.variant == name;
      assert r.value.held == ReadOr(variants[name], v.kids[name]);
    }
  }

  lemma ShortReads(short: Value -> Option<Parsed>, long: Schema, v: Value, p: Parsed)
    ensures Read(ShortOr(short, long), v) == Some(p) <==>
              if IsLeaf(v) && short(v).Some? && short(v) != Some(Absent) then short(v) == Some(p)
              else Read(long, v) == Some(p)
  {
  }

  /** What is the same of two trees one of which is the other thinned, and what is not. */
  lemma ThinnerShape(u: Value, v: Value)
    requires Thinner(u, v)
    ensures u.Table? == v.Table? && u.Array? == v.Array? && (IsLeaf(v) ==> u == v) && (IsLeaf(u) ==> u == v)
    ensures v.Table? ==> u.kids.Keys <= v.kids.Keys
    ensures v.Array? ==> |u.items| == |v.items|
  {
  }

  lemma ThinnerBelow(u: Value, v: Value, step: Step)
    requires Valid(u) && Valid(v) && Thinner(u, v) && Enters(u, step)
    ensures Enters(v, step) && Valid(Child(u, step)) && Valid(Child(v, step)) && Thinner(Child(u, step), Child(v, step))
  {
  }

  /** A reading two trees share is the reading of every tree between them. */
  lemma {:induction false} ReadBetween(s: Schema, u: Value, w: Value, v: Value, p: Parsed)
    requires Coherent(s) && Valid(u) && Valid(w) && Valid(v) && Thinner(u, w) && Thinner(w, v)
    requires Read(s, u) == Some(p) && Read(s, v) == Some(p)
    ensures Read(s, w) == Some(p)
    decreases s, 1
  {
    hide Read, Barest, Valid, Thinner;
    ThinnerShape(u, w);
    ThinnerShape(w, v);
    match s
    case Leaf(read) =>
      LeafReads(read, u, p);
      LeafReads(read, v, p);
    case Document =>
      DocumentReads(u, p);
      DocumentReads(v, p);
      ThinnerBothWays(u, w);
    case ListOf(element) =>
      ListReads(element, u, p);
      ListReads(element, v, p);
      ListReads(element, w, p);
      forall i | 0 <= i < |v.items|
        ensures Read(element, w.items[i]) == Some(p.items[i])
      {
        ChildBetween(element, u, w, v, Index(i), p.items[i]);
      }
    case RecordOf(named) =>
      RecordReads(named, u, p);
      RecordReads(named, v, p);
      RecordReads(named, w, p);
      forall n | n in named
        ensures ReadField(named[n], n, w.kids) == Some(p.fields[n])
      {
        FieldBetween(named[n], n, u, w, v, p.fields[n]);
      }
    case MapOf(entry) =>
      MapReads(entry, u, p);
      MapReads(entry, v, p);
      MapReads(entry, w, p);
      assert w.kids.Keys == v.kids.Keys;
      forall k | k in v.kids
        ensures Read(entry, w.kids[k]) == Some(p.entries[k])
      {
        ChildBetween(entry, u, w, v, Key(k), p.entries[k]);
      }
    case TaggedOf(units, variants) =>
      TaggedReads(units, variants, u, p);
      TaggedReads(units, variants, v, p);
      TaggedReads(units, variants, w, p);
      if v.Table? {
        var n := p.variant;
        assert n in u.kids.Keys && w.kids.Keys == {n};
        ChildBetween(variants[n], u, w, v, Key(n), p.held);
      }
    case ShortOr(short, long) =>
      ShortReads(short, long, u, p);
      ShortReads(short, long, v, p);
      ShortReads(short, long, w, p);
      if !IsLeaf(v) {
        ReadBetween(long, u, w, v, p);
      }
  }

  lemma {:induction false} ChildBetween(s: Schema, u: Value, w: Value, v: Value, step: Step, p: Parsed)
    requires Coherent(s) && Valid(u) && Valid(w) && Valid(v) && Thinner(u, w) && Thinner(w, v)
    requires Enters(u, step) && Enters(v, step) && Read(s, Child(u, step)) == Some(p)
    requires Read(s, Child(v, step)) == Some(p)
    ensures Enters(w, step) && Read(s, Child(w, step)) == Some(p)
    decreases s, 2
  {
    hide Read, Valid, Thinner, Coherent;
    ThinnerBelow(u, w, step);
    ThinnerBelow(w, v, step);
    ReadBetween(s, Child(u, step), Child(w, step), Child(v, step), p);
  }

  lemma {:induction false} FieldBetween(f: Field, n: string, u: Value, w: Value, v: Value, p: Parsed)
    requires Coherent(f.schema) && (f.absent.Some? && f.absent.value != Absent ==> Barest(f.schema, f.absent.value))
    requires u.Table? && w.Table? && v.Table? && Valid(u) && Valid(w) && Valid(v) && Thinner(u, w) && Thinner(w, v)
    requires ReadField(f, n, u.kids) == Some(p) && ReadField(f, n, v.kids) == Some(p)
    ensures ReadField(f, n, w.kids) == Some(p)
    decreases f.schema, 3
  {
    ThinnerShape(u, w);
    ThinnerShape(w, v);
    if n in u.kids {
      ChildBetween(f.schema, u, w, v, Key(n), p);
    } else if n in w.kids {
      NeverAbsent(f.schema, v.kids[n]);
      BarestHolds(f.schema, w.kids[n], v.kids[n], p);
    }
  }

  /** A removal leaves a table a table, with one key less if it is its own, and an array as long. */
  lemma RemoveShape(v: Value, c: Candidate)
    requires HasKey(v, c)
    ensures !IsLeaf(v) && Remove(v, c).Table? == v.Table? && Remove(v, c).Array? == v.Array?
    ensures v.Table? ==> Remove(v, c).kids.Keys == if c.table == [] then v.kids.Keys - {c.key} else v.kids.Keys
    ensures v.Table? && c.table == [] ==> c.key in v.kids
    ensures v.Array? ==> c.table != [] && |Remove(v, c).items| == |v.items|
  {
  }

  /** Two keys whose absence each reads the same are absent together with the same reading. */
  lemma {:induction false} ReadJoint(s: Schema, v: Value, c: Candidate, d: Candidate, p: Parsed)
    requires Valid(v) && IsCandidate(v, c) && IsCandidate(v, d) && c != d && HasKey(Remove(v, c), d)
    requires Read(s, v) == Some(p) && Read(s, Remove(v, c)) == Some(p) && Read(s, Remove(v, d)) == Some(p)
    ensures Read(s, Remove(Remove(v, c), d)) == Some(p)
    decreases s, 0
  {
    hide Valid, Read, LooksDefault, Held, Remove;
    RemoveShape(v, c);
    RemoveShape(v, d);
    RemoveShape(Remove(v, c), d);
    match s
    case Leaf(read) => LeafReads(read, v, p);
    case Document =>
      RemoveChanges(v, c);
      DocumentReads(v, p);
      DocumentReads(Remove(v, c), p);
    case ListOf(element) =>
      ListReads(element, v, p);
      ListReads(element, Remove(v, c), p);
      ListReads(element, Remove(v, d), p);
      ListReads(element, Remove(Remove(v, c), d), p);
      forall i | 0 <= i < |v.items|
        ensures Read(element, Remove(Remove(v, c), d).items[i]) == Some(p.items[i])
      {
        JointBelow(element, v, c, d, Index(i), p.items[i]);
      }
    case RecordOf(named) =>
      RecordReads(named, v, p);
      RecordReads(named, Remove(v, c), p);
      RecordReads(named, Remove(v, d), p);
      RecordReads(named, Remove(Remove(v, c), d), p);
      forall n | n in named
        ensures ReadField(named[n], n, Remove(Remove(v, c), d).kids) == Some(p.fields[n])
      {
        JointField(named[n], n, v, c, d, p.fields[n]);
      }
    case MapOf(entry) =>
      MapReads(entry, v, p);
      MapReads(entry, Remove(v, c), p);
      MapReads(entry, Remove(v, d), p);
      MapReads(entry, Remove(Remove(v, c), d), p);
      assert c.table != [] && d.table != [];
      forall k | k in v.kids
        ensures k in Remove(Remove(v, c), d).kids
        ensures Read(entry, Remove(Remove(v, c), d).kids[k]) == Some(p.entries[k])
      {
        JointBelow(entry, v, c, d, Key(k), p.entries[k]);
      }
    case TaggedOf(units, variants) =>
      TaggedReads(units, variants, v, p);
      TaggedReads(units, variants, Remove(v, c), p);
      TaggedReads(units, variants, Remove(v, d), p);
      TaggedReads(units, variants, Remove(Remove(v, c), d), p);
      var n := p.variant;
      assert n in Remove(v, c).kids.Keys && n in Remove(v, d).kids.Keys;
      assert c.table != [] && d.table != [];
      JointBelow(variants[n], v, c, d, Key(n), p.held);
    case ShortOr(short, long) =>
      ShortReads(short, long, v, p);
      ShortReads(short, long, Remove(v, c), p);
      ShortReads(short, long, Remove(v, d), p);
      ShortReads(short, long, Remove(Remove(v, c), d), p);
      ReadJoint(long, v, c, d, p);
  }

  lemma {:induction false} JointField(f: Field, n: string, v: Value, c: Candidate, d: Candidate, p: Parsed)
    requires v.Table? && Valid(v) && IsCandidate(v, c) && IsCandidate(v, d) && c != d && HasKey(Remove(v, c), d)
    requires ReadField(f, n, v.kids) == Some(p)
    requires ReadField(f, n, Remove(v, c).kids) == Some(p) && ReadField(f, n, Remove(v, d).kids) == Some(p)
    ensures ReadField(f, n, Remove(Remove(v, c), d).kids) == Some(p)
    decreases f.schema, 2
  {
    if n in Remove(Remove(v, c), d).kids {
      JointBelow(f.schema, v, c, d, Key(n), p);
    } else if n in v.kids {
      assert c == Candidate([], n) || d == Candidate([], n);
    }
  }

  /** The same, for one child both removals leave in place. */
  lemma {:induction false} JointBelow(s: Schema, v: Value, c: Candidate, d: Candidate, step: Step, p: Parsed)
    requires Valid(v) && IsCandidate(v, c) && IsCandidate(v, d) && c != d && HasKey(Remove(v, c), d)
    requires Enters(v, step) && Enters(Remove(v, c), step) && Enters(Remove(v, d), step)
    requires Read(s, Child(v, step)) == Some(p)
    requires Read(s, Child(Remove(v, c), step)) == Some(p) && Read(s, Child(Remove(v, d), step)) == Some(p)
    ensures Enters(Remove(Remove(v, c), d), step)
    ensures Read(s, Child(Remove(Remove(v, c), d), step)) == Some(p)
    decreases s, 1
  {
    hide Read, Remove, Valid, LooksDefault;
    var below := Child(v, step);
    ChildAfter(v, c, step);
    ChildAfter(v, d, step);
    ChildAfter(Remove(v, c), d, step);
    if c.table != [] && c.table[0] == step && d.table != [] && d.table[0] == step {
      InnerCandidate(v, c, step);
      InnerCandidate(v, d, step);
      hide HasKey, Enters, Child;
      assert c == Outer(step, Inner(c)) && d == Outer(step, Inner(d));
      RemoveKeepsOthers(below, Inner(c), Inner(d));
      ReadJoint(s, below, Inner(c), Inner(d), p);
    }
  }

  lemma InnerCandidate(v: Value, c: Candidate, step: Step)
    requires Valid(v) && IsCandidate(v, c) && c.table != [] && c.table[0] == step
    ensures Enters(v, step) && Valid(Child(v, step)) && IsCandidate(Child(v, step), Inner(c))
  {
  }

  /** What one child looks like after a removal. */
  lemma ChildAfter(v: Value, c: Candidate, step: Step)
    requires HasKey(v, c) && Enters(v, step)
    ensures Enters(Remove(v, c), step) <==> !(step.Key? && c == Candidate([], step.name))
    ensures Enters(Remove(v, c), step) ==>
              Child(Remove(v, c), step) ==
              if c.table != [] && c.table[0] == step then Remove(Child(v, step), Inner(c)) else Child(v, step)
  {
  }

  lemma {:induction false} RemoveChanges(v: Value, c: Candidate)
    requires HasKey(v, c)
    ensures Remove(v, c) != v
    decreases |c.table|
  {
    RemoveHasKey(v, c, c);
  }

  /** Does `v` read as the file `p`? */
  function ReadsAs(s: Schema, p: Parsed): Reads {
    v => Read(s, v) == Some(p)
  }

  /** A coherent schema's reader meets both conditions, for every file. */
  lemma SchemaIsConvexAndJoint(s: Schema, p: Parsed)
    requires Coherent(s)
    ensures Convex(ReadsAs(s, p)) && Joint(ReadsAs(s, p))
  {
    hide Valid, Thinner, Read, Remove, Coherent, LooksDefault, Held;
    var asFile := ReadsAs(s, p);
    forall u, w, v | Valid(u) && Valid(w) && Valid(v) && Thinner(u, w) && Thinner(w, v) && asFile(u) && asFile(v)
      ensures asFile(w)
    {
      ReadBetween(s, u, w, v, p);
    }
    forall v, c, d | Valid(v) && IsCandidate(v, c) && IsCandidate(v, d) && c != d
                     && asFile(v) && asFile(Remove(v, c)) && asFile(Remove(v, d))
      ensures HasKey(Remove(v, c), d) && asFile(Remove(Remove(v, c), d))
    {
      RemoveKeepsOthers(v, c, d);
      ReadJoint(s, v, c, d, p);
    }
  }

  // ---- A schema whose reader is not ----

  function AsItIs(v: Value): Option<Parsed> {
    Some(Plain(v))
  }

  function KindField(): map<string, Field> {
    map["kind" := Field(Leaf(AsItIs), Some(Plain(Text("none"))))]
  }

  function CustomDefault(): Parsed {
    Record(map["kind" := Plain(Text("once"))])
  }

  function SandboxField(): map<string, Field> {
    map["sandbox" := Field(RecordOf(KindField()), Some(CustomDefault()))]
  }

  function SpelledOut(): Value {
    Table(["kind"], map["kind" := Text("once")])
  }

  function Sandbox(inner: Value): Value {
    Table(["sandbox"], map["sandbox" := inner])
  }

  lemma KindReads()
    ensures Read(RecordOf(KindField()), SpelledOut()) == Some(CustomDefault())
    ensures Read(RecordOf(KindField()), Table([], map[])) != Some(CustomDefault())
  {
    RecordReads(KindField(), SpelledOut(), CustomDefault());
    RecordReads(KindField(), Table([], map[]), CustomDefault());
    assert ReadField(KindField()["kind"], "kind", map[]) == Some(Plain(Text("none")));
    assert Text("none").s[1] != Text("once").s[1];
    assert "kind" in KindField();
  }

  lemma SandboxTrees()
    ensures var u, w, v := Table([], map[]), Sandbox(Table([], map[])), Sandbox(SpelledOut());
            Valid(u) && Valid(w) && Valid(v) && Thinner(u, w) && Thinner(w, v)
  {
    assert Keep(["sandbox"], {}) == [] && Keep(["kind"], {}) == [] && Keep(["sandbox"], {"sandbox"}) == ["sandbox"];
    assert Thinner(Table([], map[]), SpelledOut());
    assert Valid(SpelledOut());
    assert Sandbox(SpelledOut()).kids.Keys == {"sandbox"} == Sandbox(Table([], map[])).kids.Keys;
  }

  /** A struct whose own default is not what its fields' defaults add up to is not coherent: its key
      may be absent, or hold that default spelled out, but not stand empty. */
  lemma IncoherentSchemaIsNotConvex()
    ensures exists s: Schema, p: Parsed :: !Convex(ReadsAs(s, p))
  {
    hide Read, Valid, Thinner, SandboxField, SpelledOut, Sandbox, Convex;
    var p := Record(map["sandbox" := CustomDefault()]);
    SandboxTrees();
    SandboxReads();
    NotConvexBetween(ReadsAs(RecordOf(SandboxField()), p), Table([], map[]), Sandbox(Table([], map[])),
                     Sandbox(SpelledOut()));
  }

  lemma SandboxReads()
    ensures var s, p := RecordOf(SandboxField()), Record(map["sandbox" := CustomDefault()]);
            && Read(s, Table([], map[])) == Some(p) && Read(s, Sandbox(SpelledOut())) == Some(p)
            && Read(s, Sandbox(Table([], map[]))) != Some(p)
  {
    var named := SandboxField();
    var p := Record(map["sandbox" := CustomDefault()]);
    var u, w, v := Table([], map[]), Sandbox(Table([], map[])), Sandbox(SpelledOut());
    KindReads();
    hide Read, KindField, SpelledOut, CustomDefault;
    RecordReads(named, u, p);
    RecordReads(named, v, p);
    RecordReads(named, w, p);
    assert "sandbox" in named && ReadField(named["sandbox"], "sandbox", w.kids) != Some(CustomDefault());
  }

  lemma NotConvexBetween(asFile: Reads, u: Value, w: Value, v: Value)
    requires Valid(u) && Valid(w) && Valid(v) && Thinner(u, w) && Thinner(w, v)
    requires asFile(u) && asFile(v) && !asFile(w)
    ensures !Convex(asFile)
  {
  }
}
