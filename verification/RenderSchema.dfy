/** What `render` writes, read back by a reader that goes by a schema. */
module RenderSchema {
  import opened Wrappers
  import opened TomlTree
  import opened Candidates
  import opened Minimise
  import opened Refill
  import opened SchemaReader

  /** The keys put back into emptied tables do not change what a thinned tree reads as. */
  lemma {:induction false} RefilledReads(s: Schema, v: Value, full: Value, p: Parsed)
    requires Valid(v) && Valid(full) && Thinner(v, full)
    requires Read(s, v) == Some(p) && Read(s, full) == Some(p)
    ensures Read(s, Refilled(v, full)) == Some(p)
    decreases s
  {
    hide Read, Valid;
    var r := Refilled(v, full);
    match s
    case Leaf(read) => LeafReads(read, v, p);
    case Document =>
      DocumentReads(v, p);
      DocumentReads(full, p);
      NothingEmptiedSelf(v);
      RefilledOnlyEmptied(v, full);
    case ListOf(element) =>
      ListReads(element, v, p);
      ListReads(element, full, p);
      ListReads(element, r, p);
      forall i | 0 <= i < |v.items|
        ensures Read(element, r.items[i]) == Some(p.items[i])
      {
        RefilledBelow(v, full, Index(i));
        RefilledReads(element, v.items[i], full.items[i], p.items[i]);
      }
    case RecordOf(named) =>
      RecordReads(named, v, p);
      RecordReads(named, full, p);
      RecordReads(named, r, p);
      RefilledBelow(v, full, Index(0));
      forall n | n in named
        ensures ReadField(named[n], n, r.kids) == Some(p.fields[n])
      {
        if n in v.kids {
          RefilledBelow(v, full, Key(n));
          RefilledReads(named[n].schema, v.kids[n], full.kids[n], p.fields[n]);
        }
      }
    case MapOf(entry) =>
      MapReads(entry, v, p);
      MapReads(entry, full, p);
      MapReads(entry, r, p);
      RefilledBelow(v, full, Index(0));
      forall k | k in v.kids
        ensures Read(entry, r.kids[k]) == Some(p.entries[k])
      {
        RefilledBelow(v, full, Key(k));
        RefilledReads(entry, v.kids[k], full.kids[k], p.entries[k]);
      }
    case TaggedOf(units, variants) =>
      TaggedReads(units, variants, v, p);
      TaggedReads(units, variants, full, p);
      TaggedReads(units, variants, r, p);
      if v.Table? {
        var n := p.variant;
        RefilledBelow(v, full, Key(n));
        RefilledReads(variants[n], v.kids[n], full.kids[n], p.held);
      }
    case ShortOr(short, long) =>
      ShortReads(short, long, v, p);
      ShortReads(short, long, full, p);
      ShortReads(short, long, r, p);
      if !IsLeaf(v) {
        RefilledReads(long, v, full, p);
      }
  }

  /** The value written reads back as the file, for every schema and every file: nothing is asked of
      the defaults, as neither leaving keys out nor putting them back relies on them. */
  lemma SchemaRoundTrips(s: Schema, full: Value, p: Parsed)
    requires Valid(full) && Read(s, full) == Some(p)
    ensures Read(s, Rendered(ReadsAs(s, p), full)) == Some(p)
    ensures Thinner(Rendered(ReadsAs(s, p), full), full) && NothingEmptied(Rendered(ReadsAs(s, p), full), full)
  {
    hide Read, Valid, Refilled, Thinner;
    MinimizeReads(ReadsAs(s, p), full, {});
    var m := Minimized(ReadsAs(s, p), full);
    RefilledReads(s, m, full, p);
    RefilledNothingEmptied(m, full);
  }
}
