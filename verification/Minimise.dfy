/** `render`'s search for the keys a file can do without: try a batch, read the tree back, halve the
    batch when that changed the file. `asFile` stands for `reads_as`: whether a tree reads back as
    the file being written. */
module Minimise {
  import opened TomlTree
  import opened Candidates
  import opened Sets

  type Reads = Value -> bool

  ghost predicate AllCandidates(v: Value, cs: seq<Candidate>) {
    Distinct(cs) && forall i :: 0 <= i < |cs| ==> IsCandidate(v, cs[i])
  }

  /** After the first of a batch is taken out, the rest are where they were. */
  lemma RestStay(v: Value, cs: seq<Candidate>)
    requires Valid(v) && AllCandidates(v, cs) && cs != []
    ensures Valid(Remove(v, cs[0])) && AllCandidates(Remove(v, cs[0]), cs[1..])
  {
    RemoveKeepsValid(v, cs[0]);
    forall c | c in cs[1..]
      ensures IsCandidate(Remove(v, cs[0]), c)
    {
      RemoveKeepsOthers(v, cs[0], c);
    }
  }

  /** The trial tree: every key of the batch taken out, first to last. */
  function RemoveAll(v: Value, cs: seq<Candidate>): (r: Value)
    requires Valid(v) && AllCandidates(v, cs)
    ensures Valid(r) && Thinner(r, v)
    ensures forall d :: IsCandidate(v, d) && d !in cs ==> IsCandidate(r, d)
    ensures forall d :: HasKey(r, d) ==> HasKey(v, d) && d !in cs
    decreases |cs|
  {
    if cs == [] then ThinnerSelf(v); v
    else
      RestStay(v, cs);
      var w := Remove(v, cs[0]);
      var r := RemoveAll(w, cs[1..]);
      assert cs == [cs[0]] + cs[1..];
      assert Thinner(r, v) by { RemoveThins(v, cs[0]); ThinnerTransitive(r, w, v); }
      assert forall d :: IsCandidate(v, d) && d !in cs ==> IsCandidate(r, d) by {
        forall d | IsCandidate(v, d) && d !in cs ensures IsCandidate(r, d) { RemoveKeepsOthers(v, cs[0], d); }
      }
      assert forall d :: HasKey(r, d) ==> HasKey(v, d) && d !in cs by {
        forall d | HasKey(r, d) ensures HasKey(v, d) && d !in cs { RemoveHasKey(v, cs[0], d); }
      }
      r
  }

  /** What `settle` makes of a batch: the tree left, and the keys it found it has to keep. */
  datatype Settled = Settled(value: Value, kept: set<Candidate>)

  function Settle(asFile: Reads, v: Value, cs: seq<Candidate>): (r: Settled)
    requires Valid(v) && AllCandidates(v, cs) && cs != []
    ensures Valid(r.value) && Thinner(r.value, v)
    ensures forall d :: IsCandidate(v, d) && d !in cs ==> IsCandidate(r.value, d)
    ensures forall d :: HasKey(r.value, d) ==> HasKey(v, d) && (d in cs ==> d in r.kept)
    ensures forall d | d in r.kept :: d in cs && IsCandidate(r.value, d)
    decreases |cs|
  {
    hide HasKey, Held, Valid, Thinner, RemoveAll;
    var trial := RemoveAll(v, cs);
    if asFile(trial) then Settled(trial, {})
    else if |cs| == 1 then ThinnerSelf(v); Settled(v, {cs[0]})
    else
      var half := |cs| / 2;
      var a, b := cs[..half], cs[half..];
      assert cs == a + b;
      assert forall c | c in a :: c !in b;
      var first := Settle(asFile, v, a);
      var second := Settle(asFile, first.value, b);
      ThinnerTransitive(second.value, first.value, v);
      Settled(second.value, first.kept + second.kept)
  }

  /** A batch that does not go at once is settled one half after the other. */
  lemma SettleSplits(asFile: Reads, v: Value, cs: seq<Candidate>) returns (a: seq<Candidate>, b: seq<Candidate>)
    requires Valid(v) && AllCandidates(v, cs) && |cs| > 1 && !asFile(RemoveAll(v, cs))
    ensures a == cs[..|cs| / 2] && b == cs[|cs| / 2..]
    ensures a != [] && b != [] && |a| < |cs| && |b| < |cs|
    ensures AllCandidates(v, a)
    ensures var first := Settle(asFile, v, a);
            && AllCandidates(first.value, b)
            && (forall c | c in first.kept :: c in a && c !in b)
            && var second := Settle(asFile, first.value, b);
               && Settle(asFile, v, cs) == Settled(second.value, first.kept + second.kept)
               && forall c | c in first.kept :: IsCandidate(second.value, c)
  {
    hide HasKey, Held, Valid, Thinner, RemoveAll;
    var half := |cs| / 2;
    a, b := cs[..half], cs[half..];
    assert cs == a + b;
    assert forall c | c in a :: c !in b;
  }

  /** The candidates a round looks at: those not yet known to be needed. */
  function Pending(found: seq<Candidate>, kept: set<Candidate>): (r: seq<Candidate>)
    ensures forall c :: c in r <==> c in found && c !in kept
    ensures Distinct(found) ==> Distinct(r)
  {
    if found == [] then []
    else
      var rest := Pending(found[1..], kept);
      assert found == [found[0]] + found[1..];
      assert Distinct(found) ==> found[0] !in found[1..];
      if found[0] in kept then rest else [found[0]] + rest
  }

  /** The keys a run has still to decide about. Each round of `settle` makes it smaller: a key left
      out is gone from the tree, and one that has to stay joins `kept`. Emptied tables turn into
      new candidates, but not into new keys. */
  ghost function Undecided(v: Value, kept: set<Candidate>): set<Candidate> {
    KeySet(v) - kept
  }

  lemma SettleDecides(asFile: Reads, v: Value, kept: set<Candidate>, cs: seq<Candidate>)
    requires Valid(v) && AllCandidates(v, cs) && cs != [] && forall c | c in cs :: c !in kept
    ensures var r := Settle(asFile, v, cs);
            |Undecided(r.value, kept + r.kept)| < |Undecided(v, kept)|
  {
    var r := Settle(asFile, v, cs);
    var before, after := Undecided(v, kept), Undecided(r.value, kept + r.kept);
    forall d | d in after
      ensures d in before && d !in cs
    {
      KeySetIsHasKey(r.value, d);
      KeySetIsHasKey(v, d);
    }
    KeySetIsHasKey(v, cs[0]);
    assert cs[0] in before - after;
    assert after <= before - {cs[0]};
    SubsetSize(after, before - {cs[0]});
  }

  function Round(v: Value, kept: set<Candidate>): (found: seq<Candidate>)
    requires Valid(v)
    ensures AllCandidates(v, found)
    ensures forall c :: c in found <==> IsCandidate(v, c) && c !in kept
  {
    ListedExactly(v, []);
    var found := Pending(Listed(v, []), kept);
    assert forall c :: c in found <==> IsCandidate(v, c) && c !in kept by {
      forall c ensures CandidateUnder(v, [], c) <==> IsCandidate(v, c) { assert Candidate(c.table[0..], c.key) == c; }
    }
    found
  }

  /** `minimize` from the point where `kept` is known. */
  function MinimizeFrom(asFile: Reads, v: Value, kept: set<Candidate>): (r: Value)
    requires Valid(v)
    ensures Valid(r) && Thinner(r, v)
    decreases |Undecided(v, kept)|
  {
    var found := Round(v, kept);
    if found == [] then ThinnerSelf(v); v
    else
      SettleDecides(asFile, v, kept, found);
      var s := Settle(asFile, v, found);
      var r := MinimizeFrom(asFile, s.value, kept + s.kept);
      ThinnerTransitive(r, s.value, v);
      r
  }

  function Minimized(asFile: Reads, v: Value): Value
    requires Valid(v)
  {
    MinimizeFrom(asFile, v, {})
  }

  /** The tree with the whole batch taken out, key by key. */
  method Trial(v: Value, cs: seq<Candidate>) returns (trial: Value)
    requires Valid(v) && AllCandidates(v, cs)
    ensures trial == RemoveAll(v, cs)
  {
    trial := v;
    var i := 0;
    while i < |cs|
      invariant i <= |cs|
      invariant Valid(trial) && AllCandidates(trial, cs[i..])
      invariant RemoveAll(trial, cs[i..]) == RemoveAll(v, cs)
    {
      RestStay(trial, cs[i..]);
      assert cs[i..][1..] == cs[i + 1..];
      trial := Remove(trial, cs[i]);
      i := i + 1;
    }
  }

  /** The tree being written and the keys found needed, as `minimize` and `settle` change them. */
  class Minimizer {
    const asFile: Reads
    var value: Value
    var kept: set<Candidate>

    constructor (asFile: Reads, full: Value)
      requires Valid(full)
      ensures this.asFile == asFile && value == full && kept == {}
    {
      this.asFile, value, kept := asFile, full, {};
    }

    method SettleBatch(cs: seq<Candidate>)
      requires Valid(value) && AllCandidates(value, cs) && cs != []
      modifies this
      ensures var r := Settle(asFile, old(value), cs);
              value == r.value && kept == old(kept) + r.kept
      decreases |cs|
    {
      hide HasKey, Held, Valid, Thinner, RemoveAll;
      var trial := Trial(value, cs);
      if asFile(trial) {
        value := trial;
        return;
      }
      if |cs| == 1 {
        kept := kept + {cs[0]};
      } else {
        ghost var a, b := SettleSplits(asFile, value, cs);
        var half := |cs| / 2;
        SettleBatch(cs[..half]);
        SettleBatch(cs[half..]);
      }
    }

    method Minimize()
      requires Valid(value) && kept == {}
      modifies this
      ensures value == Minimized(asFile, old(value))
    {
      while true
        invariant Valid(value)
        invariant MinimizeFrom(asFile, value, kept) == Minimized(asFile, old(value))
        decreases |Undecided(value, kept)|
      {
        var found := Collect(value, [], []);
        found := Pending(found, kept);
        assert found == Round(value, kept) by { assert [] + Listed(value, []) == Listed(value, []); }
        if found == [] {
          return;
        }
        SettleDecides(asFile, value, kept, found);
        SettleBatch(found);
      }
    }
  }

  // ---- What the search keeps, for every reader ----

  lemma {:induction false} SettleReads(asFile: Reads, v: Value, cs: seq<Candidate>)
    requires Valid(v) && AllCandidates(v, cs) && cs != [] && asFile(v)
    ensures asFile(Settle(asFile, v, cs).value)
    decreases |cs|
  {
    if !asFile(RemoveAll(v, cs)) && |cs| > 1 {
      var a, b := SettleSplits(asFile, v, cs);
      SettleReads(asFile, v, a);
      SettleReads(asFile, Settle(asFile, v, a).value, b);
    }
  }

  /** Whatever the reader does, a tree that reads as the file still does once minimised. */
  lemma {:induction false} MinimizeReads(asFile: Reads, v: Value, kept: set<Candidate>)
    requires Valid(v) && asFile(v)
    ensures asFile(MinimizeFrom(asFile, v, kept))
    decreases |Undecided(v, kept)|
  {
    var found := Round(v, kept);
    if found != [] {
      SettleDecides(asFile, v, kept, found);
      SettleReads(asFile, v, found);
      var s := Settle(asFile, v, found);
      MinimizeReads(asFile, s.value, kept + s.kept);
    }
  }

  /** A key found needed is never lost again: it is a candidate of the tree to the end. */
  lemma {:induction false} KeptStays(asFile: Reads, v: Value, kept: set<Candidate>, c: Candidate)
    requires Valid(v) && c in kept && IsCandidate(v, c)
    ensures IsCandidate(MinimizeFrom(asFile, v, kept), c)
    decreases |Undecided(v, kept)|
  {
    var found := Round(v, kept);
    if found != [] {
      SettleDecides(asFile, v, kept, found);
      var s := Settle(asFile, v, found);
      KeptStays(asFile, s.value, kept + s.kept, c);
    }
  }
}
