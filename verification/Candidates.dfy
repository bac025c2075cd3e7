/** Which keys `write.rs` tries to leave out, and what a tree some of them were taken from looks
    like beside the whole one. */
module Candidates {
  import opened TomlTree

  /** The candidates of `v`, whose own place is `at`, in the order the walk meets them. */
  function Listed(v: Value, at: Path): seq<Candidate>
    requires Valid(v)
    decreases v, 2, 0
  {
    match v
    case Table(order, _) => ListedFromKey(v, 0, at)
    case Array(items) => ListedFromItem(v, 0, at)
    case _ => []
  }

  function ListedFromKey(v: Value, i: nat, at: Path): seq<Candidate>
    requires Valid(v) && v.Table? && i <= |v.order|
    decreases v, 1, |v.order| - i
  {
    if i == |v.order| then []
    else ListedAtKey(v, v.order[i], at) + ListedFromKey(v, i + 1, at)
  }

  function ListedAtKey(v: Value, key: string, at: Path): seq<Candidate>
    requires Valid(v) && v.Table? && key in v.kids
    decreases v, 0, 0
  {
    (if LooksDefault(v.kids[key]) then [Candidate(at, key)] else [])
    + Listed(v.kids[key], at + [Key(key)])
  }

  function ListedFromItem(v: Value, i: nat, at: Path): seq<Candidate>
    requires Valid(v) && v.Array? && i <= |v.items|
    decreases v, 1, |v.items| - i
  {
    if i == |v.items| then []
    else Listed(v.items[i], at + [Index(i)]) + ListedFromItem(v, i + 1, at)
  }

  /** `c`, listed from `at`, is a candidate of the value found there. */
  ghost predicate CandidateUnder(v: Value, at: Path, c: Candidate) {
    at <= c.table && IsCandidate(v, Candidate(c.table[|at|..], c.key))
  }

  /** The first step `c` takes from `at`. */
  ghost function FirstStep(at: Path, c: Candidate): Step
    requires at <= c.table
  {
    if |c.table| == |at| then Key(c.key) else c.table[|at|]
  }

  /** The walk finds each candidate once, and nothing else. */
  lemma {:induction false} ListedExactly(v: Value, at: Path)
    requires Valid(v)
    ensures forall c :: c in Listed(v, at) <==> CandidateUnder(v, at, c)
    ensures Distinct(Listed(v, at))
    decreases v, 2, 0
  {
    match v
    case Table(order, kids) =>
      ListedFromKeyExactly(v, 0, at);
      forall c | CandidateUnder(v, at, c)
        ensures c in Listed(v, at)
      {
        assert FirstStep(at, c).name in order[0..];
      }
    case Array(items) => ListedFromItemExactly(v, 0, at);
    case _ =>
  }

  lemma {:induction false} ListedFromKeyExactly(v: Value, i: nat, at: Path)
    requires Valid(v) && v.Table? && i <= |v.order|
    ensures forall c :: c in ListedFromKey(v, i, at) <==>
                        CandidateUnder(v, at, c) && FirstStep(at, c).Key? && FirstStep(at, c).name in v.order[i..]
    ensures Distinct(ListedFromKey(v, i, at))
    decreases v, 1, |v.order| - i
  {
    if i < |v.order| {
      var key := v.order[i];
      ListedAtKeyExactly(v, key, at);
      ListedFromKeyExactly(v, i + 1, at);
      assert v.order[i..] == [key] + v.order[i + 1..];
      assert key !in v.order[i + 1..];
      DistinctConcat(ListedAtKey(v, key, at), ListedFromKey(v, i + 1, at));
    }
  }

  lemma {:induction false} ListedAtKeyExactly(v: Value, key: string, at: Path)
    requires Valid(v) && v.Table? && key in v.kids
    ensures forall c :: c in ListedAtKey(v, key, at) <==> CandidateUnder(v, at, c) && FirstStep(at, c) == Key(key)
    ensures Distinct(ListedAtKey(v, key, at))
    decreases v, 0, 0
  {
    var below := at + [Key(key)];
    ListedExactly(v.kids[key], below);
    forall c
      ensures CandidateUnder(v.kids[key], below, c) <==>
              CandidateUnder(v, at, c) && FirstStep(at, c) == Key(key) && c != Candidate(at, key)
    {
      StepBelow(v, Key(key), at, c);
    }
    DistinctConcat(if LooksDefault(v.kids[key]) then [Candidate(at, key)] else [], Listed(v.kids[key], below));
  }

  lemma {:induction false} ListedFromItemExactly(v: Value, i: nat, at: Path)
    requires Valid(v) && v.Array? && i <= |v.items|
    ensures forall c :: c in ListedFromItem(v, i, at) <==>
                        CandidateUnder(v, at, c) && FirstStep(at, c).Index? && i <= FirstStep(at, c).at
    ensures Distinct(ListedFromItem(v, i, at))
    decreases v, 1, |v.items| - i
  {
    if i < |v.items| {
      var below := at + [Index(i)];
      ListedExactly(v.items[i], below);
      ListedFromItemExactly(v, i + 1, at);
      forall c
        ensures CandidateUnder(v.items[i], below, c) <==> CandidateUnder(v, at, c) && FirstStep(at, c) == Index(i)
      {
        StepBelow(v, Index(i), at, c);
      }
      DistinctConcat(Listed(v.items[i], below), ListedFromItem(v, i + 1, at));
    }
  }

  lemma DistinctConcat<T>(a: seq<T>, b: seq<T>)
    requires Distinct(a) && Distinct(b)
    requires forall x :: x in a ==> x !in b
    ensures Distinct(a + b)
  {
    forall i, j | 0 <= i < j < |a + b|
      ensures (a + b)[i] != (a + b)[j]
    {
      if i < |a| <= j {
        assert (a + b)[i] in a && (a + b)[j] in b;
      }
    }
  }

  /** One step down, the candidates are those whose next step is that one. */
  lemma StepBelow(v: Value, step: Step, at: Path, c: Candidate)
    requires Enters(v, step)
    ensures CandidateUnder(Child(v, step), at + [step], c) <==>
            CandidateUnder(v, at, c) && |c.table| > |at| && c.table[|at|] == step
  {
    if at <= c.table && |c.table| > |at| && c.table[|at|] == step {
      var rest := c.table[|at|..];
      assert at + [step] <= c.table;
      assert rest[0] == step && rest[1..] == c.table[|at + [step]|..];
    }
  }

  /** `candidates`: push every candidate of `v` onto `out`. */
  method Collect(v: Value, at: Path, out: seq<Candidate>) returns (found: seq<Candidate>)
    requires Valid(v)
    ensures found == out + Listed(v, at)
    decreases v
  {
    found := out;
    match v
    case Table(order, kids) =>
      var i := 0;
      while i < |order|
        invariant i <= |order|
        invariant found + ListedFromKey(v, i, at) == out + Listed(v, at)
      {
        var key := order[i];
        if LooksDefault(kids[key]) {
          found := found + [Candidate(at, key)];
        }
        found := Collect(kids[key], at + [Key(key)], found);
        i := i + 1;
      }
    case Array(items) =>
      var i := 0;
      while i < |items|
        invariant i <= |items|
        invariant found + ListedFromItem(v, i, at) == out + Listed(v, at)
      {
        found := Collect(items[i], at + [Index(i)], found);
        i := i + 1;
      }
    case _ =>
  }

  /** The keys of `order` that are in `keys`, in order. */
  function Keep(order: seq<string>, keys: set<string>): (r: seq<string>)
    ensures forall k :: k in r <==> k in order && k in keys
  {
    if order == [] then []
    else
      assert order == [order[0]] + order[1..];
      (if order[0] in keys then [order[0]] else []) + Keep(order[1..], keys)
  }

  /** `u` is `v` with some keys taken out: every table of `u` is a table of `v` holding no key more,
      in the same order, and everything else is the same. */
  ghost predicate Thinner(u: Value, v: Value)
    decreases v
  {
    match v
    case Table(order, kids) =>
      && u.Table?
      && u.kids.Keys <= kids.Keys
      && u.order == Keep(order, u.kids.Keys)
      && forall k :: k in kids && k in u.kids ==> Thinner(u.kids[k], kids[k])
    case Array(items) =>
      && u.Array?
      && |u.items| == |items|
      && forall i :: 0 <= i < |items| ==> Thinner(u.items[i], items[i])
    case _ => u == v
  }

  lemma {:induction false} ThinnerSelf(v: Value)
    requires Valid(v)
    ensures Thinner(v, v)
    decreases v
  {
    match v
    case Table(order, kids) =>
      KeepAll(order, kids.Keys);
      forall k | k in kids
        ensures Thinner(kids[k], kids[k])
      {
        ThinnerSelf(kids[k]);
      }
    case Array(items) =>
      forall i | 0 <= i < |items|
        ensures Thinner(items[i], items[i])
      {
        ThinnerSelf(items[i]);
      }
    case _ =>
  }

  lemma {:induction false} ThinnerTransitive(u: Value, w: Value, v: Value)
    requires Thinner(u, w) && Thinner(w, v)
    ensures Thinner(u, v)
    decreases v
  {
    match v
    case Table(order, kids) =>
      KeepTwice(order, w.kids.Keys, u.kids.Keys);
      forall k | k in kids && k in u.kids
        ensures Thinner(u.kids[k], kids[k])
      {
        ThinnerTransitive(u.kids[k], w.kids[k], kids[k]);
      }
    case Array(items) =>
      forall i | 0 <= i < |items|
        ensures Thinner(u.items[i], items[i])
      {
        ThinnerTransitive(u.items[i], w.items[i], items[i]);
      }
    case _ =>
  }

  lemma {:induction false} ThinnerBothWays(u: Value, v: Value)
    requires Valid(u) && Valid(v) && Thinner(u, v) && Thinner(v, u)
    ensures u == v
    decreases v
  {
    match v
    case Table(order, kids) =>
      KeepAll(order, kids.Keys);
      assert u.kids.Keys == kids.Keys;
      forall k | k in kids
        ensures u.kids[k] == kids[k]
      {
        ThinnerBothWays(u.kids[k], kids[k]);
      }
      assert u.kids == kids;
    case Array(items) =>
      forall i | 0 <= i < |items|
        ensures u.items[i] == items[i]
      {
        ThinnerBothWays(u.items[i], items[i]);
      }
    case _ =>
  }

  lemma {:induction false} KeepAll(order: seq<string>, keys: set<string>)
    requires forall k :: k in order ==> k in keys
    ensures Keep(order, keys) == order
  {
    if order != [] {
      assert order == [order[0]] + order[1..];
      KeepAll(order[1..], keys);
    }
  }

  lemma {:induction false} KeepTwice(order: seq<string>, wide: set<string>, narrow: set<string>)
    requires narrow <= wide
    ensures Keep(Keep(order, wide), narrow) == Keep(order, narrow)
  {
    if order != [] {
      KeepTwice(order[1..], wide, narrow);
      var rest := Keep(order[1..], wide);
      assert order[0] in wide ==> ([order[0]] + rest)[1..] == rest;
      assert [] + rest == rest && [] + Keep(order[1..], narrow) == Keep(order[1..], narrow);
    }
  }

  lemma {:induction false} WithoutIsKeep(order: seq<string>, keys: set<string>, key: string)
    requires forall k :: k in order ==> k in keys
    ensures Without(order, key) == Keep(order, keys - {key})
  {
    if order != [] {
      assert order == [order[0]] + order[1..];
      WithoutIsKeep(order[1..], keys, key);
    }
  }

  lemma WithChildThins(u: Value, v: Value, step: Step, a: Value, b: Value)
    requires Thinner(u, v) && Enters(u, step) && Enters(v, step) && Thinner(a, b)
    ensures Thinner(WithChild(u, step, a), WithChild(v, step, b))
  {
    if step.Key? {
      assert WithChild(u, step, a).kids.Keys == u.kids.Keys;
    }
  }

  lemma {:induction false} RemoveThins(v: Value, c: Candidate)
    requires Valid(v) && HasKey(v, c)
    ensures Thinner(Remove(v, c), v)
    decreases |c.table|
  {
    ThinnerSelf(v);
    if c.table == [] {
      WithoutIsKeep(v.order, v.kids.Keys, c.key);
    } else {
      RemoveThins(Child(v, c.table[0]), Inner(c));
      WithChildThins(v, v, c.table[0], Remove(Child(v, c.table[0]), Inner(c)), Child(v, c.table[0]));
      assert WithChild(v, c.table[0], Child(v, c.table[0])) == v;
    }
  }
}
