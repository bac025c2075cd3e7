/** TOML values as `write.rs` walks them: tables with ordered, distinct keys, arrays and leaves,
    the steps into them, and the removal of one key. */
module TomlTree {

  /** `order` is the order a table lists its keys in, `kids` what each key holds. */
  datatype Value =
    | Boolean(b: bool)
    | Text(s: string)
    | Other(raw: string)
    | Array(items: seq<Value>)
    | Table(order: seq<string>, kids: map<string, Value>)

  datatype Step = Key(name: string) | Index(at: nat)

  type Path = seq<Step>

  /** A key that might be left out: the table it sits in, and its name. */
  datatype Candidate = Candidate(table: Path, key: string)

  ghost predicate Distinct<T>(s: seq<T>) {
    forall i, j :: 0 <= i < j < |s| ==> s[i] != s[j]
  }

  /** Every table lists each of its keys exactly once. */
  ghost predicate Valid(v: Value) {
    match v
    case Array(items) => forall x | x in items :: Valid(x)
    case Table(order, kids) =>
      && Distinct(order)
      && (forall k :: k in order <==> k in kids)
      && forall k | k in kids :: Valid(kids[k])
    case _ => true
  }

  const DEFAULT_WORDS: set<string> := {
    "always", "at_spawn", "auto_approve", "autonomous", "continue", "direct", "error", "evict",
    "free_text", "none", "once", "per_item", "reject", "rewritten"
  }

  predicate LooksDefault(v: Value) {
    match v
    case Boolean(_) => true
    case Text(s) => s in DEFAULT_WORDS
    case Other(_) => false
    case Array(items) => items == []
    case Table(_, kids) => kids == map[]
  }

  /** The child one step down, when there is one. */
  predicate Enters(v: Value, step: Step) {
    match step
    case Key(n) => v.Table? && n in v.kids
    case Index(i) => v.Array? && i < |v.items|
  }

  function Child(v: Value, step: Step): (child: Value)
    requires Enters(v, step)
    ensures child < v
  {
    match step
    case Key(n) => v.kids[n]
    case Index(i) => v.items[i]
  }

  function WithChild(v: Value, step: Step, child: Value): Value
    requires Enters(v, step)
  {
    match step
    case Key(n) => Table(v.order, v.kids[n := child])
    case Index(i) => Array(v.items[i := child])
  }

  /** `path` leads somewhere in `v`, to what `Found` is. */
  predicate Leads(v: Value, path: Path)
    decreases |path|
  {
    path == [] || (Enters(v, path[0]) && Leads(Child(v, path[0]), path[1..]))
  }

  function Found(v: Value, path: Path): Value
    requires Leads(v, path)
    decreases |path|
  {
    if path == [] then v else Found(Child(v, path[0]), path[1..])
  }

  /** The table `c` names is there and holds the key. */
  predicate HasKey(v: Value, c: Candidate)
    decreases |c.table|
  {
    if c.table == [] then v.Table? && c.key in v.kids
    else Enters(v, c.table[0]) && HasKey(Child(v, c.table[0]), Inner(c))
  }

  /** `c` as seen from the child its first step leads to. */
  function Inner(c: Candidate): Candidate
    requires c.table != []
  {
    Candidate(c.table[1..], c.key)
  }

  function Outer(step: Step, c: Candidate): Candidate {
    Candidate([step] + c.table, c.key)
  }

  function Held(v: Value, c: Candidate): Value
    requires HasKey(v, c)
    decreases |c.table|
  {
    if c.table == [] then v.kids[c.key] else Held(Child(v, c.table[0]), Inner(c))
  }

  /** A key worth trying to leave out: it is there, and looks like a default. */
  predicate IsCandidate(v: Value, c: Candidate) {
    HasKey(v, c) && LooksDefault(Held(v, c))
  }

  function Without(order: seq<string>, key: string): (r: seq<string>)
    ensures forall k :: k in r <==> k in order && k != key
    ensures Distinct(order) ==> Distinct(r)
  {
    if order == [] then []
    else
      var rest := Without(order[1..], key);
      assert order == [order[0]] + order[1..];
      assert Distinct(order) ==> order[0] !in order[1..];
      if order[0] == key then rest else [order[0]] + rest
  }

  /** `remove`: walk to the table and take the key out of it. */
  function Remove(v: Value, c: Candidate): Value
    requires HasKey(v, c)
    decreases |c.table|
  {
    if c.table == [] then Table(Without(v.order, c.key), v.kids - {c.key})
    else WithChild(v, c.table[0], Remove(Child(v, c.table[0]), Inner(c)))
  }

  lemma {:induction false} RemoveKeepsValid(v: Value, c: Candidate)
    requires Valid(v) && HasKey(v, c)
    ensures Valid(Remove(v, c))
    decreases |c.table|
  {
    if c.table == [] {
    } else {
      RemoveKeepsValid(Child(v, c.table[0]), Inner(c));
    }
  }

  /** Removing a key takes it away and brings no other in. */
  lemma {:induction false} RemoveHasKey(v: Value, c: Candidate, d: Candidate)
    requires HasKey(v, c)
    ensures HasKey(Remove(v, c), d) ==> HasKey(v, d) && d != c
    decreases |c.table|
  {
    var w := Remove(v, c);
    if HasKey(w, d) && c.table != [] && d.table != [] && d.table[0] == c.table[0] {
      RemoveHasKey(Child(v, c.table[0]), Inner(c), Inner(d));
      assert c == Outer(c.table[0], Inner(c)) && d == Outer(c.table[0], Inner(d));
    }
  }

  /** No candidate lies beneath another, and array positions never move: taking one candidate out
      leaves every other one where it was, holding what it held. */
  lemma {:induction false} RemoveKeepsOthers(v: Value, c: Candidate, d: Candidate)
    requires IsCandidate(v, c) && IsCandidate(v, d) && c != d
    ensures IsCandidate(Remove(v, c), d)
    ensures Held(Remove(v, c), d) == Held(v, d)
    decreases |c.table|
  {
    if c.table == [] {
      if d.table == [] {
      } else {
        assert Held(v, d) == Held(Child(v, d.table[0]), Inner(d));
        NotBeneath(Child(v, d.table[0]), Inner(d));
      }
    } else if d.table != [] && d.table[0] == c.table[0] {
      assert c == Outer(c.table[0], Inner(c)) && d == Outer(c.table[0], Inner(d));
      RemoveKeepsOthers(Child(v, c.table[0]), Inner(c), Inner(d));
    } else if d.table == [] {
      NotBeneath(Child(v, c.table[0]), Inner(c));
    }
  }

  /** A value that holds any key is no default itself. */
  lemma NotBeneath(v: Value, c: Candidate)
    requires HasKey(v, c)
    ensures !LooksDefault(v)
  {
  }

  /** Two candidates can be taken out in either order. */
  lemma {:induction false} RemovesCommute(v: Value, c: Candidate, d: Candidate)
    requires IsCandidate(v, c) && IsCandidate(v, d) && c != d
    ensures HasKey(Remove(v, c), d) && HasKey(Remove(v, d), c)
    ensures Remove(Remove(v, c), d) == Remove(Remove(v, d), c)
    decreases |c.table|
  {
    RemoveKeepsOthers(v, c, d);
    RemoveKeepsOthers(v, d, c);
    if c.table == [] && d.table == [] {
      WithoutCommute(v.order, c.key, d.key);
      assert v.kids - {c.key} - {d.key} == v.kids - {d.key} - {c.key};
    } else if c.table != [] && d.table != [] && c.table[0] == d.table[0] {
      assert c == Outer(c.table[0], Inner(c)) && d == Outer(c.table[0], Inner(d));
      var step := c.table[0];
      RemovesCommute(Child(v, step), Inner(c), Inner(d));
      WithChildTwice(v, step, Remove(Child(v, step), Inner(c)), Remove(Remove(Child(v, step), Inner(c)), Inner(d)));
      WithChildTwice(v, step, Remove(Child(v, step), Inner(d)), Remove(Remove(Child(v, step), Inner(d)), Inner(c)));
    } else if c.table == [] {
      RemovesCommuteApart(v, c, d);
    } else if d.table == [] {
      RemovesCommuteApart(v, d, c);
    } else {
      WithChildApart(v, c.table[0], d.table[0], Remove(Child(v, c.table[0]), Inner(c)),
                     Remove(Child(v, d.table[0]), Inner(d)));
    }
  }

  lemma RemovesCommuteApart(v: Value, c: Candidate, d: Candidate)
    requires IsCandidate(v, c) && IsCandidate(v, d) && c.table == [] && d.table != []
    requires HasKey(Remove(v, c), d) && HasKey(Remove(v, d), c)
    ensures Remove(Remove(v, c), d) == Remove(Remove(v, d), c)
  {
    NotBeneath(Child(v, d.table[0]), Inner(d));
    var n := d.table[0].name;
    var child := Remove(v.kids[n], Inner(d));
    assert (v.kids - {c.key})[n := child] == v.kids[n := child] - {c.key};
  }

  lemma WithChildTwice(v: Value, step: Step, a: Value, b: Value)
    requires Enters(v, step)
    ensures WithChild(WithChild(v, step, a), step, b) == WithChild(v, step, b)
    ensures Child(WithChild(v, step, a), step) == a
  {
  }

  lemma WithChildApart(v: Value, s: Step, t: Step, a: Value, b: Value)
    requires Enters(v, s) && Enters(v, t) && s != t
    ensures WithChild(WithChild(v, s, a), t, b) == WithChild(WithChild(v, t, b), s, a)
    ensures Child(WithChild(v, s, a), t) == Child(v, t)
    ensures Child(WithChild(v, t, b), s) == Child(v, s)
  {
    if s.Key? && t.Key? {
      assert v.kids[s.name := a][t.name := b] == v.kids[t.name := b][s.name := a];
    }
  }

  lemma {:induction false} WithoutCommute(order: seq<string>, j: string, k: string)
    ensures Without(Without(order, j), k) == Without(Without(order, k), j)
  {
    if order != [] {
      WithoutCommute(order[1..], j, k);
    }
  }

  /** Every key in the tree. */
  ghost function KeySet(v: Value): set<Candidate> {
    match v
    case Table(order, kids) =>
      (set k | k in kids :: Candidate([], k))
      + (set k, c | k in kids && c in KeySet(kids[k]) :: Outer(Key(k), c))
    case Array(items) =>
      set i, c | 0 <= i < |items| && c in KeySet(items[i]) :: Outer(Index(i), c)
    case _ => {}
  }

  lemma {:induction false} KeySetIsHasKey(v: Value, c: Candidate)
    ensures c in KeySet(v) <==> HasKey(v, c)
    decreases |c.table|
  {
    if c.table != [] {
      assert c == Outer(c.table[0], Inner(c));
      if Enters(v, c.table[0]) {
        KeySetIsHasKey(Child(v, c.table[0]), Inner(c));
      }
      if c in KeySet(v) {
        if v.Table? {
          var k, e :| k in v.kids && e in KeySet(v.kids[k]) && c == Outer(Key(k), e);
          assert Inner(c) == e;
        } else {
          var i, e :| 0 <= i < |v.items| && e in KeySet(v.items[i]) && c == Outer(Index(i), e);
          assert Inner(c) == e;
        }
      }
    }
  }

  lemma RemoveShrinks(v: Value, c: Candidate)
    requires HasKey(v, c)
    ensures KeySet(Remove(v, c)) <= KeySet(v) - {c}
  {
    forall d | d in KeySet(Remove(v, c))
      ensures d in KeySet(v) && d != c
    {
      KeySetIsHasKey(Remove(v, c), d);
      KeySetIsHasKey(v, d);
      RemoveHasKey(v, c, d);
    }
  }
}
