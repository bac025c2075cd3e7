/** What makes the minimised tree the right one: nothing more can go, and it is the tree that
    trying keys one at a time ends in, whatever the order and however batches are split. */
module MinimiseLaws {
  import opened TomlTree
  import opened Candidates
  import opened Minimise

  /** A reader that reads two trees as the file reads every tree between them as the file. */
  ghost predicate Convex(asFile: Reads) {
    forall u, w, v ::
      Valid(u) && Valid(w) && Valid(v) && Thinner(u, w) && Thinner(w, v) && asFile(u) && asFile(v) ==> asFile(w)
  }

  /** A reader that fills each absent key in on its own: two keys that can each be left out can be
      left out together. */
  ghost predicate Joint(asFile: Reads) {
    forall v, c, d ::
      Valid(v) && IsCandidate(v, c) && IsCandidate(v, d) && c != d
      && asFile(v) && asFile(Remove(v, c)) && asFile(Remove(v, d))
      ==> HasKey(Remove(v, c), d) && asFile(Remove(Remove(v, c), d))
  }

  // ---- Nothing more can go ----

  lemma {:induction false} RemoveMonotone(u: Value, v: Value, c: Candidate)
    requires Valid(u) && Valid(v) && Thinner(u, v) && HasKey(u, c) && HasKey(v, c)
    ensures Thinner(Remove(u, c), Remove(v, c))
    decreases |c.table|
  {
    if c.table == [] {
      WithoutIsKeep(u.order, u.kids.Keys, c.key);
      WithoutIsKeep(v.order, v.kids.Keys, c.key);
      KeepTwice(v.order, u.kids.Keys, u.kids.Keys - {c.key});
      KeepTwice(v.order, v.kids.Keys - {c.key}, u.kids.Keys - {c.key});
    } else {
      var step := c.table[0];
      var a, b := Child(u, step), Child(v, step);
      RemoveMonotone(a, b, Inner(c));
      WithChildThins(u, v, step, Remove(a, Inner(c)), Remove(b, Inner(c)));
    }
  }

  /** A key the file needed before others were taken out, it needs after. */
  lemma StillNeeded(asFile: Reads, v: Value, w: Value, c: Candidate)
    requires Convex(asFile) && Valid(v) && Valid(w) && Thinner(w, v) && asFile(v)
    requires IsCandidate(v, c) && IsCandidate(w, c) && !asFile(Remove(v, c))
    ensures !asFile(Remove(w, c))
  {
    RemoveKeepsValid(v, c);
    RemoveKeepsValid(w, c);
    RemoveMonotone(w, v, c);
    RemoveThins(v, c);
  }

  lemma {:induction false} SettleNeeds(asFile: Reads, v: Value, cs: seq<Candidate>)
    requires Convex(asFile) && Valid(v) && AllCandidates(v, cs) && cs != [] && asFile(v)
    ensures var r := Settle(asFile, v, cs);
            forall c | c in r.kept :: !asFile(Remove(r.value, c))
    decreases |cs|
  {
    if asFile(RemoveAll(v, cs)) {
    } else if |cs| == 1 {
      assert RemoveAll(v, cs) == Remove(v, cs[0]);
    } else {
      var a, b := SettleSplits(asFile, v, cs);
      SettleNeeds(asFile, v, a);
      SettleReads(asFile, v, a);
      var first := Settle(asFile, v, a);
      SettleNeeds(asFile, first.value, b);
      var second := Settle(asFile, first.value, b);
      forall c | c in first.kept
        ensures !asFile(Remove(second.value, c))
      {
        StillNeeded(asFile, first.value, second.value, c);
      }
    }
  }

  /** Every default-looking key left in is one the file needs. */
  ghost predicate Normal(asFile: Reads, v: Value) {
    forall c | IsCandidate(v, c) :: !asFile(Remove(v, c))
  }

  lemma {:induction false} MinimizeFromIsNormal(asFile: Reads, v: Value, kept: set<Candidate>)
    requires Convex(asFile) && Valid(v) && asFile(v)
    requires forall c | c in kept :: IsCandidate(v, c) && !asFile(Remove(v, c))
    ensures Normal(asFile, MinimizeFrom(asFile, v, kept))
    decreases |Undecided(v, kept)|
  {
    var found := Round(v, kept);
    if found != [] {
      SettleDecides(asFile, v, kept, found);
      SettleReads(asFile, v, found);
      SettleNeeds(asFile, v, found);
      var s := Settle(asFile, v, found);
      forall c | c in kept
        ensures IsCandidate(s.value, c) && !asFile(Remove(s.value, c))
      {
        StillNeeded(asFile, v, s.value, c);
      }
      MinimizeFromIsNormal(asFile, s.value, kept + s.kept);
    } else {
      forall c | IsCandidate(v, c)
        ensures !asFile(Remove(v, c))
      {
        assert c !in found;
      }
    }
  }

  /** A boolean, a word that is some default, an empty list or an empty table that is still there is one
      the file needs. */
  lemma NoDefaultStays(asFile: Reads, v: Value, c: Candidate)
    requires Convex(asFile) && Valid(v) && asFile(v) && HasKey(Minimized(asFile, v), c)
    requires var x := Held(Minimized(asFile, v), c);
             x.Boolean? || (x.Text? && x.s in DEFAULT_WORDS) || x == Array([]) || (x.Table? && x.kids == map[])
    ensures !asFile(Remove(Minimized(asFile, v), c))
  {
    MinimizeFromIsNormal(asFile, v, {});
    hide Minimized, Remove, Held, HasKey;
  }

  /** A value that says something by itself: other text, a number or a date, or a list with entries. */
  predicate Says(x: Value) {
    x.Other? || (x.Text? && x.s !in DEFAULT_WORDS) || (x.Array? && x.items != [])
  }

  /** Removing a key that looks like a default takes none of those away. */
  lemma {:induction false} RemoveLeaves(v: Value, c: Candidate, path: Path)
    requires Valid(v) && IsCandidate(v, c) && Leads(v, path) && Says(Found(v, path))
    ensures Leads(Remove(v, c), path) && Says(Found(Remove(v, c), path))
    ensures !Found(v, path).Array? ==> Found(Remove(v, c), path) == Found(v, path)
    ensures Found(v, path).Array? ==>
              Found(Remove(v, c), path).Array? && |Found(Remove(v, c), path).items| == |Found(v, path).items|
    decreases |path|
  {
    if path != [] {
      var step, r := path[0], Remove(v, c);
      if c.table != [] && c.table[0] == step {
        var child := Child(v, step);
        CandidateBelow(v, c);
        RemoveLeaves(child, Inner(c), path[1..]);
      } else if c.table == [] && step == Key(c.key) {
        NothingBelowDefault(v.kids[c.key], path[1..]);
      } else {
        assert Enters(r, step) && Child(r, step) == Child(v, step);
      }
    }
  }

  lemma CandidateBelow(v: Value, c: Candidate)
    requires Valid(v) && IsCandidate(v, c) && c.table != []
    ensures var child := Child(v, c.table[0]);
            && Valid(child) && IsCandidate(child, Inner(c))
            && Enters(Remove(v, c), c.table[0]) && Child(Remove(v, c), c.table[0]) == Remove(child, Inner(c))
  {
  }

  lemma NothingBelowDefault(x: Value, path: Path)
    requires LooksDefault(x)
    ensures Leads(x, path) ==> !Says(Found(x, path))
  {
  }

  /** What is said at `path` is said there still. */
  ghost predicate SaidStill(v: Value, w: Value, path: Path)
    requires Leads(v, path)
  {
    && Leads(w, path) && Says(Found(w, path))
    && var was, now := Found(v, path), Found(w, path);
       if was.Array? then now.Array? && |now.items| == |was.items| else now == was
  }

  lemma {:induction false} BatchLeaves(v: Value, cs: seq<Candidate>, path: Path)
    requires Valid(v) && AllCandidates(v, cs) && Leads(v, path) && Says(Found(v, path))
    ensures SaidStill(v, RemoveAll(v, cs), path)
    decreases |cs|
  {
    if cs != [] {
      RestStay(v, cs);
      RemoveLeaves(v, cs[0], path);
      BatchLeaves(Remove(v, cs[0]), cs[1..], path);
    }
  }

  lemma {:induction false} SettleLeaves(asFile: Reads, v: Value, cs: seq<Candidate>, path: Path)
    requires Valid(v) && AllCandidates(v, cs) && cs != [] && Leads(v, path) && Says(Found(v, path))
    ensures SaidStill(v, Settle(asFile, v, cs).value, path)
    decreases |cs|
  {
    BatchLeaves(v, cs, path);
    if !asFile(RemoveAll(v, cs)) && |cs| > 1 {
      var a, b := SettleSplits(asFile, v, cs);
      SettleLeaves(asFile, v, a, path);
      SettleLeaves(asFile, Settle(asFile, v, a).value, b, path);
    }
    hide Says, Found, Leads, RemoveAll;
  }

  lemma {:induction false} MinimizeLeaves(asFile: Reads, v: Value, kept: set<Candidate>, path: Path)
    requires Valid(v) && Leads(v, path) && Says(Found(v, path))
    ensures SaidStill(v, MinimizeFrom(asFile, v, kept), path)
    decreases |Undecided(v, kept)|
  {
    hide Says, Found, Leads;
    var found := Round(v, kept);
    if found != [] {
      SettleDecides(asFile, v, kept, found);
      SettleLeaves(asFile, v, found, path);
      var s := Settle(asFile, v, found);
      MinimizeLeaves(asFile, s.value, kept + s.kept, path);
    }
  }

  /** So everything the whole tree says by itself is at its place in the minimised one, whatever the
      reader does. */
  lemma SettingsStay(asFile: Reads, v: Value, path: Path)
    requires Valid(v) && Leads(v, path) && Says(Found(v, path))
    ensures SaidStill(v, Minimized(asFile, v), path)
  {
    MinimizeLeaves(asFile, v, {}, path);
  }

  /** No key, and no batch of keys, of the minimised tree can be left out. */
  lemma NothingMoreCanGo(asFile: Reads, v: Value, cs: seq<Candidate>)
    requires Convex(asFile) && Valid(v) && asFile(v)
    requires AllCandidates(Minimized(asFile, v), cs) && cs != []
    ensures !asFile(RemoveAll(Minimized(asFile, v), cs))
  {
    var m := Minimized(asFile, v);
    MinimizeFromIsNormal(asFile, v, {});
    MinimizeReads(asFile, v, {});
    RestStay(m, cs);
    RemoveThins(m, cs[0]);
    assert RemoveAll(m, cs) == RemoveAll(Remove(m, cs[0]), cs[1..]);
  }

  // ---- The simple form: one key at a time ----

  /** `cs` are keys taken out one after another, the tree reading as the file after each. */
  ghost predicate Run(asFile: Reads, v: Value, cs: seq<Candidate>)
    decreases |cs|
  {
    cs == [] || (
      && IsCandidate(v, cs[0])
      && asFile(Remove(v, cs[0]))
      && Run(asFile, Remove(v, cs[0]), cs[1..]))
  }

  ghost function End(asFile: Reads, v: Value, cs: seq<Candidate>): (r: Value)
    requires Run(asFile, v, cs)
    decreases |cs|
  {
    if cs == [] then v else End(asFile, Remove(v, cs[0]), cs[1..])
  }

  lemma {:induction false} RunThenRun(asFile: Reads, v: Value, cs: seq<Candidate>, ds: seq<Candidate>)
    requires Run(asFile, v, cs) && Run(asFile, End(asFile, v, cs), ds)
    ensures Run(asFile, v, cs + ds)
    ensures End(asFile, v, cs + ds) == End(asFile, End(asFile, v, cs), ds)
    decreases |cs|
  {
    hide HasKey, Held, Remove;
    if cs == [] {
      assert cs + ds == ds;
    } else {
      assert (cs + ds)[1..] == cs[1..] + ds;
      RunThenRun(asFile, Remove(v, cs[0]), cs[1..], ds);
    }
  }

  lemma {:induction false} BatchIsRun(asFile: Reads, v: Value, cs: seq<Candidate>)
    requires Convex(asFile) && Valid(v) && AllCandidates(v, cs) && asFile(v) && asFile(RemoveAll(v, cs))
    ensures Run(asFile, v, cs) && End(asFile, v, cs) == RemoveAll(v, cs)
    decreases |cs|
  {
    if cs != [] {
      RestStay(v, cs);
      RemoveThins(v, cs[0]);
      BatchIsRun(asFile, Remove(v, cs[0]), cs[1..]);
    }
  }

  lemma {:induction false} SettleIsRun(asFile: Reads, v: Value, cs: seq<Candidate>) returns (ds: seq<Candidate>)
    requires Convex(asFile) && Valid(v) && AllCandidates(v, cs) && cs != [] && asFile(v)
    ensures Run(asFile, v, ds) && End(asFile, v, ds) == Settle(asFile, v, cs).value
    decreases |cs|
  {
    if asFile(RemoveAll(v, cs)) {
      BatchIsRun(asFile, v, cs);
      ds := cs;
    } else if |cs| == 1 {
      ds := [];
    } else {
      var a, b := SettleSplits(asFile, v, cs);
      SettleReads(asFile, v, a);
      var first := SettleIsRun(asFile, v, a);
      var second := SettleIsRun(asFile, Settle(asFile, v, a).value, b);
      RunThenRun(asFile, v, first, second);
      ds := first + second;
    }
  }

  lemma {:induction false} MinimizeIsRun(asFile: Reads, v: Value, kept: set<Candidate>) returns (ds: seq<Candidate>)
    requires Convex(asFile) && Valid(v) && asFile(v)
    ensures Run(asFile, v, ds) && End(asFile, v, ds) == MinimizeFrom(asFile, v, kept)
    decreases |Undecided(v, kept)|
  {
    var found := Round(v, kept);
    if found == [] {
      ds := [];
    } else {
      SettleDecides(asFile, v, kept, found);
      SettleReads(asFile, v, found);
      var a := SettleIsRun(asFile, v, found);
      var s := Settle(asFile, v, found);
      var b := MinimizeIsRun(asFile, s.value, kept + s.kept);
      RunThenRun(asFile, v, a, b);
      ds := a + b;
    }
  }

  /** A run to a tree nothing can leave is still open after any other key went first. */
  lemma {:induction false} Diamond(asFile: Reads, v: Value, c: Candidate, ds: seq<Candidate>)
    returns (es: seq<Candidate>)
    requires Joint(asFile) && Valid(v) && asFile(v)
    requires IsCandidate(v, c) && asFile(Remove(v, c))
    requires Run(asFile, v, ds) && Normal(asFile, End(asFile, v, ds))
    ensures Run(asFile, Remove(v, c), es) && End(asFile, Remove(v, c), es) == End(asFile, v, ds)
    decreases |ds|
  {
    if ds[0] == c {
      es := ds[1..];
    } else {
      var d := ds[0];
      RemoveKeepsValid(v, d);
      RemoveKeepsOthers(v, d, c);
      RemoveKeepsOthers(v, c, d);
      RemovesCommute(v, c, d);
      assert asFile(Remove(Remove(v, c), d));
      var rest := Diamond(asFile, Remove(v, d), c, ds[1..]);
      es := [d] + rest;
      assert es[1..] == rest;
    }
  }

  /** Two runs that can go no further end in the same tree. */
  lemma {:induction false} RunsAgree(asFile: Reads, v: Value, cs: seq<Candidate>, ds: seq<Candidate>)
    requires Joint(asFile) && Valid(v) && asFile(v)
    requires Run(asFile, v, cs) && Normal(asFile, End(asFile, v, cs))
    requires Run(asFile, v, ds) && Normal(asFile, End(asFile, v, ds))
    ensures End(asFile, v, cs) == End(asFile, v, ds)
    decreases |cs|
  {
    if cs == [] {
    } else {
      var es := Diamond(asFile, v, cs[0], ds);
      RemoveKeepsValid(v, cs[0]);
      RunsAgree(asFile, Remove(v, cs[0]), cs[1..], es);
    }
  }

  /** Bisection refines the simple form: for a reader that fills absent keys in one by one, any way
      of trying keys one at a time until none can go ends in exactly the minimised tree. */
  lemma MinimizeIsOneAtATime(asFile: Reads, v: Value, cs: seq<Candidate>)
    requires Convex(asFile) && Joint(asFile) && Valid(v) && asFile(v)
    requires Run(asFile, v, cs) && Normal(asFile, End(asFile, v, cs))
    ensures End(asFile, v, cs) == Minimized(asFile, v)
  {
    var ds := MinimizeIsRun(asFile, v, {});
    MinimizeFromIsNormal(asFile, v, {});
    RunsAgree(asFile, v, cs, ds);
  }

  /** And some such run exists, so the statement above is about something. */
  lemma MinimizeHasARun(asFile: Reads, v: Value)
    requires Convex(asFile) && Valid(v) && asFile(v)
    ensures exists cs :: Run(asFile, v, cs) && End(asFile, v, cs) == Minimized(asFile, v)
              && Normal(asFile, End(asFile, v, cs))
  {
    var cs := MinimizeIsRun(asFile, v, {});
    MinimizeFromIsNormal(asFile, v, {});
  }
}
