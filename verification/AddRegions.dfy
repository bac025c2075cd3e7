/** A stage's `add`: regions laid over the graph's shared layout. */
module AddRegions {
  import opened Wrappers
  import opened Sets

  datatype Region = Region(name: string, definition: string)

  datatype Layout = Layout(regions: seq<Region>, totalBudget: nat, evictionOrder: seq<string>)

  datatype Stage = Stage(name: string, layout: Option<Layout>, hidden: seq<string>)

  datatype FoldError = HasLayout | AlwaysShown(region: string) | Declared(region: string)

  // ---- The overlay ----

  /** The first region of `added` called `name`. */
  function Find(added: seq<Region>, name: string): (r: Option<nat>)
    ensures r.Some? ==> r.value < |added| && added[r.value].name == name && forall i :: 0 <= i < r.value ==>
              added[i].name != name
    ensures r.None? ==> forall i :: 0 <= i < |added| ==> added[i].name != name
  {
    if added == [] then None
    else if added[0].name == name then Some(0)
    else
      var rest := Find(added[1..], name);
      if rest.Some? then Some(rest.value + 1) else None
  }

  function Drop<T>(s: seq<T>, i: nat): seq<T>
    requires i < |s|
  {
    s[..i] + s[i + 1..]
  }

  /** `added` without the first region of that name. */
  function Rest(added: seq<Region>, name: string): seq<Region> {
    var j := Find(added, name);
    if j.Some? then Drop(added, j.value) else added
  }

  /** The simple form: each shared region in turn gives its place to the first region of its name
      among those left, and what is left in the end follows. */
  function Laid(shared: seq<Region>, added: seq<Region>): seq<Region>
    decreases |shared|
  {
    if shared == [] then added
    else
      var j := Find(added, shared[0].name);
      [if j.Some? then added[j.value] else shared[0]] + Laid(shared[1..], Rest(added, shared[0].name))
  }

  function Live(slots: seq<Option<Region>>): seq<Region> {
    if slots == [] then []
    else (if slots[0].Some? then [slots[0].value] else []) + Live(slots[1..])
  }

  lemma {:induction false} LiveOfBoth(a: seq<Option<Region>>, b: seq<Option<Region>>)
    ensures Live(a + b) == Live(a) + Live(b)
  {
    hide Live;
    LiveFirst(a);
    if a == [] {
      assert a + b == b;
    } else {
      assert (a + b)[1..] == a[1..] + b && (a + b)[0] == a[0];
      LiveOfBoth(a[1..], b);
      LiveFirst(a + b);
    }
  }

  lemma LiveFirst(slots: seq<Option<Region>>)
    ensures Live(slots) ==
            if slots == [] then [] else (if slots[0].Some? then [slots[0].value] else []) + Live(slots[1..])
  {
  }

  lemma {:induction false} FindAfter(a: seq<Region>, region: Region, b: seq<Region>)
    requires forall i :: 0 <= i < |a| ==> a[i].name != region.name
    ensures Find(a + [region] + b, region.name) == Some(|a|) && Drop(a + [region] + b, |a|) == a + b
  {
    var all := a + [region] + b;
    assert all[|a|] == region;
    assert forall i :: 0 <= i < |a| ==> all[i] == a[i];
  }

  lemma {:induction false} LiveNames(slots: seq<Option<Region>>, name: string)
    requires forall i :: 0 <= i < |slots| ==> slots[i].None? || slots[i].value.name != name
    ensures forall i :: 0 <= i < |Live(slots)| ==> Live(slots)[i].name != name
  {
    if slots != [] {
      LiveNames(slots[1..], name);
    }
  }

  /** Taking the region out of its slot is taking it out of those left. */
  lemma TakenOut(slots: seq<Option<Region>>, j: nat)
    requires j < |slots| && slots[j].Some?
    requires forall i :: 0 <= i < j ==> slots[i].None? || slots[i].value.name != slots[j].value.name
    ensures var at := |Live(slots[..j])|;
            && Find(Live(slots), slots[j].value.name) == Some(at)
            && Live(slots)[at] == slots[j].value
            && Live(slots[j := None]) == Drop(Live(slots), at)
  {
    hide Find, Drop;
    SplitAt(slots, j);
    SplitAt(slots[j := None], j);
    LiveNames(slots[..j], slots[j].value.name);
    FindAfter(Live(slots[..j]), slots[j].value, Live(slots[j + 1..]));
    hide Live;
    assert slots[j := None][..j] == slots[..j] && slots[j := None][j + 1..] == slots[j + 1..];
    assert forall a: seq<Region>, b :: a + [] + b == a + b;
  }

  lemma SplitAt(slots: seq<Option<Region>>, j: nat)
    requires j < |slots|
    ensures Live(slots) == Live(slots[..j]) + (if slots[j].Some? then [slots[j].value] else []) + Live(slots[j + 1..])
  {
    hide Live;
    assert slots == slots[..j] + slots[j..];
    LiveOfBoth(slots[..j], slots[j..]);
    LiveFrom(slots, j);
  }

  lemma LiveFrom(slots: seq<Option<Region>>, j: nat)
    requires j < |slots|
    ensures Live(slots[j..]) == (if slots[j].Some? then [slots[j].value] else []) + Live(slots[j + 1..])
  {
    assert slots[j..][1..] == slots[j + 1..];
  }

  lemma PlaceTaken(shared: seq<Region>, i: nat, slots: seq<Option<Region>>, j: nat)
    requires i < |shared| && j < |slots| && slots[j].Some? && slots[j].value.name == shared[i].name
    requires forall k :: 0 <= k < j ==> slots[k].None? || slots[k].value.name != shared[i].name
    ensures Laid(shared[i..], Live(slots)) == [slots[j].value] + Laid(shared[i + 1..], Live(slots[j := None]))
  {
    TakenOut(slots, j);
    assert shared[i..][1..] == shared[i + 1..];
    hide Live, Drop;
  }

  lemma PlaceKept(shared: seq<Region>, i: nat, slots: seq<Option<Region>>)
    requires i < |shared|
    requires forall k :: 0 <= k < |slots| ==> slots[k].None? || slots[k].value.name != shared[i].name
    ensures Laid(shared[i..], Live(slots)) == [shared[i]] + Laid(shared[i + 1..], Live(slots))
  {
    LiveNames(slots, shared[i].name);
    assert shared[i..][1..] == shared[i + 1..];
  }

  /** `merge_regions`: slots emptied as their regions are taken. */
  method MergeRegions(shared: seq<Region>, added: seq<Region>) returns (out: seq<Region>)
    ensures out == Laid(shared, added)
  {
    hide Live, Laid;
    var slots: seq<Option<Region>> := seq(|added|, i requires 0 <= i < |added| => Some(added[i]));
    AllLive(added);
    assert shared[0..] == shared;
    out := [];
    var i := 0;
    while i < |shared|
      invariant i <= |shared|
      invariant out + Laid(shared[i..], Live(slots)) == Laid(shared, added)
    {
      var j := 0;
      while j < |slots| && (slots[j].None? || slots[j].value.name != shared[i].name)
        invariant j <= |slots|
        invariant forall k :: 0 <= k < j ==> slots[k].None? || slots[k].value.name != shared[i].name
      {
        j := j + 1;
      }
      if j < |slots| {
        PlaceTaken(shared, i, slots, j);
        out := out + [slots[j].value];
        slots := slots[j := None];
      } else {
        PlaceKept(shared, i, slots);
        out := out + [shared[i]];
      }
      i := i + 1;
    }
    assert shared[i..] == [];
    NothingLaid(Live(slots));
    out := out + Live(slots);
  }

  lemma NothingLaid(added: seq<Region>)
    ensures Laid([], added) == added
  {
  }

  lemma {:induction false} AllLive(added: seq<Region>)
    ensures Live(seq(|added|, i requires 0 <= i < |added| => Some(added[i]))) == added
  {
    var slots: seq<Option<Region>> := seq(|added|, i requires 0 <= i < |added| => Some(added[i]));
    if added != [] {
      AllLive(added[1..]);
      assert slots[1..] == seq(|added[1..]|, i requires 0 <= i < |added[1..]| => Some(added[1..][i]));
    }
  }

  // ---- What the overlay keeps ----

  function Named(s: seq<Region>, name: string): seq<Region> {
    if s == [] then [] else (if s[0].name == name then [s[0]] else []) + Named(s[1..], name)
  }

  lemma {:induction false} NamedOfBoth(a: seq<Region>, b: seq<Region>, name: string)
    ensures Named(a + b, name) == Named(a, name) + Named(b, name)
  {
    if a == [] {
      assert a + b == b;
    } else {
      var rest := a[1..];
      assert (a + b)[1..] == rest + b && (a + b)[0] == a[0];
      NamedOfBoth(rest, b, name);
      var first := if a[0].name == name then [a[0]] else [];
      assert first + (Named(rest, name) + Named(b, name)) == first + Named(rest, name) + Named(b, name);
    }
  }

  lemma {:induction false} NoneNamed(s: seq<Region>, name: string)
    ensures Named(s, name) == [] <==> forall i :: 0 <= i < |s| ==> s[i].name != name
  {
    if s != [] {
      NoneNamed(s[1..], name);
      if forall i :: 0 <= i < |s[1..]| ==> s[1..][i].name != name {
        assert forall i :: 0 < i < |s| ==> s[i] == s[1..][i - 1];
      }
    }
  }

  /** With the first region of a name taken, the others of that name are the rest of them, and those
      of any other name the same. */
  lemma RestNamed(added: seq<Region>, first: string, name: string)
    ensures var j, of := Find(added, first), Named(added, first);
            && (j.Some? <==> of != [])
            && (j.Some? ==> added[j.value] == of[0])
            && Named(Rest(added, first), name) == if name == first && of != [] then of[1..] else Named(added, name)
  {
    NoneNamed(added, first);
    var found := Find(added, first);
    if found.Some? {
      var j := found.value;
      var a, b := added[..j], added[j + 1..];
      assert added == a + ([added[j]] + b);
      NamedOfBoth(a, [added[j]] + b, name);
      NamedOfBoth(a, [added[j]] + b, first);
      NamedOfBoth(a, b, name);
      NoneNamed(a, first);
    }
  }

  /** Place by place, for any names, repeated or not: the place of a shared region keeps its name; it
      is taken by the next added region of that name as long as there is one, and kept after. */
  lemma {:induction false} LaidAt(shared: seq<Region>, added: seq<Region>, i: nat)
    requires i < |shared|
    ensures |Laid(shared, added)| >= |shared|
    ensures var name := shared[i].name;
            var nth := |Named(shared[..i], name)|;
            Laid(shared, added)[i] == if nth < |Named(added, name)| then Named(added, name)[nth] else shared[i]
    decreases |shared|
  {
    hide Laid, Named, Find, Rest;
    LaidLength(shared, added);
    if i == 0 {
      LaidFirst(shared, added);
      assert Named(shared[..0], shared[0].name) == [];
    } else {
      var name, first := shared[i].name, shared[0].name;
      LaidAt(shared[1..], Rest(added, first), i - 1);
      LaidNext(shared, added, i);
      RestNamed(added, first, name);
      NamedStep(shared[..i], name);
      assert shared[..i][1..] == shared[1..][..i - 1];
    }
  }

  lemma LaidFirst(shared: seq<Region>, added: seq<Region>)
    requires shared != []
    ensures var of := Named(added, shared[0].name);
            Laid(shared, added)[0] == if of != [] then of[0] else shared[0]
    ensures Named([], shared[0].name) == []
  {
    RestNamed(added, shared[0].name, shared[0].name);
    hide Named, Rest;
  }

  lemma LaidNext(shared: seq<Region>, added: seq<Region>, i: nat)
    requires 0 < i < |shared|
    ensures |Laid(shared[1..], Rest(added, shared[0].name))| >= |shared| - 1 && |Laid(shared, added)| >= |shared|
    ensures Laid(shared, added)[i] == Laid(shared[1..], Rest(added, shared[0].name))[i - 1]
  {
    LaidLength(shared[1..], Rest(added, shared[0].name));
    LaidLength(shared, added);
    hide Rest, Find;
  }

  lemma NamedStep(s: seq<Region>, name: string)
    requires s != []
    ensures Named(s, name) == (if s[0].name == name then [s[0]] else []) + Named(s[1..], name)
  {
  }

  lemma {:induction false} LaidLength(shared: seq<Region>, added: seq<Region>)
    ensures |Laid(shared, added)| >= |shared|
    decreases |shared|
  {
    if shared != [] {
      LaidLength(shared[1..], Rest(added, shared[0].name));
    }
  }

  /** More added regions of this one's name come before it than there are shared ones: no place is left
      for it. */
  ghost predicate Surplus(shared: seq<Region>, added: seq<Region>, j: nat) {
    j < |added| && |Named(added[..j], added[j].name)| >= |Named(shared, added[j].name)|
  }

  /** At each shared place stands the next added region of that place's name, while there is one, and the
      shared one after that; behind them follow the added regions there was no place for, in order. */
  ghost predicate LaidOver(shared: seq<Region>, added: seq<Region>, regions: seq<Region>) {
    && |regions| >= |shared|
    && (forall i :: 0 <= i < |shared| ==> PlacedAt(shared, added, regions, i))
    && exists at :: TakenAt(added, at, regions[|shared|..]) && forall j: nat :: j in at <==> Surplus(shared, added, j)
  }

  ghost predicate PlacedAt(shared: seq<Region>, added: seq<Region>, regions: seq<Region>, i: nat)
    requires i < |shared| <= |regions|
  {
    var name := shared[i].name;
    var mine, nth := Named(added, name), |Named(shared[..i], name)|;
    regions[i] == if nth < |mine| then mine[nth] else shared[i]
  }

  lemma LaidIsOver(shared: seq<Region>, added: seq<Region>)
    ensures LaidOver(shared, added, Laid(shared, added))
  {
    hide Laid, Named, Surplus;
    LaidLength(shared, added);
    forall i | 0 <= i < |shared| ensures PlacedAt(shared, added, Laid(shared, added), i) {
      LaidAt(shared, added, i);
    }
    var at := LaidTail(shared, added);
  }

  lemma {:induction false} LaidTail(shared: seq<Region>, added: seq<Region>) returns (at: seq<nat>)
    ensures |Laid(shared, added)| >= |shared| && TakenAt(added, at, Laid(shared, added)[|shared|..])
    ensures forall j: nat :: j in at <==> Surplus(shared, added, j)
    decreases |shared|
  {
    LaidLength(shared, added);
    if shared == [] {
      at := seq(|added|, j requires 0 <= j < |added| => j);
      forall j: nat ensures j in at <==> Surplus(shared, added, j) {
        assert j < |added| ==> at[j] == j;
      }
    } else {
      var first := shared[0].name;
      var found, rest := Find(added, first), Rest(added, first);
      var below := LaidTail(shared[1..], rest);
      TailStep(shared, added);
      hide Laid, Named;
      if found.None? {
        at := below;
        forall j: nat ensures Surplus(shared, added, j) <==> Surplus(shared[1..], added, j) {
          OthersSurplus(shared, added, j);
        }
      } else {
        at := seq(|below|, k requires 0 <= k < |below| => Up(below[k], found.value));
        hide Surplus;
        TakenFromRest(added, found.value, below, Laid(shared, added)[|shared|..]);
        forall j: nat ensures j in at <==> Surplus(shared, added, j) {
          UpMembers(below, found.value, j);
          RestSurplus(shared, added, found.value, j);
        }
      }
    }
  }

  /** Where the region now at `k` was, before the one at `j` was taken out. */
  function Up(k: nat, j: nat): nat {
    if k < j then k else k + 1
  }

  lemma TailStep(shared: seq<Region>, added: seq<Region>)
    requires shared != []
    ensures |Laid(shared, added)| >= |shared| && |Laid(shared[1..], Rest(added, shared[0].name))| >= |shared| - 1
    ensures Laid(shared, added)[|shared|..] == Laid(shared[1..], Rest(added, shared[0].name))[|shared| - 1..]
  {
    LaidLength(shared, added);
    LaidLength(shared[1..], Rest(added, shared[0].name));
  }

  lemma TakenFromRest(added: seq<Region>, j: nat, below: seq<nat>, part: seq<Region>)
    requires j < |added| && TakenAt(Drop(added, j), below, part)
    ensures TakenAt(added, seq(|below|, k requires 0 <= k < |below| => Up(below[k], j)), part)
  {
  }

  lemma UpMembers(below: seq<nat>, i: nat, j: nat)
    ensures var at := seq(|below|, k requires 0 <= k < |below| => Up(below[k], i));
            j in at <==> j != i && (if j < i then j else j - 1) in below
  {
    var at := seq(|below|, k requires 0 <= k < |below| => Up(below[k], i));
    var was := if j < i then j else j - 1;
    if j != i && was in below {
      var k :| 0 <= k < |below| && below[k] == was;
      assert at[k] == j;
    }
  }

  lemma OthersSurplus(shared: seq<Region>, added: seq<Region>, j: nat)
    requires shared != [] && Find(added, shared[0].name).None?
    ensures Surplus(shared, added, j) <==> Surplus(shared[1..], added, j)
  {
    if j < |added| {
      NamedStep(shared, added[j].name);
    }
    hide Named;
  }

  lemma RestSurplus(shared: seq<Region>, added: seq<Region>, i: nat, j: nat)
    requires shared != [] && Find(added, shared[0].name) == Some(i)
    ensures Surplus(shared, added, j) <==>
            j != i && Surplus(shared[1..], Rest(added, shared[0].name), if j < i then j else j - 1)
  {
    if j < |added| {
      var name := added[j].name;
      NamedStep(shared, name);
      NoneNamed(added[..j], name);
      var rest := Rest(added, shared[0].name);
      if j > i {
        NamedBefore(added, i, j, name);
        assert rest[j - 1] == added[j];
      } else if j < i {
        assert rest[..j] == added[..j] && rest[j] == added[j];
      }
    }
    hide Named;
  }

  lemma NamedBefore(added: seq<Region>, i: nat, j: nat, name: string)
    requires i < j < |added|
    ensures |Named(added[..j], name)| == |Named(Drop(added, i)[..j - 1], name)| + if added[i].name == name then 1 else 0
  {
    var a, b := added[..i], added[i + 1..j];
    assert added[..j] == a + ([added[i]] + b) && Drop(added, i)[..j - 1] == a + b;
    NamedOfBoth(a, [added[i]] + b, name);
    NamedOfBoth([added[i]], b, name);
    NamedOfBoth(a, b, name);
    NamedStep([added[i]], name);
    assert [added[i]][1..] == [] && Named([], name) == [];
    hide Named;
  }

  /** The shared regions no added region replaced. */
  function Left(shared: seq<Region>, added: seq<Region>): seq<Region>
    decreases |shared|
  {
    if shared == [] then []
    else
      (if Find(added, shared[0].name).Some? then [] else [shared[0]]) + Left(shared[1..], Rest(added, shared[0].name))
  }

  /** Every added region is there exactly once, beside the shared regions left. */
  lemma {:induction false} LaidConserves(shared: seq<Region>, added: seq<Region>)
    ensures multiset(Laid(shared, added)) == multiset(added) + multiset(Left(shared, added))
    decreases |shared|
  {
    if shared != [] {
      LaidConserves(shared[1..], Rest(added, shared[0].name));
      RestTakesOne(added, shared[0].name);
      hide Find, Rest;
    }
  }

  lemma RestTakesOne(added: seq<Region>, name: string)
    ensures var j := Find(added, name);
            multiset(added) == multiset(Rest(added, name)) + if j.Some? then multiset{added[j.value]} else multiset{}
  {
    var j := Find(added, name);
    if j.Some? {
      assert added == added[..j.value] + [added[j.value]] + added[j.value + 1..];
    }
  }

  /** Of each name, as many shared regions are left as outnumber the added ones: the last ones. */
  lemma {:induction false} LeftNamed(shared: seq<Region>, added: seq<Region>, name: string)
    ensures var s, a := Named(shared, name), |Named(added, name)|;
            Named(Left(shared, added), name) == if a <= |s| then s[a..] else []
    decreases |shared|
  {
    if shared != [] {
      var first := shared[0];
      RestNamed(added, first.name, name);
      LeftNamed(shared[1..], Rest(added, first.name), name);
      NamedStep(shared, name);
      LeftStep(shared, added, name);
      hide Left, Named, Find, Rest;
    }
  }

  lemma LeftStep(shared: seq<Region>, added: seq<Region>, name: string)
    requires shared != []
    ensures var stays := Find(added, shared[0].name).None? && shared[0].name == name;
            Named(Left(shared, added), name)
              == (if stays then [shared[0]] else []) + Named(Left(shared[1..], Rest(added, shared[0].name)), name)
  {
    var mine := if Find(added, shared[0].name).Some? then [] else [shared[0]];
    NamedOfBoth(mine, Left(shared[1..], Rest(added, shared[0].name)), name);
  }

  // ---- Folding one stage's `add` into its layout ----

  const ALWAYS_VISIBLE := ["conversation", "tool_results", "final_output", "stage_instructions"]

  predicate Declares(regions: seq<Region>, name: string) {
    exists i :: 0 <= i < |regions| && regions[i].name == name
  }

  /** Why this region cannot be added to the stage. */
  function Refusal(shared: Layout, stage: Stage, region: Region): Option<FoldError> {
    if region.name in ALWAYS_VISIBLE then Some(AlwaysShown(region.name))
    else if Declares(shared.regions, region.name) && region.name !in stage.hidden then Some(Declared(region.name))
    else None
  }

  function FirstRefusal(shared: Layout, stage: Stage, added: seq<Region>): (r: Option<FoldError>)
    ensures r.None? <==> forall i :: 0 <= i < |added| ==> Refusal(shared, stage, added[i]).None?
  {
    if added == [] then None
    else
      var first := Refusal(shared, stage, added[0]);
      if first.Some? then first else FirstRefusal(shared, stage, added[1..])
  }

  /** The hidden names that no added region carries. */
  function StillHidden(hidden: seq<string>, added: seq<Region>): (r: seq<string>)
    ensures forall name :: name in r <==> name in hidden && !Declares(added, name)
  {
    if hidden == [] then []
    else (if Declares(added, hidden[0]) then [] else [hidden[0]]) + StillHidden(hidden[1..], added)
  }

  function FoldStage(shared: Layout, stage: Stage, added: seq<Region>): Result<Stage, FoldError> {
    if stage.layout.Some? then Err(HasLayout)
    else
      var refusal := FirstRefusal(shared, stage, added);
      if refusal.Some? then Err(refusal.value)
      else Ok(stage.(hidden := StillHidden(stage.hidden, added),
                     layout := Some(shared.(regions := Laid(shared.regions, added)))))
  }

  /** When a stage is folded, and what of it and of the shared layout its own layout carries on. */
  lemma FoldMeans(shared: Layout, stage: Stage, added: seq<Region>)
    ensures FoldStage(shared, stage, added).Ok? <==>
            && stage.layout.None?
            && forall i :: 0 <= i < |added| ==>
                 && added[i].name !in ALWAYS_VISIBLE
                 && (Declares(shared.regions, added[i].name) ==> added[i].name in stage.hidden)
    ensures FoldStage(shared, stage, added).Ok? ==>
              var after := FoldStage(shared, stage, added).value;
              && after.name == stage.name && after.layout.Some?
              && after.layout.value.totalBudget == shared.totalBudget
              && after.layout.value.evictionOrder == shared.evictionOrder
              && (forall i :: 0 <= i < |added| ==> added[i].name !in after.hidden)
              && (forall name :: name in after.hidden ==> name in stage.hidden)
              && (forall name :: name in stage.hidden && name !in after.hidden ==> Declares(added, name))
  {
    hide Laid, StillHidden, FirstRefusal, Declares;
    assert forall i :: 0 <= i < |added| ==> Declares(added, added[i].name) by {
      ListedNames(added);
    }
  }

  lemma ListedNames(added: seq<Region>)
    ensures forall i :: 0 <= i < |added| ==> Declares(added, added[i].name)
  {
  }

  /** `after` is the stage with the added regions laid over the shared layout, and the hidden names left,
      in order, that no added region carries. */
  ghost predicate Folded(shared: Layout, stage: Stage, added: seq<Region>, after: Stage) {
    && stage.layout.None? && after.name == stage.name && after.layout.Some?
    && LaidOver(shared.regions, added, after.layout.value.regions)
    && after.layout.value.totalBudget == shared.totalBudget
    && after.layout.value.evictionOrder == shared.evictionOrder
    && exists at :: TakenAt(stage.hidden, at, after.hidden)
                    && forall j: nat :: j in at <==> j < |stage.hidden| && !Declares(added, stage.hidden[j])
  }

  /** Why the stage is left alone: it has a layout of its own; or this is what is wrong with the first
      region that cannot be added. */
  ghost predicate RefusedFor(shared: Layout, stage: Stage, added: seq<Region>, error: FoldError) {
    if stage.layout.Some? then error == HasLayout
    else exists i: nat :: FirstWrong(shared, stage, added, i, error)
  }

  ghost predicate FirstWrong(shared: Layout, stage: Stage, added: seq<Region>, i: nat, error: FoldError) {
    && i < |added| && Wrong(shared, stage, added[i])
    && (forall j :: 0 <= j < i ==> !Wrong(shared, stage, added[j]))
    && error == if added[i].name in ALWAYS_VISIBLE then AlwaysShown(added[i].name) else Declared(added[i].name)
  }

  predicate Wrong(shared: Layout, stage: Stage, region: Region) {
    region.name in ALWAYS_VISIBLE || (Declares(shared.regions, region.name) && region.name !in stage.hidden)
  }

  /** Folding a stage gives it that layout, or refuses for that reason. */
  lemma FoldLays(shared: Layout, stage: Stage, added: seq<Region>)
    ensures match FoldStage(shared, stage, added)
            case Ok(after) => Folded(shared, stage, added, after)
            case Err(error) => RefusedFor(shared, stage, added, error)
  {
    LaidIsOver(shared.regions, added);
    var at := HiddenLeft(stage.hidden, added);
    hide Laid, StillHidden, LaidOver;
    if stage.layout.None? && FirstRefusal(shared, stage, added).Some? {
      FirstIsWrong(shared, stage, added);
    }
  }

  lemma {:induction false} HiddenLeft(hidden: seq<string>, added: seq<Region>) returns (at: seq<nat>)
    ensures TakenAt(hidden, at, StillHidden(hidden, added))
    ensures forall j: nat :: j in at <==> j < |hidden| && !Declares(added, hidden[j])
    decreases |hidden|
  {
    hide Declares;
    if hidden == [] {
      at := [];
    } else {
      var below := HiddenLeft(hidden[1..], added);
      var gone := Declares(added, hidden[0]);
      HiddenStep(hidden, added);
      hide StillHidden;
      TakenWithFirst(hidden, below, StillHidden(hidden[1..], added), !gone);
      at := if gone then Later(below) else [0] + Later(below);
      forall j: nat ensures j in at <==> j < |hidden| && !Declares(added, hidden[j]) {
        LaterMembers(below, j);
        assert j > 0 && j < |hidden| ==> hidden[j] == hidden[1..][j - 1];
      }
    }
  }

  lemma HiddenStep(hidden: seq<string>, added: seq<Region>)
    requires hidden != []
    ensures var rest := StillHidden(hidden[1..], added);
            StillHidden(hidden, added) == if Declares(added, hidden[0]) then rest else [hidden[0]] + rest
  {
  }

  lemma {:induction false} FirstIsWrong(shared: Layout, stage: Stage, added: seq<Region>)
    requires stage.layout.None? && FirstRefusal(shared, stage, added).Some?
    ensures RefusedFor(shared, stage, added, FirstRefusal(shared, stage, added).value)
  {
    var error := FirstRefusal(shared, stage, added).value;
    if Wrong(shared, stage, added[0]) {
      assert FirstWrong(shared, stage, added, 0, error);
    } else {
      FirstIsWrong(shared, stage, added[1..]);
      var i: nat :| FirstWrong(shared, stage, added[1..], i, error);
      assert added[1..][i] == added[i + 1] && forall j :: 0 < j <= i ==> added[j] == added[1..][j - 1];
      assert FirstWrong(shared, stage, added, i + 1, error);
    }
  }

  // ---- What a stage shows ----

  function Shown(regions: seq<Region>, hidden: seq<string>): seq<Region> {
    if regions == [] then []
    else (if regions[0].name in hidden then [] else [regions[0]]) + Shown(regions[1..], hidden)
  }

  /** The regions of the layout the stage runs with, its own or the shared one, less those it hides. */
  function StageShows(shared: Layout, stage: Stage): seq<Region> {
    Shown(if stage.layout.Some? then stage.layout.value.regions else shared.regions, stage.hidden)
  }

  lemma {:induction false} ShownCount(regions: seq<Region>, hidden: seq<string>, r: Region)
    ensures multiset(Shown(regions, hidden))[r] == if r.name in hidden then 0 else multiset(regions)[r]
  {
    if regions != [] {
      ShownCount(regions[1..], hidden, r);
      assert regions == [regions[0]] + regions[1..];
    }
  }

  lemma {:induction false} NamedCount(s: seq<Region>, r: Region)
    ensures multiset(Named(s, r.name))[r] == multiset(s)[r]
  {
    if s != [] {
      NamedCount(s[1..], r);
      assert s == [s[0]] + s[1..];
    }
  }

  /** No added name is more often in the shared layout than among the added regions. */
  ghost predicate CoversNames(shared: seq<Region>, added: seq<Region>) {
    forall i :: 0 <= i < |added| ==> |Named(shared, added[i].name)| <= |Named(added, added[i].name)|
  }

  lemma ShowsOne(shared: Layout, stage: Stage, added: seq<Region>, r: Region)
    requires FoldStage(shared, stage, added).Ok?
    ensures var after := FoldStage(shared, stage, added).value;
            multiset(StageShows(shared, after))[r] == multiset(StageShows(shared, stage))[r] + multiset(added)[r]
              + if Declares(added, r.name) then multiset(Left(shared.regions, added))[r] else 0
  {
    var left := Left(shared.regions, added);
    ShownCount(shared.regions, stage.hidden, r);
    ShownCount(Laid(shared.regions, added), StillHidden(stage.hidden, added), r);
    LaidConserves(shared.regions, added);
    NamedCount(left, r);
    NamedCount(shared.regions, r);
    NamedCount(added, r);
    LeftNamed(shared.regions, added, r.name);
    NoneNamed(added, r.name);
    NoneNamed(shared.regions, r.name);
    hide Laid, Left, Shown, Named, Find, Rest;
  }

  /** A folded stage shows exactly what it showed before and what it adds, each as often, if and only
      if no added name is more often in the shared layout than among the added regions. */
  lemma FoldShows(shared: Layout, stage: Stage, added: seq<Region>)
    requires FoldStage(shared, stage, added).Ok?
    ensures multiset(StageShows(shared, FoldStage(shared, stage, added).value))
              == multiset(StageShows(shared, stage)) + multiset(added)
            <==> CoversNames(shared.regions, added)
  {
    hide FoldStage, StageShows, Left, Named;
    var left := Left(shared.regions, added);
    var after := multiset(StageShows(shared, FoldStage(shared, stage, added).value));
    var both := multiset(StageShows(shared, stage)) + multiset(added);
    if CoversNames(shared.regions, added) {
      forall r: Region ensures after[r] == both[r] {
        ShowsOne(shared, stage, added, r);
        CoveredIsGone(shared.regions, added, r);
      }
      assert after == both;
    } else {
      var i :| 0 <= i < |added| && |Named(shared.regions, added[i].name)| > |Named(added, added[i].name)|;
      var name := added[i].name;
      LeftNamed(shared.regions, added, name);
      var r := Named(left, name)[0];
      NamedCarries(left, name);
      NamedCount(left, r);
      ShowsOne(shared, stage, added, r);
      assert after[r] > both[r];
    }
  }

  lemma CoveredIsGone(shared: seq<Region>, added: seq<Region>, r: Region)
    requires CoversNames(shared, added)
    ensures Declares(added, r.name) ==> multiset(Left(shared, added))[r] == 0
  {
    NamedCount(Left(shared, added), r);
    LeftNamed(shared, added, r.name);
  }

  lemma {:induction false} NamedCarries(s: seq<Region>, name: string)
    ensures forall i :: 0 <= i < |Named(s, name)| ==> Named(s, name)[i].name == name && Named(s, name)[i] in s
  {
    if s != [] {
      NamedCarries(s[1..], name);
    }
  }

  /** Distinct names in the shared layout, which checking a graph demands of it, are covered. */
  lemma DistinctIsCovered(shared: seq<Region>, added: seq<Region>)
    requires forall i, j :: 0 <= i < j < |shared| ==> shared[i].name != shared[j].name
    ensures CoversNames(shared, added)
  {
    forall i | 0 <= i < |added| ensures |Named(shared, added[i].name)| <= |Named(added, added[i].name)| {
      NoneNamed(added, added[i].name);
      DistinctNamed(shared, added[i].name);
    }
  }

  lemma {:induction false} DistinctNamed(s: seq<Region>, name: string)
    requires forall i, j :: 0 <= i < j < |s| ==> s[i].name != s[j].name
    ensures |Named(s, name)| <= 1
  {
    if s != [] {
      DistinctNamed(s[1..], name);
      NoneNamed(s[1..], s[0].name);
    }
  }

  /** A hidden name the shared layout has twice: added once, it takes the first place, and the second
      shared region, hidden before, is shown too. */
  lemma RepeatedNameComesBack()
    ensures exists shared: Layout, stage: Stage, added: seq<Region> ::
              && FoldStage(shared, stage, added).Ok? && StageShows(shared, stage) == [] && |added| == 1
              && |StageShows(shared, FoldStage(shared, stage, added).value)| == 2
  {
    var one, two, mine := Region("notes", "first"), Region("notes", "second"), Region("notes", "mine");
    var shared, stage := Layout([one, two], 0, []), Stage("plan", None, ["notes"]);
    assert FoldStage(shared, stage, [mine]).Ok? by {
      assert mine.name !in ALWAYS_VISIBLE;
    }
    ShownPair(one, two, ["notes"]);
    RepeatedLaid(one, two, mine);
    assert [mine][0].name == "notes";
    var left := StillHidden(["notes"], [mine]);
    assert forall name :: name !in left;
    ShownPair(mine, two, left);
    assert |StageShows(shared, FoldStage(shared, stage, [mine]).value)| == 2 by {
      hide Laid, Shown, StillHidden;
    }
  }

  lemma ShownPair(a: Region, b: Region, hidden: seq<string>)
    requires a.name == b.name
    ensures Shown([a, b], hidden) == if a.name in hidden then [] else [a, b]
  {
    assert [a, b][1..] == [b];
    assert Shown([b], hidden) == if a.name in hidden then [] else [b];
  }

  lemma RepeatedLaid(one: Region, two: Region, mine: Region)
    requires one.name == two.name == mine.name
    ensures Laid([one, two], [mine]) == [mine, two]
  {
    assert [one, two][1..] == [two];
    assert Find([mine], one.name) == Some(0) && Rest([mine], one.name) == [];
    assert Laid([two], []) == [two];
  }

  // ---- The graph ----

  datatype Added = Added(stage: nat, regions: seq<Region>)

  class RunGraph {
    var layout: Layout
    var stages: seq<Stage>

    /** `fold`: one stage is given its layout, or nothing is changed and it is said why. */
    method Fold(index: nat, added: seq<Region>) returns (result: Result<(), FoldError>)
      requires index < |stages|
      modifies this`stages
      ensures match FoldStage(layout, old(stages)[index], added)
              case Ok(stage) => result == Ok(()) && stages == old(stages)[index := stage]
              case Err(error) => result == Err(error) && stages == old(stages)
      ensures result.Ok? ==> Folded(layout, old(stages)[index], added, stages[index])
      ensures result.Err? ==> RefusedFor(layout, old(stages)[index], added, result.error)
    {
      FoldLays(layout, stages[index], added);
      hide Folded, RefusedFor;
      var stage := stages[index];
      if stage.layout.Some? {
        return Err(HasLayout);
      }
      var i := 0;
      while i < |added|
        invariant i <= |added|
        invariant FirstRefusal(layout, stage, added) == FirstRefusal(layout, stage, added[i..])
      {
        assert added[i..][1..] == added[i + 1..];
        var name := added[i].name;
        if name in ALWAYS_VISIBLE {
          return Err(AlwaysShown(name));
        }
        if Declares(layout.regions, name) && name !in stage.hidden {
          return Err(Declared(name));
        }
        i := i + 1;
      }
      var regions := MergeRegions(layout.regions, added);
      stages := stages[index := stage.(hidden := StillHidden(stage.hidden, added),
                                       layout := Some(layout.(regions := regions)))];
      result := Ok(());
    }

    /** The loop of `parse`: every stage with an `add` is folded, or the first that cannot be stops it.
        What each becomes depends on no other, so neither does it on the order of the loop. */
    method FoldAll(adds: seq<Added>) returns (result: Result<(), FoldError>)
      requires forall k :: 0 <= k < |adds| ==> adds[k].stage < |stages|
      requires forall j, k :: 0 <= j < k < |adds| ==> adds[j].stage != adds[k].stage
      modifies this`stages
      ensures |stages| == |old(stages)|
      ensures result.Ok? <==> forall k :: 0 <= k < |adds| ==>
                                FoldStage(layout, old(stages)[adds[k].stage], adds[k].regions).Ok?
      ensures result.Ok? ==> forall k :: 0 <= k < |adds| ==>
                               Ok(stages[adds[k].stage])
                                 == FoldStage(layout, old(stages)[adds[k].stage], adds[k].regions)
      ensures result.Ok? ==> forall k :: 0 <= k < |adds| ==>
                               Folded(layout, old(stages)[adds[k].stage], adds[k].regions, stages[adds[k].stage])
      ensures result.Err? ==> exists k :: 0 <= k < |adds| &&
                                RefusedFor(layout, old(stages)[adds[k].stage], adds[k].regions, result.error)
      ensures forall i :: 0 <= i < |stages| && (forall k :: 0 <= k < |adds| ==> adds[k].stage != i) ==>
                            stages[i] == old(stages)[i]
    {
      hide FoldStage, Folded, RefusedFor;
      var n := 0;
      while n < |adds|
        invariant n <= |adds| && |stages| == |old(stages)|
        invariant forall k :: 0 <= k < n ==>
                    Ok(stages[adds[k].stage]) == FoldStage(layout, old(stages)[adds[k].stage], adds[k].regions)
        invariant forall i :: 0 <= i < |stages| && (forall k :: 0 <= k < n ==> adds[k].stage != i) ==>
                    stages[i] == old(stages)[i]
        invariant forall k :: 0 <= k < n ==>
                    Folded(layout, old(stages)[adds[k].stage], adds[k].regions, stages[adds[k].stage])
      {
        var one := Fold(adds[n].stage, adds[n].regions);
        if one.Err? {
          return Err(one.error);
        }
        n := n + 1;
      }
      result := Ok(());
    }
  }
}
