/** One turn of the upgrade after another, each of a blueprint's own: what is so of a blueprint and of
    its saved copy in every state of them all, told from the states the disk has been in. */
module Turns {
  import opened Wrappers
  import opened Filesystem
  import opened DiskModel
  import opened Leftovers
  import opened Traces
  import opened HomeBackup

  /** Turn `i` is of `plans[i]`, from state number `cuts[i]` to number `cuts[i + 1]`. */
  ghost predicate InTurns(seen: seq<State>, plans: seq<Plan>, cuts: seq<nat>) {
    && Bounds(seen, plans, cuts)
    && (forall i | 0 <= i < |plans| :: IsTurn(seen, plans[i], cuts[i], cuts[i + 1]))
  }

  ghost predicate Bounds(seen: seq<State>, plans: seq<Plan>, cuts: seq<nat>) {
    && |cuts| == |plans| + 1 && cuts[|plans|] < |seen|
    && (forall i, j | 0 <= i <= j < |cuts| :: cuts[i] <= cuts[j])
    && Sound(seen[cuts[0]])
  }

  ghost predicate IsTurn(seen: seq<State>, plan: Plan, from: nat, to: nat) {
    to < |seen| && forall m | from <= m <= to :: TurnState(seen, from, m, plan, Copying)
  }

  /** A step of turn `i` taken by state number `m` soiled it. */
  ghost predicate SoiledBy(seen: seq<State>, plans: seq<Plan>, cuts: seq<nat>, i: nat, m: nat) {
    && i < |plans| && i + 1 < |cuts|
    && SoiledAt(seen, plans[i], cuts[i], Least(m, cuts[i + 1]))
  }

  ghost predicate SoiledAt(seen: seq<State>, plan: Plan, from: nat, m: nat) {
    SoiledIn(seen, from, m, plan.src, plan.partial, plan.dest)
  }

  function Least(m: nat, n: nat): nat {
    if m < n then m else n
  }

  /** Something left in the way of a turn's copy led to a file that `p` leads to. */
  ghost predicate LeadsInto(s: State, plan: Plan, p: Path) {
    Get(s.root, p).Some?
    && exists q, i :: LeadsOver(s, plan.src, plan.partial, q, i) && i in Inos(Get(s.root, p).value)
  }

  /** A soiled turn's copy was made over a file of the item at `src`, or of its saved copy's. */
  ghost predicate Spilt(seen: seq<State>, plans: seq<Plan>, cuts: seq<nat>, m: nat, src: Path, dest: Path) {
    exists i: nat :: SpiltBy(seen, plans, cuts, i, m, src, dest)
  }

  ghost predicate SpiltBy(seen: seq<State>, plans: seq<Plan>, cuts: seq<nat>, i: nat, m: nat, src: Path, dest: Path) {
    && SoiledBy(seen, plans, cuts, i, m) && cuts[i] < |seen|
    && (LeadsInto(seen[cuts[i]], plans[i], src) || LeadsInto(seen[cuts[i]], plans[i], dest))
  }

  /** A soiled turn was the item's own. */
  ghost predicate Botched(seen: seq<State>, plans: seq<Plan>, cuts: seq<nat>, m: nat, src: Path, dest: Path) {
    exists i: nat :: BotchedBy(seen, plans, cuts, i, m, src, dest)
  }

  ghost predicate BotchedBy(seen: seq<State>, plans: seq<Plan>, cuts: seq<nat>, i: nat, m: nat, src: Path, dest: Path) {
    SoiledBy(seen, plans, cuts, i, m) && plans[i].src == src && plans[i].dest == dest
  }

  ghost predicate AnySoiled(seen: seq<State>, plans: seq<Plan>, cuts: seq<nat>, m: nat) {
    exists i: nat :: SoiledBy(seen, plans, cuts, i, m)
  }

  /** Each turn is the item's own, or reaches neither it nor its place. */
  ghost predicate Guarded(plans: seq<Plan>, src: Path, dest: Path) {
    forall i | 0 <= i < |plans| :: GuardedBy(plans[i], src, dest)
  }

  ghost predicate GuardedBy(plan: Plan, src: Path, dest: Path) {
    (plan.src == src && plan.dest == dest) || (Clear(src, plan.reach) && Clear(dest, plan.reach))
  }

  // ---- What is kept ----

  /** A saved copy that was there is there as it was, and the item is as it was unless one is there. */
  ghost predicate KeptOrSaved(s: State, t: State, src: Path, dest: Path) {
    && (Get(s.root, dest).Some? ==> Get(t.root, dest) == Get(s.root, dest))
    && (Get(t.root, src) == Get(s.root, src) || Get(t.root, dest).Some?)
  }

  /** The texts of a saved copy that was there are what they were; so are the item's, while none is. */
  ghost predicate TextsSafe(s: State, t: State, src: Path, dest: Path) {
    && (Get(s.root, dest).Some? ==> SameData(s, t, Inos(Get(s.root, dest).value)))
    && (Get(t.root, dest) == None && Get(s.root, src).Some? ==> SameData(s, t, Inos(Get(s.root, src).value)))
  }

  /** A saved copy that has come is a whole copy of the item as it was. */
  ghost predicate WholeSafe(s: State, t: State, src: Path, dest: Path) {
    Get(s.root, dest) == None && Get(t.root, dest).Some? ==> WholeCopy(s, src, Copying, t, dest)
  }

  /** What all the turns promise of state number `m`. */
  ghost predicate Promised(seen: seq<State>, plans: seq<Plan>, cuts: seq<nat>, m: nat)
    requires cuts != [] && cuts[0] < |seen| && m < |seen|
  {
    var s, t := seen[cuts[0]], seen[m];
    && Sound(t) && s.next <= t.next && s.data.Keys <= t.data.Keys
    && (forall src, dest | Guarded(plans, src, dest) :: KeptOrSaved(s, t, src, dest))
    && (forall src, dest | Guarded(plans, src, dest) && !Spilt(seen, plans, cuts, m, src, dest) ::
          TextsSafe(s, t, src, dest)
          && (!Botched(seen, plans, cuts, m, src, dest) ==> WholeSafe(s, t, src, dest)))
    && (!AnySoiled(seen, plans, cuts, m) ==> Grows(s.data, t.data))
    && (forall q | OutOfReach(plans, q) :: Get(t.root, q) == Get(s.root, q))
  }

  /** Where nothing had been saved, the item is as it was, or a whole copy of that very item is in its
      place. */
  ghost predicate SavedFirst(s: State, t: State, src: Path, dest: Path) {
    Get(s.root, dest) == None ==> Get(t.root, src) == Get(s.root, src) || WholeCopy(s, src, Copying, t, dest)
  }

  /** So it is in every state in which no soiled turn was the item's own, or came over a file of its. */
  ghost predicate AlwaysSavedFirst(seen: seq<State>, plans: seq<Plan>, cuts: seq<nat>, src: Path, dest: Path) {
    cuts != [] && cuts[0] < |seen| && forall m | cuts[0] <= m <= cuts[|cuts| - 1] && m < |seen| ::
      Spilt(seen, plans, cuts, m, src, dest) || Botched(seen, plans, cuts, m, src, dest)
      || SavedFirst(seen[cuts[0]], seen[m], src, dest)
  }

  lemma PromisedSavedFirst(seen: seq<State>, plans: seq<Plan>, cuts: seq<nat>, src: Path, dest: Path)
    requires AllPromised(seen, plans, cuts) && Guarded(plans, src, dest)
    ensures AlwaysSavedFirst(seen, plans, cuts, src, dest)
  {
    hide Spilt, Botched, Guarded, Get, WholeCopy, AnySoiled, TextsSafe, Sound, OutOfReach;
    forall m | cuts[0] <= m <= cuts[|cuts| - 1] && m < |seen|
      ensures Spilt(seen, plans, cuts, m, src, dest) || Botched(seen, plans, cuts, m, src, dest)
              || SavedFirst(seen[cuts[0]], seen[m], src, dest)
    {
      assert Promised(seen, plans, cuts, m);
    }
  }

  ghost predicate OutOfReach(plans: seq<Plan>, q: Path) {
    forall i | 0 <= i < |plans| :: Clear(q, plans[i].reach)
  }

  ghost predicate AllPromised(seen: seq<State>, plans: seq<Plan>, cuts: seq<nat>) {
    cuts != [] && cuts[0] < |seen| && forall m | cuts[0] <= m <= cuts[|cuts| - 1] && m < |seen| ::
      Promised(seen, plans, cuts, m)
  }

  // ---- One turn more ----

  lemma KeptThen(s: State, t: State, u: State, src: Path, dest: Path)
    requires KeptOrSaved(s, t, src, dest) && KeptOrSaved(t, u, src, dest)
    ensures KeptOrSaved(s, u, src, dest)
  {
    hide Get;
  }

  lemma TurnKeeps(s: State, t: State, plan: Plan, soiled: bool, src: Path, dest: Path)
    requires Since(s, t, plan, Copying, soiled) && GuardedBy(plan, src, dest)
    ensures KeptOrSaved(s, t, src, dest)
  {
    hide Get, Sound, WholeCopy, LeadsOver;
  }

  lemma SameDataOn(s: State, t: State, plan: Plan, soiled: bool, p: Path)
    requires Since(s, t, plan, Copying, soiled) && Get(s.root, p).Some? && !(soiled && LeadsInto(s, plan, p))
    ensures SameData(s, t, Inos(Get(s.root, p).value))
  {
    hide Get, Sound, WholeCopy, LeadsOver, Inos;
  }

  /** What a turn makes of the item, when it did not spill over it. */
  lemma TurnSafe(s: State, t: State, plan: Plan, soiled: bool, src: Path, dest: Path)
    requires Since(s, t, plan, Copying, soiled) && GuardedBy(plan, src, dest)
    requires soiled ==> !LeadsInto(s, plan, src) && !LeadsInto(s, plan, dest)
    ensures TextsSafe(s, t, src, dest)
    ensures (soiled && plan.src == src && plan.dest == dest) || WholeSafe(s, t, src, dest)
  {
    if Get(s.root, dest).Some? {
      SameDataOn(s, t, plan, soiled, dest);
    }
    if Get(s.root, src).Some? {
      SameDataOn(s, t, plan, soiled, src);
    }
    hide Get, Sound, WholeCopy, LeadsOver, Inos, SameData, LeadsInto;
  }

  /** A copy stays one where its own files, and those it is of, hold what they held. */
  lemma {:induction false} CopiedStill(n: Node, m: Node, s: State, was: State, t: State, u: State)
    requires Copied(n, m, was, t, {}) && Inos(n) <= s.data.Keys && s.next <= was.next
    requires SameData(s, was, Inos(n)) && SameData(t, u, Inos(m)) && t.data.Keys <= u.data.Keys
    ensures Copied(n, m, s, u, {})
    decreases n
  {
    if n.Dir? {
      forall k | k in n.kids ensures Copied(n.kids[k], m.kids[k], s, u, {}) {
        CopiedStill(n.kids[k], m.kids[k], s, was, t, u);
      }
    }
  }

  lemma WholeStill(s: State, was: State, t: State, u: State, src: Path, dest: Path)
    requires WholeCopy(was, src, Copying, t, dest) && Sound(s) && s.next <= was.next && t.data.Keys <= u.data.Keys
    requires Get(was.root, src) == Get(s.root, src) && SameData(s, was, Inos(Get(was.root, src).value))
    requires Get(u.root, dest) == Get(t.root, dest) && SameData(t, u, Inos(Get(t.root, dest).value))
    ensures WholeCopy(s, src, Copying, u, dest)
  {
    var n := Get(s.root, src).value;
    InosOfGet(s.root, src);
    NothingLinked(src, n);
    CopiedStill(n, Get(t.root, dest).value, s, was, t, u);
  }

  lemma NothingLinked(src: Path, n: Node)
    ensures Linkable(Copying, src, n) == {}
  {
  }

  lemma SafeThen(s: State, t: State, u: State, src: Path, dest: Path)
    requires Sound(s) && Sound(t) && s.next <= t.next && s.data.Keys <= t.data.Keys <= u.data.Keys
    requires KeptOrSaved(s, t, src, dest) && KeptOrSaved(t, u, src, dest)
    requires TextsSafe(s, t, src, dest) && TextsSafe(t, u, src, dest)
    ensures TextsSafe(s, u, src, dest)
    ensures WholeSafe(s, t, src, dest) && WholeSafe(t, u, src, dest) ==> WholeSafe(s, u, src, dest)
  {
    hide Get, Sound, WholeCopy, Inos;
    if Get(s.root, dest) == None && Get(u.root, dest).Some? && WholeSafe(s, t, src, dest)
       && WholeSafe(t, u, src, dest) {
      if Get(t.root, dest).Some? {
        WholeIsOf(s, t, src, dest);
        WholeStill(s, s, t, u, src, dest);
      } else {
        WholeIsOf(t, u, src, dest);
        WholeStill(s, t, u, u, src, dest);
      }
    }
  }

  lemma WholeIsOf(s: State, t: State, src: Path, dest: Path)
    requires WholeCopy(s, src, Copying, t, dest)
    ensures Get(s.root, src).Some? && Get(t.root, dest).Some?
  {
  }

  // ---- An item that is saved, and then changed ----

  /** Since the item was saved, nothing in the backup has changed. */
  lemma SinceThen(s: State, mid: State, t: State, plan: Plan, work: set<Path>, soiled: bool)
    requires Sound(s) && Since(s, mid, plan, Copying, soiled) && Elsewhere(mid, t, work)
    requires Get(mid.root, plan.dest).Some? && Clear(plan.dest, work) && work <= plan.reach
    ensures Since(s, t, plan, Copying, soiled)
  {
    hide Get, Sound, WholeCopy, LeadsOver, NotUnder, Inos;
    if Get(s.root, plan.dest) == None && !soiled {
      WholeIsOf(s, mid, plan.src, plan.dest);
      WholeStill(s, s, mid, t, plan.src, plan.dest);
    }
    forall q | Clear(q, plan.reach) ensures Get(t.root, q) == Get(s.root, q) {
      assert Clear(q, work);
    }
  }

  lemma SinceWider(s: State, t: State, plan: Plan, soiled: bool, wider: bool)
    requires Since(s, t, plan, Copying, soiled) && (soiled ==> wider)
    ensures Since(s, t, plan, Copying, wider)
  {
    hide Get, Sound, WholeCopy, LeadsOver;
  }

  /** No step soils a turn once something is at the item's place, and stays there, and no text changes. */
  lemma NothingSoiledSince(seen: seq<State>, from: nat, c: nat, mid: State, plan: Plan, work: set<Path>)
    requires from <= c < |seen| && seen[c] == mid && seen[from].data.Keys <= mid.data.Keys
    requires forall m | c <= m < |seen| :: Elsewhere(mid, seen[m], work)
    requires Get(mid.root, plan.dest).Some? && Clear(plan.dest, work)
    ensures SoiledAt(seen, plan, from, |seen| - 1) <==> SoiledAt(seen, plan, from, c)
  {
    hide Get, HarmlessAt, Sound, Clear, NotUnder;
    if SoiledAt(seen, plan, from, |seen| - 1) {
      var k: nat :| k < |seen| - 1 && SoilingStep(seen, from, k, plan.src, plan.partial, plan.dest);
      if k >= c {
        assert Elsewhere(mid, seen[k], work) && Elsewhere(mid, seen[k + 1], work);
        forall i ensures !(i in seen[from].data && TextChanges(seen[k], seen[k + 1], i)) {
        }
      }
    }
    if SoiledAt(seen, plan, from, c) {
      SoiledLater(seen, from, c, |seen| - 1, plan.src, plan.partial, plan.dest);
    }
  }

  // ---- All of them ----

  lemma TurnOf(seen: seq<State>, plans: seq<Plan>, cuts: seq<nat>, m: nat) returns (n: nat)
    requires Bounds(seen, plans, cuts) && plans != [] && cuts[0] <= m <= cuts[|plans|]
    ensures n < |plans| && cuts[n] <= m <= cuts[n + 1]
  {
    n := 0;
    while cuts[n + 1] < m
      invariant n < |plans| && cuts[n] <= m
      decreases |plans| - n
    {
      n := n + 1;
    }
  }

  /** The state number `m` is in turn `n`. */
  ghost predicate At(seen: seq<State>, plans: seq<Plan>, cuts: seq<nat>, n: nat, m: nat) {
    InTurns(seen, plans, cuts) && n < |plans| && cuts[n] <= m <= cuts[n + 1]
  }

  lemma ThisTurn(seen: seq<State>, plans: seq<Plan>, cuts: seq<nat>, n: nat, m: nat)
    requires At(seen, plans, cuts, n, m)
    ensures cuts[0] <= cuts[n] <= m < |seen|
    ensures Since(seen[cuts[n]], seen[m], plans[n], Copying, SoiledAt(seen, plans[n], cuts[n], m))
    ensures SoiledBy(seen, plans, cuts, n, m) <==> SoiledAt(seen, plans[n], cuts[n], m)
    ensures n > 0 ==> At(seen, plans, cuts, n - 1, cuts[n])
  {
    hide Since, SoiledIn;
    assert IsTurn(seen, plans[n], cuts[n], cuts[n + 1]);
    assert TurnState(seen, cuts[n], m, plans[n], Copying);
  }

  lemma SoiledStays(seen: seq<State>, plans: seq<Plan>, cuts: seq<nat>, i: nat, m: nat, n: nat)
    requires m <= n && SoiledBy(seen, plans, cuts, i, m)
    ensures SoiledBy(seen, plans, cuts, i, n)
  {
    var end := cuts[i + 1];
    SoiledLater(seen, cuts[i], Least(m, end), Least(n, end), plans[i].src, plans[i].partial, plans[i].dest);
    hide SoiledIn;
  }

  lemma {:induction false} BasicsAt(seen: seq<State>, plans: seq<Plan>, cuts: seq<nat>, n: nat, m: nat)
    requires At(seen, plans, cuts, n, m)
    ensures cuts[0] <= m < |seen|
    ensures var s, t := seen[cuts[0]], seen[m]; Sound(s) && Sound(t) && s.next <= t.next && s.data.Keys <= t.data.Keys
    ensures !AnySoiled(seen, plans, cuts, m) ==> Grows(seen[cuts[0]].data, seen[m].data)
    ensures forall q | OutOfReach(plans, q) :: Get(seen[m].root, q) == Get(seen[cuts[0]].root, q)
    decreases n
  {
    hide At, SoiledAt, Get, Sound, WholeCopy, LeadsOver, SoiledBy, Clear;
    AtBounds(seen, plans, cuts, n, m);
    ThisTurn(seen, plans, cuts, n, m);
    forall q | OutOfReach(plans, q) ensures Clear(q, plans[n].reach) {
    }
    if n > 0 {
      BasicsAt(seen, plans, cuts, n - 1, cuts[n]);
      if AnySoiled(seen, plans, cuts, cuts[n]) {
        var i: nat :| SoiledBy(seen, plans, cuts, i, cuts[n]);
        SoiledStays(seen, plans, cuts, i, cuts[n], m);
      }
    }
  }

  lemma AtBounds(seen: seq<State>, plans: seq<Plan>, cuts: seq<nat>, n: nat, m: nat)
    requires At(seen, plans, cuts, n, m)
    ensures Bounds(seen, plans, cuts) && n < |plans|
  {
  }

  lemma {:induction false} KeptAt(seen: seq<State>, plans: seq<Plan>, cuts: seq<nat>, n: nat, m: nat, src: Path,
                                  dest: Path)
    requires At(seen, plans, cuts, n, m) && Guarded(plans, src, dest)
    ensures cuts[0] <= m < |seen| && KeptOrSaved(seen[cuts[0]], seen[m], src, dest)
    decreases n
  {
    hide At, SoiledAt, Since, KeptOrSaved, GuardedBy, SoiledBy;
    AtBounds(seen, plans, cuts, n, m);
    ThisTurn(seen, plans, cuts, n, m);
    TurnKeeps(seen[cuts[n]], seen[m], plans[n], SoiledAt(seen, plans[n], cuts[n], m), src, dest);
    if n > 0 {
      KeptAt(seen, plans, cuts, n - 1, cuts[n], src, dest);
      KeptThen(seen[cuts[0]], seen[cuts[n]], seen[m], src, dest);
    }
  }

  lemma {:induction false} SafeAt(seen: seq<State>, plans: seq<Plan>, cuts: seq<nat>, n: nat, m: nat, src: Path,
                                  dest: Path)
    requires At(seen, plans, cuts, n, m) && Guarded(plans, src, dest) && !Spilt(seen, plans, cuts, m, src, dest)
    ensures cuts[0] <= m < |seen| && TextsSafe(seen[cuts[0]], seen[m], src, dest)
    ensures !Botched(seen, plans, cuts, m, src, dest) ==> WholeSafe(seen[cuts[0]], seen[m], src, dest)
    decreases n
  {
    hide At, SoiledAt, Since, KeptOrSaved, GuardedBy, SoiledBy, TextsSafe, WholeSafe, LeadsInto, Sound;
    AtBounds(seen, plans, cuts, n, m);
    ThisTurn(seen, plans, cuts, n, m);
    var was, t, soiled := seen[cuts[n]], seen[m], SoiledAt(seen, plans[n], cuts[n], m);
    assert !SpiltBy(seen, plans, cuts, n, m, src, dest);
    assert BotchedBy(seen, plans, cuts, n, m, src, dest) ==> Botched(seen, plans, cuts, m, src, dest);
    TurnSafe(was, t, plans[n], soiled, src, dest);
    if n > 0 {
      NotYetSpilt(seen, plans, cuts, cuts[n], m, src, dest);
      SafeAt(seen, plans, cuts, n - 1, cuts[n], src, dest);
      KeptAt(seen, plans, cuts, n - 1, cuts[n], src, dest);
      BasicsAt(seen, plans, cuts, n - 1, cuts[n]);
      TurnKeeps(was, t, plans[n], soiled, src, dest);
      SinceKeys(was, t, plans[n], soiled);
      SafeThen(seen[cuts[0]], was, t, src, dest);
    }
  }

  lemma SinceKeys(s: State, t: State, plan: Plan, soiled: bool)
    requires Since(s, t, plan, Copying, soiled)
    ensures s.data.Keys <= t.data.Keys
  {
  }

  lemma NotYetSpilt(seen: seq<State>, plans: seq<Plan>, cuts: seq<nat>, m: nat, n: nat, src: Path, dest: Path)
    requires m <= n
    ensures Spilt(seen, plans, cuts, m, src, dest) ==> Spilt(seen, plans, cuts, n, src, dest)
    ensures Botched(seen, plans, cuts, m, src, dest) ==> Botched(seen, plans, cuts, n, src, dest)
  {
    hide SoiledBy, LeadsInto;
    if Spilt(seen, plans, cuts, m, src, dest) {
      var i: nat :| SpiltBy(seen, plans, cuts, i, m, src, dest);
      SoiledStays(seen, plans, cuts, i, m, n);
      assert SpiltBy(seen, plans, cuts, i, n, src, dest);
    }
    if Botched(seen, plans, cuts, m, src, dest) {
      var i: nat :| BotchedBy(seen, plans, cuts, i, m, src, dest);
      SoiledStays(seen, plans, cuts, i, m, n);
      assert BotchedBy(seen, plans, cuts, i, n, src, dest);
    }
  }

  /** Turn after turn, every promise holds of every state. */
  lemma TurnsKeepPromise(seen: seq<State>, plans: seq<Plan>, cuts: seq<nat>)
    requires InTurns(seen, plans, cuts)
    ensures AllPromised(seen, plans, cuts)
  {
    hide KeptOrSaved, TextsSafe, WholeSafe, Guarded, Spilt, Botched, AnySoiled, Sound, Since, Get, IsTurn;
    forall m | cuts[0] <= m <= cuts[|cuts| - 1] && m < |seen| ensures Promised(seen, plans, cuts, m) {
      PromisedState(seen, plans, cuts, m);
    }
  }

  lemma PromisedState(seen: seq<State>, plans: seq<Plan>, cuts: seq<nat>, m: nat)
    requires InTurns(seen, plans, cuts) && cuts[0] <= m <= cuts[|plans|]
    ensures Promised(seen, plans, cuts, m)
  {
    if plans == [] {
      assert m == cuts[0];
    } else {
      hide KeptOrSaved, TextsSafe, WholeSafe, Guarded, Spilt, Botched, AnySoiled, Sound, Get, OutOfReach, Grows, IsTurn;
      var n := TurnOf(seen, plans, cuts, m);
      BasicsAt(seen, plans, cuts, n, m);
      forall src, dest | Guarded(plans, src, dest) ensures KeptOrSaved(seen[cuts[0]], seen[m], src, dest) {
        KeptAt(seen, plans, cuts, n, m, src, dest);
      }
      forall src, dest | Guarded(plans, src, dest) && !Spilt(seen, plans, cuts, m, src, dest)
        ensures TextsSafe(seen[cuts[0]], seen[m], src, dest)
        ensures !Botched(seen, plans, cuts, m, src, dest) ==> WholeSafe(seen[cuts[0]], seen[m], src, dest)
      {
        SafeAt(seen, plans, cuts, n, m, src, dest);
      }
    }
  }

  // ---- Longer runs, and shorter lives ----

  lemma TurnHere(seen: seq<State>, all: seq<State>, plan: Plan, from: nat, to: nat)
    requires IsTurn(seen, plan, from, to) && seen <= all
    ensures IsTurn(all, plan, from, to)
  {
    forall m | from <= m <= to ensures TurnState(all, from, m, plan, Copying) {
      TurnInPrefix(seen, all, from, m, plan, Copying);
    }
  }

  lemma TurnCut(all: seq<State>, plan: Plan, from: nat, to: nat, at: nat)
    requires IsTurn(all, plan, from, to) && from <= to && at < |all| && Sound(all[at])
    ensures IsTurn(all[..at + 1], plan, Least(from, at), Least(to, at))
  {
    var seen, end := all[..at + 1], Least(to, at);
    if from < at {
      forall m | from <= m <= end ensures TurnState(seen, from, m, plan, Copying) {
        TurnInPrefix(seen, all, from, m, plan, Copying);
      }
    }
  }

  /** A turn more, or a list of them. */
  lemma TurnsJoin(had: seq<State>, all: seq<State>, plans: seq<Plan>, cuts: seq<nat>, more: seq<Plan>, after: seq<nat>)
    requires had <= all && had != [] && InTurns(had, plans, cuts) && cuts[|plans|] == |had| - 1
    requires InTurns(all, more, after) && after[0] == |had| - 1
    ensures InTurns(all, plans + more, cuts + after[1..])
    ensures AnySoiled(all, plans + more, cuts + after[1..], |all|) ==>
              AnySoiled(had, plans, cuts, |had|) || AnySoiled(all, more, after, |all|)
  {
    hide IsTurn, SoiledAt, Sound;
    var plans', cuts' := plans + more, cuts + after[1..];
    assert forall i | 0 <= i < |cuts| :: cuts'[i] == cuts[i];
    assert forall i | 0 <= i < |after| :: cuts'[|plans| + i] == after[i];
    assert all[cuts[0]] == had[cuts[0]];
    forall i | 0 <= i < |plans'| ensures IsTurn(all, plans'[i], cuts'[i], cuts'[i + 1]) {
      if i < |plans| {
        TurnHere(had, all, plans[i], cuts[i], cuts[i + 1]);
      } else {
        assert cuts'[i] == after[i - |plans|] && cuts'[i + 1] == after[i - |plans| + 1];
      }
    }
    if AnySoiled(all, plans', cuts', |all|) {
      var i: nat :| SoiledBy(all, plans', cuts', i, |all|);
      if i < |plans| {
        SoiledBefore(had, all, plans[i], cuts[i], cuts[i + 1]);
        assert SoiledBy(had, plans, cuts, i, |had|);
      } else {
        assert cuts'[i] == after[i - |plans|] && cuts'[i + 1] == after[i - |plans| + 1];
        assert SoiledBy(all, more, after, i - |plans|, |all|);
      }
    }
  }

  lemma SoiledBefore(had: seq<State>, all: seq<State>, plan: Plan, from: nat, m: nat)
    requires had <= all && m < |had|
    ensures SoiledAt(had, plan, from, m) <==> SoiledAt(all, plan, from, m)
  {
    SoiledInPrefix(had, all, from, m, plan.src, plan.partial, plan.dest);
  }

  /** One turn. */
  lemma TurnAlone(seen: seq<State>, plan: Plan, from: nat, to: nat)
    requires from <= to && IsTurn(seen, plan, from, to) && Sound(seen[from])
    ensures InTurns(seen, [plan], [from, to])
    ensures AnySoiled(seen, [plan], [from, to], |seen|) <==> SoiledAt(seen, plan, from, to)
  {
    hide SoiledAt, Sound, TurnState;
    assert SoiledBy(seen, [plan], [from, to], 0, |seen|) <==> SoiledAt(seen, plan, from, to);
  }

  lemma NoTurns(seen: seq<State>, from: nat)
    requires from < |seen| && Sound(seen[from])
    ensures InTurns(seen, [], [from]) && !AnySoiled(seen, [], [from], |seen|)
  {
  }

  lemma EndsIn(seen: seq<State>, plans: seq<Plan>, cuts: seq<nat>)
    requires InTurns(seen, plans, cuts)
    ensures |cuts| == |plans| + 1 && forall j | 0 <= j < |cuts| :: cuts[0] <= cuts[j] < |seen|
  {
  }

  /** Where the turns of a process that died in state number `at` ended, those it did not live to
      included. */
  ghost function CutAt(cuts: seq<nat>, at: nat): (r: seq<nat>)
    ensures |r| == |cuts|
  {
    seq(|cuts|, i requires 0 <= i < |cuts| => Least(cuts[i], at))
  }

  lemma TurnsCut(all: seq<State>, plans: seq<Plan>, cuts: seq<nat>, at: nat)
    requires InTurns(all, plans, cuts) && cuts[0] <= at <= cuts[|plans|] && Sound(all[at])
    ensures InTurns(all[..at + 1], plans, CutAt(cuts, at))
    ensures CutAt(cuts, at)[0] == cuts[0] && CutAt(cuts, at)[|plans|] == at
    ensures AnySoiled(all[..at + 1], plans, CutAt(cuts, at), at + 1) ==> AnySoiled(all, plans, cuts, |all|)
  {
    hide IsTurn, SoiledAt, Sound;
    var seen, lived := all[..at + 1], CutAt(cuts, at);
    forall i | 0 <= i < |plans| ensures IsTurn(seen, plans[i], lived[i], lived[i + 1]) {
      TurnCut(all, plans[i], cuts[i], cuts[i + 1], at);
    }
    if AnySoiled(seen, plans, lived, at + 1) {
      var i: nat :| SoiledBy(seen, plans, lived, i, at + 1);
      SoiledAlive(all, plans[i], cuts[i], cuts[i + 1], at);
      assert SoiledBy(all, plans, cuts, i, |all|);
    }
  }

  lemma SoiledAlive(all: seq<State>, plan: Plan, from: nat, to: nat, at: nat)
    requires from <= to < |all| && at < |all| && SoiledAt(all[..at + 1], plan, Least(from, at), Least(to, at))
    ensures SoiledAt(all, plan, from, to)
  {
    var seen, end := all[..at + 1], Least(to, at);
    if from < at {
      SoiledInPrefix(seen, all, from, end, plan.src, plan.partial, plan.dest);
      SoiledLater(all, from, end, to, plan.src, plan.partial, plan.dest);
    }
  }

  // ---- When nothing is left ----

  /** No directory is left under any name a turn's copy is made under, and no turn before it reaches
      that name. */
  ghost predicate NothingLeft(s: State, plans: seq<Plan>) {
    forall i | 0 <= i < |plans| :: !IsDir(s.root, plans[i].partial) && OutOfReach(plans[..i], plans[i].partial)
  }

  /** Where nothing is left, nothing is soiled. */
  lemma SoiledWasLeft(seen: seq<State>, plans: seq<Plan>, cuts: seq<nat>)
    requires InTurns(seen, plans, cuts) && NothingLeft(seen[cuts[0]], plans)
    ensures !AnySoiled(seen, plans, cuts, |seen|)
  {
    hide SoiledAt, Get, Sound, Clear;
    if AnySoiled(seen, plans, cuts, |seen|) {
      var i: nat :| SoiledBy(seen, plans, cuts, i, |seen|);
      var p := plans[i];
      SoiledHarm(seen, p, cuts[i], cuts[i + 1]);
      if i > 0 {
        FirstTurns(seen, plans, cuts, i);
        assert cuts[..i + 1][i] == cuts[i];
        BasicsAt(seen, plans[..i], cuts[..i + 1], i - 1, cuts[i]);
      }
    }
  }

  lemma NothingLeftThen(s: State, plans: seq<Plan>, more: seq<Plan>)
    requires NothingLeft(s, plans)
    requires forall j | 0 <= j < |more| :: !IsDir(s.root, more[j].partial)
               && OutOfReach(plans, more[j].partial) && OutOfReach(more[..j], more[j].partial)
    ensures NothingLeft(s, plans + more)
  {
    hide IsDir, Clear;
    var all := plans + more;
    forall i | 0 <= i < |all| ensures !IsDir(s.root, all[i].partial) && OutOfReach(all[..i], all[i].partial) {
      if i < |plans| {
        assert all[..i] == plans[..i];
      } else {
        assert all[..i] == plans + more[..i - |plans|];
      }
    }
  }

  /** Where nothing is left, all is promised under no condition. */
  lemma NothingLeftAllKept(seen: seq<State>, plans: seq<Plan>, cuts: seq<nat>, m: nat, src: Path, dest: Path)
    requires InTurns(seen, plans, cuts) && NothingLeft(seen[cuts[0]], plans) && Guarded(plans, src, dest)
    requires cuts[0] <= m <= cuts[|plans|]
    ensures var s, t := seen[cuts[0]], seen[m];
            && Grows(s.data, t.data) && KeptOrSaved(s, t, src, dest) && TextsSafe(s, t, src, dest)
            && WholeSafe(s, t, src, dest)
  {
    SoiledWasLeft(seen, plans, cuts);
    PromisedState(seen, plans, cuts, m);
    NoneSoiledYet(seen, plans, cuts, m, src, dest);
    hide InTurns, KeptOrSaved, TextsSafe, WholeSafe, Guarded, Spilt, Botched, AnySoiled;
  }

  lemma NoneSoiledYet(seen: seq<State>, plans: seq<Plan>, cuts: seq<nat>, m: nat, src: Path, dest: Path)
    requires m <= |seen| && !AnySoiled(seen, plans, cuts, |seen|)
    ensures !AnySoiled(seen, plans, cuts, m) && !Spilt(seen, plans, cuts, m, src, dest)
    ensures !Botched(seen, plans, cuts, m, src, dest)
  {
    hide SoiledAt, LeadsInto;
    if AnySoiled(seen, plans, cuts, m) {
      var i: nat :| SoiledBy(seen, plans, cuts, i, m);
      SoiledStays(seen, plans, cuts, i, m, |seen|);
    }
  }

  /** A turn whose leftovers are files with no other name spills over nothing apart from them. */
  lemma OwnFilesSpillNothing(s: State, plan: Plan, p: Path)
    requires OwnFiles(s, plan.partial) && Apart(plan.partial, p)
    ensures !LeadsInto(s, plan, p)
  {
    if LeadsInto(s, plan, p) {
      var q, i :| LeadsOver(s, plan.src, plan.partial, q, i) && i in Inos(Get(s.root, p).value);
      var r := InoHasPath(Get(s.root, p).value, i);
      GetUnder(s.root, p, r);
      assert plan.partial + q == p + r;
      ShorterPrefix(plan.partial, p, p + r);
    }
  }

  lemma SoiledHarm(seen: seq<State>, plan: Plan, from: nat, m: nat)
    requires SoiledAt(seen, plan, from, m)
    ensures from < |seen| && IsDir(seen[from].root, plan.partial)
  {
    SoiledHadHarm(seen, from, m, plan.src, plan.partial, plan.dest);
  }

  lemma FirstTurns(seen: seq<State>, plans: seq<Plan>, cuts: seq<nat>, n: nat)
    requires InTurns(seen, plans, cuts) && 0 < n <= |plans|
    ensures At(seen, plans[..n], cuts[..n + 1], n - 1, cuts[n])
  {
    hide IsTurn, Sound;
    var first, ends := plans[..n], cuts[..n + 1];
    assert forall i | 0 <= i <= n :: ends[i] == cuts[i];
    assert Bounds(seen, first, ends);
    forall i | 0 <= i < n ensures IsTurn(seen, first[i], ends[i], ends[i + 1]) {
      assert first[i] == plans[i];
    }
  }
}
