/** The disk the upgrade works on: one system call at a time, any of which may fail, and a record of
    every state it has been in. A process can die in any state the record holds, so what holds of
    all of them holds at every crash. Which calls fail for no reason the state gives is up to
    `faults`; `hits` counts those that have, so that a call under which it does not grow failed, if
    it did, for a reason. */
module DiskModel {
  import opened Wrappers
  import opened Filesystem

  /** The states after `before` are all `start` changed at most at or under `ps`. */
  ghost predicate OnlyAt(before: seq<State>, after: seq<State>, start: State, ps: set<Path>) {
    && before <= after
    && forall i :: |before| <= i < |after| ==> Elsewhere(start, after[i], ps)
  }

  /** No name there is in `s` is gone in any state after `before`. */
  ghost predicate AllNamesStay(before: seq<State>, after: seq<State>, s: State) {
    before <= after && forall i :: |before| <= i < |after| ==> NamesStay(s.root, after[i].root)
  }

  /** Each state after `before` has no name that the one before it had not. */
  ghost predicate Shrinking(before: seq<State>, after: seq<State>) {
    && before != [] && before <= after
    && forall i | |before| <= i < |after| :: NamesStay(after[i].root, after[i - 1].root)
  }

  ghost predicate AllSound(states: seq<State>) {
    forall i :: 0 <= i < |states| ==> Sound(states[i])
  }

  /** How many of the first `n` calls fail by chance. */
  ghost function Count(faults: nat -> bool, n: nat): nat {
    if n == 0 then 0 else Count(faults, n - 1) + if faults(n - 1) then 1 else 0
  }

  lemma {:induction false} NeverByChance(faults: nat -> bool, n: nat)
    requires forall i :: !faults(i)
    ensures Count(faults, n) == 0
  {
    if n > 0 {
      NeverByChance(faults, n - 1);
    }
  }

  /** After one that does, no call fails by chance. */
  lemma {:induction false} FailsOnce(faults: nat -> bool, n: nat, m: nat)
    requires forall c :: c > n ==> !faults(c)
    ensures Count(faults, m) <= Count(faults, n) + 1
    decreases m + n
  {
    if m > n {
      FailsOnce(faults, n, m - 1);
    } else {
      CountGrows(faults, m, n);
    }
  }

  lemma {:induction false} CountGrows(faults: nat -> bool, m: nat, n: nat)
    requires m <= n
    ensures Count(faults, m) <= Count(faults, n)
    decreases n
  {
    if m < n {
      CountGrows(faults, m, n - 1);
    }
  }

  class Disk {
    const faults: nat -> bool
    var calls: nat
    var now: State
    var seen: seq<State>
    ghost var hits: nat

    ghost predicate Valid()
      reads this
    {
      seen != [] && seen[|seen| - 1] == now && Sound(now) && AllSound(seen) && hits == Count(faults, calls)
    }

    constructor (start: State, faults: nat -> bool)
      requires Sound(start)
      ensures Valid() && now == start && seen == [start] && this.faults == faults && calls == 0 && hits == 0
    {
      this.faults, calls, now, seen, hits := faults, 0, start, [start], 0;
    }

    /** Whether the next call fails by chance. */
    method Chance() returns (fails: bool)
      requires Valid()
      modifies this`calls, this`hits
      ensures Valid() && hits == old(hits) + if fails then 1 else 0
      ensures fails == faults(old(calls)) && calls == old(calls) + 1
    {
      fails := faults(calls);
      calls, hits := calls + 1, hits + if fails then 1 else 0;
    }

    /** One system call took effect. */
    method Become(next: State)
      requires Valid() && Sound(next)
      modifies this`now, this`seen
      ensures Valid() && now == next && seen == old(seen) + [next]
    {
      now, seen := next, seen + [next];
    }

    /** The process dies when the disk is in the state it came to as number `at`: nothing later is. */
    method DieAt(at: nat)
      requires Valid() && at < |seen|
      modifies this`now, this`seen
      ensures Valid() && seen == old(seen)[..at + 1] && now == old(seen)[at]
    {
      now, seen := seen[at], seen[..at + 1];
    }

    method Rename(from: Path, to: Path) returns (ok: bool)
      requires Valid()
      modifies this
      ensures Valid()
      ensures hits >= old(hits) && (ok || hits > old(hits) || !CanRename(old(now).root, from, to))
      ensures ok ==> CanRename(old(now).root, from, to)
      ensures ok ==> now == Renamed(old(now), from, to) && seen == old(seen) + [now]
      ensures !ok ==> now == old(now) && seen == old(seen)
    {
      var fails := Chance();
      if fails || !CanRename(now.root, from, to) {
        return false;
      }
      RenameMoves(now, from, to);
      Become(Renamed(now, from, to));
      return true;
    }

    /** `remove_file`, and `remove_dir` on an empty directory. */
    method RemoveEntry(p: Path) returns (ok: bool)
      requires Valid()
      modifies this
      ensures Valid()
      ensures hits == old(hits) + (if faults(old(calls)) then 1 else 0) && (faults(old(calls)) ==> !ok)
      ensures ok || hits > old(hits) || p == [] || !(IsFile(old(now).root, p)
                                                     || Get(old(now).root, p) == Some(Dir(map[])))
      ensures ok ==> p != [] && Get(old(now).root, p).Some? && now == old(now).(root := Del(old(now).root, p))
                     && seen == old(seen) + [now]
      ensures !ok ==> now == old(now) && seen == old(seen)
    {
      var fails := Chance();
      var here := Get(now.root, p);
      if fails || p == [] || here.None? || (here.value.Dir? && here.value.kids != map[]) {
        return false;
      }
      DelElsewhere(now, p);
      Become(now.(root := Del(now.root, p)));
      return true;
    }

    /** `remove_dir_all`: entry by entry, stopping at the first that does not go. What is left is part
        of what there was; all of it, if the first call fails. */
    method RemoveTree(p: Path) returns (ok: bool)
      requires Valid() && p != []
      modifies this
      ensures Valid() && OnlyAt(old(seen), seen, old(now), {p}) && Elsewhere(old(now), now, {p})
      ensures hits >= old(hits) && (ok || hits > old(hits) || !IsDir(old(now).root, p))
      ensures ok ==> Get(now.root, p) == None
      ensures !IsDir(old(now).root, p) ==> !ok && now == old(now) && hits == old(hits)
      ensures NamesStay(now.root, old(now).root) && Shrinking(old(seen), seen)
      ensures IsDir(old(now).root, p) && faults(old(calls)) ==> !ok && now == old(now) && hits == old(hits) + 1
      ensures IsDir(old(now).root, p) && !ok ==> IsDir(now.root, p)
      ensures hits == old(hits) + if IsDir(old(now).root, p) && !ok then 1 else 0
    {
      var here := Get(now.root, p);
      SameElsewhere(now, {p});
      NoneShrinks(seen);
      if here.None? || here.value.File? {
        return false;
      }
      ok := RemoveDirTree(p, here.value);
    }

    method RemoveDirTree(p: Path, n: Node) returns (ok: bool)
      requires Valid() && p != [] && Get(now.root, p) == Some(n) && n.Dir?
      modifies this
      ensures Valid() && OnlyAt(old(seen), seen, old(now), {p}) && Elsewhere(old(now), now, {p})
      ensures hits == old(hits) + if ok then 0 else 1
      ensures ok ==> Get(now.root, p) == None
      ensures !ok ==> IsDir(now.root, p)
      ensures NamesStay(now.root, old(now).root) && Shrinking(old(seen), seen)
      ensures faults(old(calls)) ==> !ok && now == old(now)
      decreases n, 0
    {
      hide Elsewhere, Get, Room, Inos, Clear, NotUnder, OnlyAt, Count, IsDir, NamesStay, Shrinking, Sound;
      hide AllSound, AllNamesStay;
      ghost var start := now;
      NamesStayed(now.root);
      NoneShrinks(seen);
      NoSteps(seen, start, {p});
      FoundDir(now.root, p, n);
      var names := n.kids.Keys;
      ghost var left := n.kids;
      SameElsewhere(now, {p});
      forall k | k in names
        ensures Get(now.root, p + [k]) == Some(n.kids[k])
      {
        EntryOf(now.root, p, n, k);
      }
      while names != {}
        invariant Valid() && names <= n.kids.Keys && hits == old(hits)
        invariant OnlyAt(old(seen), seen, start, {p}) && Elsewhere(start, now, {p})
        invariant Get(now.root, p) == Some(Dir(left)) && left.Keys == names
        invariant forall k | k in names :: Get(now.root, p + [k]) == Some(n.kids[k])
        invariant NamesStay(now.root, start.root) && Shrinking(old(seen), seen)
        invariant faults(old(calls)) ==> calls == old(calls) && now == start
        decreases |names|
      {
        var k :| k in names;
        var path := p + [k];
        ghost var was := now;
        ghost var had := seen;
        var done := RemoveAny(path, n.kids[k]);
        NamesStayThen(now.root, was.root, start.root);
        Joins(old(seen), had, seen, start, was, now, p, path);
        ShrinksThen(old(seen), had, seen);
        if !done {
          DirAbove(was, now, p, path);
          return false;
        }
        EntryGone(was, now, p, left, k);
        left := left - {k};
        names := names - {k};
        forall j | j in names
          ensures Get(now.root, p + [j]) == Some(n.kids[j])
        {
          SiblingKept(was, now, p, k, j);
        }
      }
      ghost var was, had := now, seen;
      assert left == map[];
      FoundDir(now.root, p, Dir(left));
      ok := RemoveLeaf(p);
      NamesStayThen(now.root, was.root, start.root);
      Joins(old(seen), had, seen, start, was, now, p, p);
      ShrinksThen(old(seen), had, seen);
    }

    /** A directory with all in it, or a file. */
    method RemoveAny(p: Path, n: Node) returns (ok: bool)
      requires Valid() && p != [] && Get(now.root, p) == Some(n)
      modifies this
      ensures Valid() && OnlyAt(old(seen), seen, old(now), {p}) && Elsewhere(old(now), now, {p})
      ensures hits == old(hits) + if ok then 0 else 1
      ensures ok ==> Get(now.root, p) == None
      ensures NamesStay(now.root, old(now).root) && Shrinking(old(seen), seen)
      ensures faults(old(calls)) ==> !ok && now == old(now)
      decreases n, 1
    {
      hide Elsewhere, Get, Room, Inos, Clear, NotUnder, OnlyAt, Count, IsDir, NamesStay, Shrinking, Sound, AllSound;
      if n.Dir? {
        ok := RemoveDirTree(p, n);
      } else {
        FoundFile(now.root, p, n);
        ok := RemoveLeaf(p);
      }
    }

    /** A file, or a directory with nothing in it. */
    method RemoveLeaf(p: Path) returns (ok: bool)
      requires Valid() && p != [] && (IsFile(now.root, p) || Get(now.root, p) == Some(Dir(map[])))
      modifies this
      ensures Valid() && OnlyAt(old(seen), seen, old(now), {p}) && Elsewhere(old(now), now, {p})
      ensures hits == old(hits) + if ok then 0 else 1
      ensures if ok then Get(now.root, p) == None else now == old(now)
      ensures NamesStay(now.root, old(now).root) && Shrinking(old(seen), seen)
      ensures faults(old(calls)) ==> !ok
    {
      hide Elsewhere, Room, Inos, Clear, NotUnder, OnlyAt, Count, NamesStay, Shrinking, Sound, AllSound;
      ghost var was, had := now, seen;
      NamesStayed(was.root);
      SameElsewhere(was, {p});
      NoSteps(had, was, {p});
      NoneShrinks(had);
      ok := RemoveEntry(p);
      if ok {
        DelElsewhere(was, p);
        DelLeaves(was, p);
        DelNames(was.root, p);
        OneStep(had, now, was, {p});
        OneShrinks(had, now);
      }
    }

    method MakeDir(p: Path) returns (ok: bool)
      requires Valid()
      modifies this
      ensures Valid()
      ensures hits >= old(hits) && (ok || hits > old(hits) || !Room(old(now).root, p) || Get(old(now).root, p).Some?)
      ensures calls == old(calls) + 1 && (ok ==> hits == old(hits) && !faults(old(calls)))
      ensures Room(old(now).root, p) && Get(old(now).root, p) == None ==> ok == !faults(old(calls))
      ensures ok ==> Room(old(now).root, p) && Get(old(now).root, p) == None
                     && now == PutAt(old(now), p, Dir(map[])) && seen == old(seen) + [now]
      ensures !ok ==> now == old(now) && seen == old(seen)
    {
      var fails := Chance();
      if fails || !Room(now.root, p) || Get(now.root, p).Some? {
        return false;
      }
      PutElsewhere(now, p, Dir(map[]));
      Become(PutAt(now, p, Dir(map[])));
      return true;
    }

    /** `create_dir_all`: each directory on the way that is missing. Making the way to `p` changes
        nothing apart from any place `target` the way leads to. */
    method MakeDirs(p: Path, ghost target: Path) returns (ok: bool)
      requires Valid() && p <= target
      modifies this
      ensures Valid() && OnlyAt(old(seen), seen, old(now), {target}) && Elsewhere(old(now), now, {target})
      ensures hits >= old(hits) && (ok || hits > old(hits) || Blocked(old(now).root, p)) && (ok ==> hits == old(hits))
      ensures SameFiles(old(now), now) && NamesUpTo(old(now).root, now.root, p)
      ensures AllNamesStay(old(seen), seen, old(now))
      ensures ok ==> IsDir(now.root, p)
      ensures Get(old(now).root, p).Some? ==> now == old(now)
      ensures ok && Get(old(now).root, p) == None ==> Get(now.root, p) == Some(Dir(map[]))
      ensures Get(old(now).root, target) == None && p != target ==> Get(now.root, target) == None
      ensures p != [] && IsDir(old(now).root, p[..|p| - 1]) ==>
                && (!ok ==> now == old(now))
                && if Get(old(now).root, p) == None then calls == old(calls) + 1
                    && ok == !faults(old(calls)) else calls == old(calls)
    {
      hide Elsewhere, Count, Inos, SameFiles, NamesUpTo, Blocked, OnlyAt, Get, Room, Sound, AllSound, AllNamesStay;
      ghost var start := now;
      ghost var near := p != [] && IsDir(now.root, p[..|p| - 1]);
      SameElsewhere(now, {target});
      NoSteps(seen, start, {target});
      NothingMade(start, p);
      NoneGone(seen, start);
      ok := now.root.Dir?;
      AtRoot(now.root, p, ok);
      if !ok {
        BlockedAt(now.root, p, 0);
      }
      var i := 0;
      while ok && i < |p|
        invariant i <= |p|
        invariant Valid() && OnlyAt(old(seen), seen, start, {target}) && Elsewhere(start, now, {target})
        invariant SameFiles(start, now) && NamesUpTo(start.root, now.root, p) && hits >= old(hits)
        invariant AllNamesStay(old(seen), seen, start)
        invariant (ok || hits > old(hits) || Blocked(start.root, p)) && (ok ==> hits == old(hits))
        invariant ok ==> IsDir(now.root, p[..i])
        invariant Get(start.root, p).Some? ==> now == start
        invariant ok && Get(start.root, p) == None ==>
                  if i < |p| then Get(now.root, p) == None else Get(now.root, p) == Some(Dir(map[]))
        invariant Get(start.root, target) == None && p != target ==> Get(now.root, target) == None
        invariant near ==> (i < |p| ==> ok) && (i < |p| || !ok ==> now == start)
        invariant near ==> if i == |p| && Get(start.root, p) == None then calls == old(calls) + 1
                  && ok == !faults(old(calls))
                           else calls == old(calls)
      {
        i := i + 1;
        if near && i < |p| {
          OnTheWayNear(start.root, p, i);
        }
        var path := p[..i];
        var here := Get(now.root, path);
        PrefixGet(now.root, path, p);
        PrefixGet(start.root, path, p);
        if here.None? {
          ghost var was, had := now, seen;
          RoomIsParent(now.root, path);
          assert path[..|path| - 1] == p[..i - 1];
          ok := MakeDir(path);
          if ok {
            assert path <= p && path <= target;
            MadeDir(was, path, target);
            MadeDir(was, path, p);
            OneMoreDir(start, was, now, path, p);
            MadeStays(old(seen), had, start, now, p);
            OneStep(had, now, was, {target});
            JoinsAt(old(seen), had, seen, start, was, now, {target}, {target});
          }
        } else {
          ok := here.value.Dir?;
          if !ok {
            FileSince(start, now, path);
            BlockedAt(start.root, p, i);
          }
        }
        assert i == |p| ==> path == p;
      }
      assert p[..|p|] == p;
    }

    /** `write` where nothing is yet: the file appears, empty or part written, before it is whole. */
    method WriteNew(p: Path, text: string) returns (ok: bool)
      requires Valid() && Get(now.root, p) == None
      modifies this
      ensures Valid() && OnlyAt(old(seen), seen, old(now), {p}) && Elsewhere(old(now), now, {p})
      ensures hits >= old(hits) && (ok || hits > old(hits) || !Room(old(now).root, p)) && (ok ==> hits == old(hits))
      ensures Room(old(now).root, p) && !faults(old(calls)) && !faults(old(calls) + 1) ==> ok && calls == old(calls) + 2
      ensures ok ==> Room(old(now).root, p) && now == Create(old(now), p, text)
      ensures !ok ==> now == old(now) || (Room(old(now).root, p) && exists part :: now == Create(old(now), p, part))
      ensures AllNamesStay(old(seen), seen, old(now))
    {
      hide Elsewhere, Get, Room, Inos, Count, NamesStay;
      var fails := Chance();
      if fails || !Room(now.root, p) {
        SameElsewhere(now, {p});
        return false;
      }
      var start := now;
      var part: string := *;
      PutNames(start.root, p, File(start.next));
      CreateElsewhere(start, p, part);
      Become(Create(start, p, part));
      var stops := Chance();
      if stops {
        return false;
      }
      CreateElsewhere(start, p, text);
      Become(Create(start, p, text));
      return true;
    }

    /** `copy`: into a new file, or over the one that is there. What is there is emptied first, even
        when it is the very file being read: then the text is lost. */
    method Copy(from: Path, to: Path) returns (ok: bool)
      requires Valid()
      modifies this
      ensures Valid() && old(seen) <= seen
      ensures hits >= old(hits)
      ensures ok || hits > old(hits) || !IsFile(old(now).root, from) || IsDir(old(now).root, to)
                || !Room(old(now).root, to)
      ensures ok ==> IsFile(old(now).root, from) && ReadText(old(now), from).Some?
      ensures NamesStay(old(now).root, now.root) && AllNamesStay(old(seen), seen, old(now))
      ensures IsFile(old(now).root, to) ==>
                if ok then
                  var lost := Get(old(now).root, from) == Get(old(now).root, to);
                  now == Overwritten(old(now), to, if lost then "" else ReadText(old(now), from).value)
                else now == old(now) || GivenText(old(now), now, to)
      ensures IsFile(old(now).root, to) ==>
                forall i :: |old(seen)| <= i < |seen| ==>
                  IsFile(old(now).root, from) && GivenText(old(now), seen[i], to)
      ensures IsDir(old(now).root, to) ==> !ok && now == old(now) && seen == old(seen)
      ensures Get(old(now).root, to) == None ==>
                && OnlyAt(old(seen), seen, old(now), {to}) && Elsewhere(old(now), now, {to})
                && (ok ==> IsFile(old(now).root, from) && Room(old(now).root, to)
                           && ReadText(old(now), from).Some?
                           && now == Create(old(now), to, ReadText(old(now), from).value))
    {
      hide Count, Inos;
      var text := ReadText(now, from);
      var there := Get(now.root, to);
      FileHasText(now, from);
      if text.None? || (there.Some? && there.value.Dir?) {
        SameElsewhere(now, {to});
        return false;
      }
      if there.None? {
        ghost var was := now;
        ok := WriteNew(to, text.value);
        if now != was {
          PutNames(was.root, to, File(was.next));
        }
        return;
      }
      ghost var was, had := now, seen;
      ok := CopyOver(from, to);
      OverStays(had, seen, was, to);
    }

    /** Over the file that is there: it is emptied, and only then is the text read and written. */
    method CopyOver(from: Path, to: Path) returns (ok: bool)
      requires Valid() && IsFile(now.root, from) && IsFile(now.root, to)
      modifies this
      ensures Valid() && old(seen) <= seen && hits >= old(hits) && (ok || hits > old(hits))
      ensures now.root == old(now).root
      ensures if ok then
                var lost := Get(old(now).root, from) == Get(old(now).root, to);
                ReadText(old(now), from).Some?
                && now == Overwritten(old(now), to, if lost then "" else ReadText(old(now), from).value)
              else now == old(now) || GivenText(old(now), now, to)
      ensures forall i :: |old(seen)| <= i < |seen| ==> GivenText(old(now), seen[i], to)
    {
      hide Count;
      var fails := Chance();
      if fails {
        return false;
      }
      InosOfGet(now.root, to);
      InosOfGet(now.root, from);
      hide Inos, Get;
      ghost var was := now;
      Write(to, "");
      var text := ReadText(now, from);
      var part: string := *;
      Write(to, part);
      var stops := Chance();
      if stops {
        assert now == Overwritten(was, to, part);
        return false;
      }
      Write(to, text.value);
      assert now == Overwritten(was, to, text.value);
      return true;
    }

    /** The file at `to` holds `text` now. */
    method Write(to: Path, text: string)
      requires Valid() && IsFile(now.root, to)
      modifies this`now, this`seen
      ensures Valid() && now == Overwritten(old(now), to, text) && seen == old(seen) + [now]
      ensures forall s: State, part | IsFile(s.root, to) && old(now) == Overwritten(s, to,
                part) :: now == Overwritten(s, to, text)
    {
      InosOfGet(now.root, to);
      ghost var was := now;
      Become(Overwritten(now, to, text));
      forall s: State, part | IsFile(s.root, to) && was == Overwritten(s, to, part)
        ensures now == Overwritten(s, to, text)
      {
        assert now.data == s.data[Get(s.root, to).value.ino := text];
      }
    }

    /** `hard_link`: one more name for a file. */
    method Link(from: Path, to: Path) returns (ok: bool)
      requires Valid()
      modifies this
      ensures Valid() && OnlyAt(old(seen), seen, old(now), {to}) && Elsewhere(old(now), now, {to})
      ensures hits >= old(hits)
      ensures ok || hits > old(hits) || !IsFile(old(now).root, from) || !Room(old(now).root, to)
                || Get(old(now).root, to).Some?
      ensures ok ==> IsFile(old(now).root, from) && Room(old(now).root, to) && Get(old(now).root, to) == None
                     && now == PutAt(old(now), to, Get(old(now).root, from).value)
      ensures !ok ==> now == old(now) && seen == old(seen)
      ensures AllNamesStay(old(seen), seen, old(now))
    {
      var fails := Chance();
      if fails || !IsFile(now.root, from) || !Room(now.root, to) || Get(now.root, to).Some? {
        SameElsewhere(now, {to});
        return false;
      }
      InosOfGet(now.root, from);
      PutElsewhere(now, to, Get(now.root, from).value);
      PutNames(now.root, to, Get(now.root, from).value);
      Become(PutAt(now, to, Get(now.root, from).value));
      return true;
    }

    /** `write_atomic`: a whole new file takes the name in one step. */
    method WriteAtomic(p: Path, text: string) returns (ok: bool)
      requires Valid()
      modifies this
      ensures Valid()
      ensures hits >= old(hits) && (ok || hits > old(hits) || !Room(old(now).root, p) || IsDir(old(now).root, p))
      ensures faults(old(calls)) ==> !ok
      ensures ok ==> !IsDir(old(now).root, p)
      ensures ok ==> Room(old(now).root, p) && now == Create(old(now), p, text) && seen == old(seen) + [now]
      ensures !ok ==> now == old(now) && seen == old(seen)
    {
      var fails := Chance();
      if fails || !Room(now.root, p) || IsDir(now.root, p) {
        return false;
      }
      CreateElsewhere(now, p, text);
      Become(Create(now, p, text));
      return true;
    }
  }

  /** The file at `p` written over, through whatever names lead to it. */
  function Overwritten(s: State, p: Path, text: string): State
    requires IsFile(s.root, p)
  {
    s.(data := s.data[Get(s.root, p).value.ino := text])
  }

  lemma OverStays(before: seq<State>, after: seq<State>, s: State, p: Path)
    requires before <= after && forall i :: |before| <= i < |after| ==> GivenText(s, after[i], p)
    ensures AllNamesStay(before, after, s)
  {
    NamesStayed(s.root);
    hide NamesStay;
  }

  /** `t` is `s` with the file at `p` written over, whatever with. */
  ghost predicate GivenText(s: State, t: State, p: Path) {
    IsFile(s.root, p) && exists text :: t == Overwritten(s, p, text)
  }

  /** A file is in the way of making `p` a directory. */
  ghost predicate Blocked(n: Node, p: Path) {
    exists q :: q <= p && IsFile(n, q)
  }

  lemma DirUnlessBlocked(n: Node, p: Path)
    requires Get(n, p).Some?
    ensures IsDir(n, p) || Blocked(n, p)
  {
    if !IsDir(n, p) {
      assert p <= p && IsFile(n, p);
    }
  }

  lemma UpIsDir(s: State, t: State, p: Path)
    requires Elsewhere(s, t, {p}) && Get(s.root, p).Some? && Get(t.root, p) == None
    ensures !Blocked(s.root, p) ==> !Blocked(t.root, p)
  {
    if !Blocked(s.root, p) {
      RemovedBlocks(s, t, p);
    }
  }

  /** What is removed from `p` was in the way of nothing above it. */
  lemma RemovedBlocks(s: State, t: State, p: Path)
    requires Elsewhere(s, t, {p}) && !Blocked(s.root, p) && Get(s.root, p).Some? && Get(t.root, p) == None
    ensures !Blocked(t.root, p)
  {
    hide Elsewhere;
    forall q | q <= p ensures !IsFile(t.root, q) {
      if q < p {
        WayIsDir(s.root, q, p);
        DirStays(s, t, p, q);
      } else {
        assert q == p;
      }
    }
  }

  lemma DirStays(s: State, t: State, p: Path, q: Path)
    requires Elsewhere(s, t, {p}) && q < p && IsDir(s.root, q)
    ensures IsDir(t.root, q)
  {
    NotUnderOne(p);
  }

  lemma BlockedAt(n: Node, p: Path, i: nat)
    requires i <= |p| && IsFile(n, p[..i])
    ensures Blocked(n, p)
  {
    assert p[..i] <= p;
  }

  /** Every name is still there, and leads to the file it led to, or to a directory. */
  ghost predicate NamesStay(s: Node, t: Node) {
    forall q :: Get(s, q).Some? ==> (IsDir(s, q) && IsDir(t, q)) || Get(t, q) == Get(s, q)
  }

  lemma NamesStayed(s: Node)
    ensures NamesStay(s, s)
  {
  }

  /** What is there after something was removed was there before. */
  lemma DelNames(n: Node, p: Path)
    requires p != [] && Get(n, p).Some?
    ensures NamesStay(Del(n, p), n)
  {
    forall q | Get(Del(n, p), q).Some?
      ensures (IsDir(Del(n, p), q) && IsDir(n, q)) || Get(n, q) == Get(Del(n, p), q)
    {
      GetDel(n, p, q);
    }
  }

  lemma NoneShrinks(seen: seq<State>)
    requires seen != []
    ensures Shrinking(seen, seen)
  {
  }

  lemma OneShrinks(had: seq<State>, t: State)
    requires had != [] && NamesStay(t.root, had[|had| - 1].root)
    ensures Shrinking(had, had + [t])
  {
  }

  lemma ShrinksThen(before: seq<State>, had: seq<State>, after: seq<State>)
    requires Shrinking(before, had) && Shrinking(had, after)
    ensures Shrinking(before, after)
  {
    hide NamesStay;
    assert forall i | 0 <= i < |had| :: after[i] == had[i];
  }

  /** No name there is in a later state was not in an earlier one. */
  lemma {:induction false} ShrunkSince(before: seq<State>, after: seq<State>, m: nat, n: nat)
    requires Shrinking(before, after) && |before| - 1 <= m <= n < |after|
    ensures NamesStay(after[n].root, after[m].root)
    decreases n - m
  {
    if m == n {
      NamesStayed(after[m].root);
    } else {
      ShrunkSince(before, after, m, n - 1);
      NamesStayThen(after[n].root, after[n - 1].root, after[m].root);
    }
    hide NamesStay;
  }

  lemma DirAbove(s: State, t: State, p: Path, path: Path)
    requires Get(s.root, p).Some? && Get(s.root, p).value.Dir? && Elsewhere(s, t, {path}) && p < path
    ensures IsDir(t.root, p)
  {
    NotUnderOne(path);
  }

  lemma NoneGone(seen: seq<State>, s: State)
    ensures AllNamesStay(seen, seen, s)
  {
  }

  lemma StayThen(before: seq<State>, had: seq<State>, after: seq<State>, s: State, was: State)
    requires AllNamesStay(before, had, s) && AllNamesStay(had, after, was) && NamesStay(s.root, was.root)
    ensures AllNamesStay(before, after, s)
  {
    hide NamesStay;
    forall i | |before| <= i < |after| ensures NamesStay(s.root, after[i].root) {
      if i < |had| {
        assert after[i] == had[i];
      } else {
        NamesStayThen(s.root, was.root, after[i].root);
      }
    }
  }

  lemma NamesStayThen(s: Node, t: Node, u: Node)
    requires NamesStay(s, t) && NamesStay(t, u)
    ensures NamesStay(s, u)
  {
    hide Get;
  }

  /** No name has gone, and none has come but on the way to `p`. */
  ghost predicate NamesUpTo(s: Node, t: Node, p: Path) {
    NamesStay(s, t) && forall q :: Get(t, q).Some? ==> Get(s, q).Some? || q <= p
  }

  lemma NothingMade(s: State, p: Path)
    ensures SameFiles(s, s) && NamesUpTo(s.root, s.root, p)
  {
  }

  lemma MadeStays(before: seq<State>, had: seq<State>, s: State, t: State, p: Path)
    requires AllNamesStay(before, had, s) && NamesUpTo(s.root, t.root, p)
    ensures AllNamesStay(before, had + [t], s)
  {
    hide NamesStay;
  }

  lemma OneMoreDir(s: State, t: State, u: State, path: Path, p: Path)
    requires SameFiles(s, t) && SameFiles(t, u) && path <= p
    requires NamesUpTo(s.root, t.root, p) && NamesUpTo(t.root, u.root, path)
    ensures SameFiles(s, u) && NamesUpTo(s.root, u.root, p)
  {
    hide Get;
    NamesStayThen(s.root, t.root, u.root);
  }

  lemma FileSince(s: State, t: State, p: Path)
    requires SameFiles(s, t) && IsFile(t.root, p)
    ensures IsFile(s.root, p)
  {
    assert Get(t.root, p) == Some(File(Get(t.root, p).value.ino));
  }

  /** A part of a run confined to `qs`, joined to a run confined to `ps`. */
  lemma JoinsAt(before: seq<State>, had: seq<State>, after: seq<State>, start: State, was: State, now: State,
                ps: set<Path>, qs: set<Path>)
    requires OnlyAt(before, had, start, ps) && Elsewhere(start, was, ps)
    requires OnlyAt(had, after, was, qs) && Elsewhere(was, now, qs)
    requires forall q | q in qs :: exists p :: p in ps && p <= q
    ensures OnlyAt(before, after, start, ps) && Elsewhere(start, now, ps)
  {
    hide Elsewhere;
    ElsewhereWider(was, now, qs, ps);
    ElsewhereThen(start, was, now, ps);
    forall i | |before| <= i < |after|
      ensures Elsewhere(start, after[i], ps)
    {
      if i < |had| {
        assert after[i] == had[i];
      } else {
        ElsewhereWider(was, after[i], qs, ps);
        ElsewhereThen(start, was, after[i], ps);
      }
    }
  }

  /** The names there are after something is put where nothing was. */
  lemma PutNames(n: Node, p: Path, x: Node)
    requires Room(n, p) && Get(n, p) == None
    ensures NamesStay(n, Put(n, p, x))
    ensures forall q :: Get(Put(n, p, x), q).Some? <==> Get(n, q).Some? || (p <= q && Get(x, q[|p|..]).Some?)
  {
    forall q
      ensures Get(Put(n, p, x), q).Some? <==> Get(n, q).Some? || (p <= q && Get(x, q[|p|..]).Some?)
      ensures Get(n, q).Some? ==> (IsDir(n, q) && IsDir(Put(n, p, x), q)) || Get(Put(n, p, x), q) == Get(n, q)
    {
      GetPut(n, p, x, q);
      if p <= q {
        PrefixGet(n, p, q);
      }
    }
  }

  lemma FoundDir(root: Node, p: Path, n: Node)
    requires Get(root, p) == Some(n) && n.Dir?
    ensures IsDir(root, p)
  {
  }

  lemma FoundFile(root: Node, p: Path, n: Node)
    requires Get(root, p) == Some(n) && n.File?
    ensures IsFile(root, p)
  {
  }

  lemma FileHasText(s: State, p: Path)
    requires Sound(s)
    ensures IsFile(s.root, p) <==> ReadText(s, p).Some?
  {
    if IsFile(s.root, p) {
      InosOfGet(s.root, p);
    }
  }

  lemma DelLeaves(s: State, p: Path)
    requires p != [] && Get(s.root, p).Some?
    ensures Get(Del(s.root, p), p) == None
  {
    GetDel(s.root, p, p);
  }

  /** Entry `k` of a directory has gone, and no other entry of it changed. */
  lemma EntryGone(was: State, t: State, p: Path, left: map<string, Node>, k: string)
    requires Get(was.root, p) == Some(Dir(left)) && Elsewhere(was, t, {p + [k]}) && Get(t.root, p + [k]) == None
    ensures Get(t.root, p) == Some(Dir(left - {k}))
  {
    NotUnderOne(p + [k]);
    assert p < p + [k];
    assert IsDir(was.root, p) && IsDir(t.root, p);
    var got := Get(t.root, p).value;
    forall j
      ensures j in got.kids <==> j in left - {k}
      ensures j in got.kids ==> got.kids[j] == (left - {k})[j]
    {
      EntryOf(t.root, p, got, j);
      EntryOf(was.root, p, Dir(left), j);
      if j != k {
        SiblingKept(was, t, p, k, j);
      }
    }
    assert got.kids == left - {k};
  }

  /** The same files, by inode, at the same places; directories may differ. */
  ghost predicate SameFiles(s: State, t: State) {
    && t.data == s.data
    && t.next == s.next
    && forall q, i :: Get(t.root, q) == Some(File(i)) <==> Get(s.root, q) == Some(File(i))
  }

  lemma PrefixGet(n: Node, q: Path, p: Path)
    requires q <= p
    ensures Get(n, p) == if Get(n, q).Some? then Get(Get(n, q).value, p[|q|..]) else None
  {
    assert p == q + p[|q|..];
    GetUnder(n, q, p[|q|..]);
  }

  lemma AtRoot(n: Node, p: Path, ok: bool)
    requires ok == n.Dir?
    ensures ok ==> IsDir(n, p[..0])
    ensures !ok ==> IsFile(n, p[..0]) && (p != [] ==> Get(n, p) == None && !IsDir(n, p[..|p| - 1]))
    ensures p == [] ==> Get(n, p) == Some(n)
  {
  }

  lemma OnTheWayNear(n: Node, p: Path, i: nat)
    requires i < |p| && IsDir(n, p[..|p| - 1])
    ensures IsDir(n, p[..i])
  {
    assert p[..i] == p[..|p| - 1][..i];
    if i < |p| - 1 {
      WayIsDir(n, p[..i], p[..|p| - 1]);
    }
  }

  lemma WayIsDir(n: Node, q: Path, p: Path)
    requires q < p && Get(n, p).Some?
    ensures IsDir(n, q)
  {
    PrefixGet(n, q, p);
    assert p[|q|..] != [];
  }

  /** A directory made on the way to `p` changes nothing apart from `p`. */
  lemma MadeDir(s: State, path: Path, p: Path)
    requires Sound(s) && Room(s.root, path) && Get(s.root, path) == None && path <= p
    ensures var t := PutAt(s, path, Dir(map[]));
            && Elsewhere(s, t, {p})
            && SameFiles(s, t) && NamesUpTo(s.root, t.root, path)
            && Get(t.root, path) == Some(Dir(map[]))
            && (path != p ==> Get(t.root, p) == None)
  {
    var t := PutAt(s, path, Dir(map[]));
    PutElsewhere(s, path, Dir(map[]));
    PutNames(s.root, path, Dir(map[]));
    NotUnderOne(path);
    NotUnderOne(p);
    forall q
      ensures Apart(p, q) ==> Get(t.root, q) == Get(s.root, q)
      ensures !(p <= q) && IsDir(s.root, q) ==> IsDir(t.root, q)
      ensures forall i :: Get(t.root, q) == Some(File(i)) <==> Get(s.root, q) == Some(File(i))
    {
      GetPut(s.root, path, Dir(map[]), q);
      if path <= q {
        PrefixGet(s.root, path, q);
        if q == path {
          assert q[|path|..] == [];
        }
      }
    }
    GetPut(s.root, path, Dir(map[]), path);
    GetPut(s.root, path, Dir(map[]), p);
  }

  lemma SameElsewhere(s: State, ps: set<Path>)
    requires Sound(s)
    ensures Elsewhere(s, s, ps)
  {
  }

  lemma NoSteps(before: seq<State>, start: State, ps: set<Path>)
    ensures OnlyAt(before, before, start, ps)
  {
  }

  lemma StepsAdd(before: seq<State>, after: seq<State>, start: State, ps: set<Path>)
    requires OnlyAt(before, after, start, ps)
    ensures before <= after
  {
  }

  lemma OneStep(before: seq<State>, t: State, start: State, ps: set<Path>)
    requires Elsewhere(start, t, ps)
    ensures OnlyAt(before, before + [t], start, ps)
  {
  }

  lemma Siblings(p: Path, j: string, k: string)
    requires j != k
    ensures Apart(p + [j], p + [k])
  {
    assert (p + [j])[|p|] == j && (p + [k])[|p|] == k;
  }

  lemma SiblingKept(s: State, t: State, p: Path, j: string, k: string)
    requires j != k && Elsewhere(s, t, {p + [j]})
    ensures Get(t.root, p + [k]) == Get(s.root, p + [k])
  {
    Siblings(p, j, k);
    NotUnderOne(p + [j]);
  }

  lemma EntryOf(root: Node, p: Path, n: Node, k: string)
    requires Get(root, p) == Some(n) && n.Dir?
    ensures Get(root, p + [k]) == if k in n.kids then Some(n.kids[k]) else None
  {
    GetUnder(root, p, [k]);
    if k in n.kids {
      assert Get(n.kids[k], []) == Some(n.kids[k]);
    }
  }

  /** A call confined to one place under `p`, made in a run confined to `p`. */
  lemma Joins(before: seq<State>, had: seq<State>, after: seq<State>, start: State, was: State, now: State, p: Path,
              path: Path)
    requires OnlyAt(before, had, start, {p}) && Elsewhere(start, was, {p}) && p <= path
    requires had == after || OnlyAt(had, after, was, {path})
    requires Elsewhere(was, now, {path})
    ensures OnlyAt(before, after, start, {p}) && Elsewhere(start, now, {p})
  {
    ElsewhereWider(was, now, {path}, {p});
    ElsewhereThen(start, was, now, {p});
    forall i | |before| <= i < |after|
      ensures Elsewhere(start, after[i], {p})
    {
      if i < |had| {
        assert after[i] == had[i];
      } else {
        ElsewhereWider(was, after[i], {path}, {p});
        ElsewhereThen(start, was, after[i], {p});
      }
    }
  }
}
