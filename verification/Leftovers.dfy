/** Copying over what an earlier copy left, path by path: what is written where, as long as no file
    left there has another name. */
module Leftovers {
  import opened Wrappers
  import opened Filesystem
  import opened DiskModel

  /** What each path under `src` leads to in `s`, the same path under `dst` leads to in `t`: a
      directory, a file with the same text, or nothing. */
  ghost predicate Alike(s: State, src: Path, t: State, dst: Path) {
    forall q :: (IsDir(s.root, src + q) <==> IsDir(t.root, dst + q)) && ReadText(s, src + q) == ReadText(t, dst + q)
  }

  /** Nothing is left that is not in the source, as a directory or as a file. */
  ghost predicate LeftFits(s: State, src: Path, dst: Path) {
    forall q :: (IsDir(s.root, dst + q) ==> IsDir(s.root, src + q)) && (IsFile(s.root, dst + q) ==>
              IsFile(s.root, src + q))
  }

  /** No file at or under `p` has another name. */
  ghost predicate OwnFiles(s: State, p: Path) {
    forall q, r :: p <= q && IsFile(s.root, q) && Get(s.root, r) == Get(s.root, q) ==> q == r
  }

  /** How a file is saved: copied, or linked where it is no stage log and a link can be made. */
  datatype PutMode = Copying | Linking(logs: Path)

  ghost predicate MayLink(put: PutMode, p: Path) {
    put.Linking? && !(put.logs <= p)
  }

  /** The file at `p` has no other name. */
  ghost predicate OneName(s: State, p: Path) {
    forall r :: Get(s.root, r) == Get(s.root, p) ==> r == p
  }

  /** An empty file, by two names. */
  ghost predicate EmptyLink(s: State, p: Path, q: Path) {
    Get(s.root, p) == Get(s.root, q) && ReadText(s, q) == Some("")
  }

  /** Each file left has no other name, or is empty and the very file the source has there: nothing is
      lost when it is written over. */
  ghost predicate Spare(s: State, src: Path, dst: Path) {
    forall q :: IsFile(s.root, dst + q) ==> OneName(s, dst + q) || EmptyLink(s, src + q, dst + q)
  }

  ghost predicate Fitting(s: State, src: Path, dst: Path) {
    Sound(s) && Apart(src, dst) && Spare(s, src, dst) && LeftFits(s, src, dst)
  }

  /** `t` is `s` with `src` written over what was at `dst`: nothing apart from that reads otherwise, and
      each file there is new, or was there, or is linked to the one the source has there. */
  ghost predicate Written(s: State, t: State, src: Path, dst: Path, put: PutMode) {
    && Sound(t) && s.next <= t.next
    && (forall q :: Apart(dst, q) ==> Get(t.root, q) == Get(s.root, q) && ReadText(t, q) == ReadText(s, q))
    && forall q :: IsFile(t.root, dst + q) ==> PutThere(s, t, src, dst, put, q)
  }

  ghost predicate PutThere(s: State, t: State, src: Path, dst: Path, put: PutMode, q: Path)
    requires IsFile(t.root, dst + q)
  {
    || s.next <= Get(t.root, dst + q).value.ino
    || Get(t.root, dst + q) == Get(s.root, dst + q)
    || (MayLink(put, src + q) && Get(t.root, dst + q) == Get(s.root, src + q))
  }

  ghost predicate SameUnder(s: State, t: State, p: Path) {
    Get(t.root, p) == Get(s.root, p) && forall q :: ReadText(t, p + q) == ReadText(s, p + q)
  }

  lemma InoHeld(s: State, p: Path)
    requires Sound(s) && IsFile(s.root, p)
    ensures Get(s.root, p).value.ino in s.data && Get(s.root, p).value.ino < s.next
    ensures ReadText(s, p) == Some(s.data[Get(s.root, p).value.ino])
  {
    InosOfGet(s.root, p);
  }

  lemma NothingUnder(n: Node, p: Path, q: Path)
    requires IsFile(n, p) && p < q
    ensures Get(n, q) == None
  {
    assert q == p + q[|p|..] && q[|p|..] != [];
    GetUnder(n, p, q[|p|..]);
  }

  // ---- One file ----

  lemma CreateWrites(s: State, from: Path, to: Path, put: PutMode, text: string)
    requires Sound(s) && Room(s.root, to)
    ensures Written(s, Create(s, to, text), from, to, put) && IsFile(Create(s, to, text).root, to)
    ensures ReadText(Create(s, to, text), to) == Some(text)
  {
    var t := Create(s, to, text);
    CreateElsewhere(s, to, text);
    forall q ensures Apart(to, q) ==> Get(t.root, q) == Get(s.root, q) && ReadText(t, q) == ReadText(s, q) {
      GetPut(s.root, to, File(s.next), q);
      if Apart(to, q) && IsFile(s.root, q) {
        InoHeld(s, q);
      }
    }
    OneFileThere(t, to);
  }

  lemma LinkWrites(s: State, from: Path, to: Path, put: PutMode)
    requires Sound(s) && Room(s.root, to) && IsFile(s.root, from) && MayLink(put, from)
    ensures var t := PutAt(s, to, Get(s.root, from).value);
            && Written(s, t, from, to, put) && IsFile(t.root, to) && ReadText(t, to) == ReadText(s, from)
  {
    var n := Get(s.root, from).value;
    var t := PutAt(s, to, n);
    InosOfGet(s.root, from);
    PutElsewhere(s, to, n);
    GetPut(s.root, to, n, to);
    forall q ensures Apart(to, q) ==> Get(t.root, q) == Get(s.root, q) && ReadText(t, q) == ReadText(s, q) {
      GetPut(s.root, to, n, q);
    }
    OneFileThere(t, to);
    assert from + [] == from && to + [] == to;
  }

  lemma OneFileThere(t: State, to: Path)
    requires IsFile(t.root, to)
    ensures forall q :: IsFile(t.root, to + q) ==> q == [] && to + q == to
  {
    forall q | IsFile(t.root, to + q) ensures q == [] && to + q == to {
      if q != [] {
        NothingUnder(t.root, to, to + q);
      }
    }
  }

  lemma OverwriteWrites(s: State, from: Path, to: Path, put: PutMode, text: string)
    requires Sound(s) && IsFile(s.root, to) && (OneName(s, to) || (ReadText(s, to) == Some("") && text == ""))
    ensures Written(s, Overwritten(s, to, text), from, to, put) && ReadText(Overwritten(s, to, text), to) == Some(text)
  {
    InoHeld(s, to);
    var t := Overwritten(s, to, text);
    forall q | Apart(to, q) ensures ReadText(t, q) == ReadText(s, q) {
      assert OneName(s, to) ==> Get(s.root, q) != Get(s.root, to);
    }
  }

  lemma FilesAlike(s: State, from: Path, t: State, to: Path)
    requires Sound(s) && Sound(t) && IsFile(s.root, from) && IsFile(t.root, to) && ReadText(s, from) == ReadText(t, to)
    ensures Alike(s, from, t, to)
  {
    forall q
      ensures IsDir(s.root, from + q) <==> IsDir(t.root, to + q)
      ensures ReadText(s, from + q) == ReadText(t, to + q)
    {
      if q == [] {
        assert from + q == from && to + q == to;
      } else {
        NothingUnder(s.root, from, from + q);
        NothingUnder(t.root, to, to + q);
      }
    }
  }

  // ---- A directory, entry by entry ----

  /** Part way through: the entries in `done` are copied, the others are as they were. */
  ghost predicate HalfWritten(start: State, now: State, src: Path, dst: Path, put: PutMode, done: set<string>) {
    && Written(start, now, src, dst, put)
    && (forall j | j in done :: Alike(start, src + [j], now, dst + [j]))
    && forall j | j !in done :: SameUnder(start, now, dst + [j])
  }

  lemma WritingBegins(start: State, now: State, src: Path, dst: Path, put: PutMode)
    requires Fitting(start, src, dst) && Sound(now) && SameFiles(start, now)
    requires forall q :: Apart(dst, q) ==> Get(now.root, q) == Get(start.root, q)
    requires if Get(start.root, dst) == None then Get(now.root, dst) == Some(Dir(map[])) else now == start
    ensures HalfWritten(start, now, src, dst, put, {})
  {
    NothingWritten(start, now, src, dst, put);
    hide Written, Fitting, SameUnder, SameFiles;
    forall j ensures SameUnder(start, now, dst + [j]) {
      NotYetWritten(start, now, dst, j);
    }
  }

  lemma NothingWritten(start: State, now: State, src: Path, dst: Path, put: PutMode)
    requires Sound(now) && SameFiles(start, now)
    requires forall q :: Apart(dst, q) ==> Get(now.root, q) == Get(start.root, q)
    ensures Written(start, now, src, dst, put)
  {
    hide Get, Sound;
    forall q | IsFile(now.root, dst + q) ensures Get(now.root, dst + q) == Get(start.root, dst + q) {
      var i := Get(now.root, dst + q).value.ino;
      assert Get(start.root, dst + q) == Some(File(i));
    }
  }

  lemma NotYetWritten(start: State, now: State, dst: Path, j: string)
    requires SameFiles(start, now)
    requires if Get(start.root, dst) == None then Get(now.root, dst) == Some(Dir(map[])) else now == start
    ensures SameUnder(start, now, dst + [j])
  {
    GetUnder(start.root, dst, [j]);
    GetUnder(now.root, dst, [j]);
    forall q ensures ReadText(now, dst + [j] + q) == ReadText(start, dst + [j] + q) {
      GetUnder(start.root, dst + [j], q);
      GetUnder(now.root, dst + [j], q);
    }
  }

  lemma EntriesApart(src: Path, dst: Path, k: string, q: Path)
    requires Apart(src, dst)
    ensures Apart(dst + [k], src + q) && Apart(src + q, dst + [k])
  {
    if dst + [k] <= src + q {
      ShorterPrefix(dst, src, src + q);
    }
    if src + q <= dst + [k] {
      ShorterPrefix(src, dst, dst + [k]);
    }
  }

  lemma SiblingsApart(dst: Path, j: string, k: string, q: Path)
    requires j != k
    ensures Apart(dst + [k], dst + [j] + q)
  {
    assert (dst + [k])[|dst|] == k && (dst + [j] + q)[|dst|] == j;
  }

  /** What is read through the source has not changed. */
  lemma SourceReads(start: State, t: State, src: Path, dst: Path, put: PutMode, q: Path)
    requires Written(start, t, src, dst, put) && Apart(src, dst)
    ensures Get(t.root, src + q) == Get(start.root, src + q) && ReadText(t, src + q) == ReadText(start, src + q)
  {
    if dst <= src + q {
      ShorterPrefix(dst, src, src + q);
    }
    assert src + q <= dst ==> src <= dst;
  }

  /** The next entry fits. */
  lemma EntryFits(start: State, was: State, src: Path, dst: Path, put: PutMode, done: set<string>, k: string)
    requires Fitting(start, src, dst) && HalfWritten(start, was, src, dst, put, done) && k !in done
    ensures Fitting(was, src + [k], dst + [k])
    ensures Get(was.root, src + [k]) == Get(start.root, src + [k])
  {
    EntriesApart(src, dst, k, [k]);
    assert dst <= dst + [k];
    SourceReads(start, was, src, dst, put, [k]);
    WrittenSound(start, was, src, dst, put);
    hide Get, ReadText, Sound, Alike, Written, OneName, EmptyLink, IsDir, IsFile, SameUnder;
    forall q
      ensures IsDir(was.root, dst + [k] + q) ==> IsDir(was.root, src + [k] + q)
      ensures IsFile(was.root, dst + [k] + q) ==> IsFile(was.root, src + [k] + q)
      ensures IsFile(was.root, dst + [k] + q) ==>
                OneName(was, dst + [k] + q) || EmptyLink(was, src + [k] + q, dst + [k] + q)
    {
      assert src + ([k] + q) == src + [k] + q && dst + ([k] + q) == dst + [k] + q;
      SameBelow(start, was, dst + [k], q);
      FitsStill(start, was, src, dst, put, [k] + q);
    }
  }

  lemma FitsStill(start: State, was: State, src: Path, dst: Path, put: PutMode, q: Path)
    requires Fitting(start, src, dst) && Written(start, was, src, dst, put)
    requires Get(was.root, dst + q) == Get(start.root, dst + q) && ReadText(was, dst + q) == ReadText(start, dst + q)
    ensures IsDir(was.root, dst + q) ==> IsDir(was.root, src + q)
    ensures IsFile(was.root, dst + q) ==>
              IsFile(was.root, src + q) && (OneName(was, dst + q) || EmptyLink(was, src + q, dst + q))
  {
    SourceReads(start, was, src, dst, put, q);
    hide Get, ReadText, Sound, Written, OneName, EmptyLink;
    if IsFile(was.root, dst + q) {
      StillSpare(start, was, src, dst, put, q);
    }
  }

  lemma WrittenSound(s: State, t: State, src: Path, dst: Path, put: PutMode)
    requires Written(s, t, src, dst, put)
    ensures Sound(t)
  {
  }

  lemma SameBelow(s: State, t: State, p: Path, q: Path)
    requires SameUnder(s, t, p)
    ensures Get(t.root, p + q) == Get(s.root, p + q) && ReadText(t, p + q) == ReadText(s, p + q)
  {
    GetUnder(s.root, p, q);
    GetUnder(t.root, p, q);
  }

  /** A file left that has been left alone has come by no other name. */
  lemma StillSpare(start: State, was: State, src: Path, dst: Path, put: PutMode, q: Path)
    requires Fitting(start, src, dst) && Written(start, was, src, dst, put) && IsFile(start.root, dst + q)
    requires Get(was.root, dst + q) == Get(start.root, dst + q) && ReadText(was, dst + q) == ReadText(start, dst + q)
    requires Get(was.root, src + q) == Get(start.root, src + q)
    ensures OneName(was, dst + q) || EmptyLink(was, src + q, dst + q)
  {
    hide LeftFits, ReadText;
    assert dst <= dst + q;
    if OneName(start, dst + q) {
      forall r | Get(was.root, r) == Get(was.root, dst + q) ensures r == dst + q {
        NameBefore(start, was, src, dst, put, q, r);
      }
    }
  }

  lemma NameBefore(start: State, was: State, src: Path, dst: Path, put: PutMode, q: Path, r: Path)
    requires Sound(start) && Apart(src, dst) && Written(start, was, src, dst, put) && IsFile(start.root, dst + q)
    requires Get(was.root, dst + q) == Get(start.root, dst + q) == Get(was.root, r) && OneName(start, dst + q)
    ensures r == dst + q
  {
    hide ReadText, Sound;
    InoHeld(start, dst + q);
    if dst <= r {
      var q' := r[|dst|..];
      assert r == dst + q';
      NeverMeet(src, dst, q', q);
      assert PutThere(start, was, src, dst, put, q');
    } else if r <= dst {
      NothingUnder(was.root, r, dst + q);
    } else {
      assert Get(start.root, r) == Get(was.root, r);
    }
  }

  lemma NeverMeet(src: Path, dst: Path, q: Path, r: Path)
    requires Apart(src, dst)
    ensures src + q != dst + r
  {
    assert src <= src + q && dst <= dst + r;
    if src + q == dst + r {
      ShorterPrefix(src, dst, dst + r);
    }
  }

  lemma EntryWritten(start: State, was: State, now: State, src: Path, dst: Path, put: PutMode, done: set<string>,
                     k: string)
    requires Fitting(start, src, dst) && HalfWritten(start, was, src, dst, put, done) && k !in done
    requires IsDir(now.root, dst)
    requires Written(was, now, src + [k], dst + [k], put) && Alike(was, src + [k], now, dst + [k])
    ensures HalfWritten(start, now, src, dst, put, done + {k})
  {
    hide Alike, SameUnder, Written, ReadText, Get, Spare, Sound, LeftFits;
    WrittenBelow(start, was, now, src, dst, put, k);
    forall j | j in done + {k} ensures Alike(start, src + [j], now, dst + [j]) {
      EntryAlike(start, was, now, src, dst, put, j, k);
    }
    forall j | j !in done + {k} ensures SameUnder(start, now, dst + [j]) {
      SiblingSame(was, now, src, dst, put, j, k);
      SameUnderThen(start, was, now, dst + [j]);
    }
  }

  lemma SameUnderThen(s: State, t: State, u: State, p: Path)
    requires SameUnder(s, t, p) && SameUnder(t, u, p)
    ensures SameUnder(s, u, p)
  {
  }

  lemma SiblingSame(was: State, now: State, src: Path, dst: Path, put: PutMode, j: string, k: string)
    requires Written(was, now, src + [k], dst + [k], put) && j != k
    ensures SameUnder(was, now, dst + [j])
  {
    forall q ensures ReadText(now, dst + [j] + q) == ReadText(was, dst + [j] + q) {
      SiblingsApart(dst, j, k, q);
    }
    SiblingsApart(dst, j, k, []);
    assert dst + [j] + [] == dst + [j];
  }

  lemma EntryAlike(start: State, was: State, now: State, src: Path, dst: Path, put: PutMode, j: string, k: string)
    requires Apart(src, dst) && Written(start, was, src, dst, put) && Written(was, now, src + [k], dst + [k], put)
    requires if j == k then Alike(was, src + [k], now, dst + [k]) else Alike(start, src + [j], was, dst + [j])
    ensures Alike(start, src + [j], now, dst + [j])
  {
    if j != k {
      SiblingSame(was, now, src, dst, put, j, k);
    }
    hide Written;
    forall q
      ensures IsDir(start.root, src + [j] + q) <==> IsDir(now.root, dst + [j] + q)
      ensures ReadText(start, src + [j] + q) == ReadText(now, dst + [j] + q)
    {
      assert src + ([j] + q) == src + [j] + q;
      SourceReads(start, was, src, dst, put, [j] + q);
      GetUnder(was.root, dst + [j], q);
      GetUnder(now.root, dst + [j], q);
    }
  }

  lemma WrittenBelow(start: State, was: State, now: State, src: Path, dst: Path, put: PutMode, k: string)
    requires Apart(src, dst) && Written(start, was, src, dst, put) && IsDir(now.root, dst)
    requires Written(was, now, src + [k], dst + [k], put)
    ensures Written(start, now, src, dst, put)
  {
    forall q | Apart(dst, q)
      ensures Get(now.root, q) == Get(start.root, q) && ReadText(now, q) == ReadText(start, q)
    {
      assert dst + [k] <= q ==> dst <= q;
      if q <= dst + [k] {
        ShorterPrefix(q, dst, dst + [k]);
      }
    }
    forall q | IsFile(now.root, dst + q) ensures PutThere(start, now, src, dst, put, q) {
      PutBelow(start, was, now, src, dst, put, k, q);
    }
  }

  lemma PutBelow(start: State, was: State, now: State, src: Path, dst: Path, put: PutMode, k: string, q: Path)
    requires Apart(src, dst) && Written(start, was, src, dst, put) && IsDir(now.root, dst)
    requires Written(was, now, src + [k], dst + [k], put) && IsFile(now.root, dst + q)
    ensures PutThere(start, now, src, dst, put, q)
  {
    NotOnTheWay(now.root, dst, k, dst + q);
    if dst + [k] <= dst + q {
      var r := StepIn(src, dst, k, q);
      SourceReads(start, was, src, dst, put, q);
      assert PutThere(was, now, src + [k], dst + [k], put, r);
      hide Written, ReadText, MayLink;
      if Get(now.root, dst + q) == Get(was.root, dst + q) {
        PutThen(start, was, src, dst, put, q);
      } else {
        NextGrows(start, was, src, dst, put);
      }
    } else {
      assert PutThere(start, was, src, dst, put, q);
    }
  }

  lemma StepIn(src: Path, dst: Path, k: string, q: Path) returns (r: Path)
    requires dst + [k] <= dst + q
    ensures q == [k] + r && dst + q == dst + [k] + r && src + q == src + [k] + r
  {
    assert (dst + q)[|dst|..] == q && (dst + [k])[|dst|] == (dst + q)[|dst|] == q[0];
    r := q[1..];
  }

  lemma PutThen(s: State, t: State, src: Path, dst: Path, put: PutMode, q: Path)
    requires Written(s, t, src, dst, put) && IsFile(t.root, dst + q)
    ensures PutThere(s, t, src, dst, put, q)
  {
  }

  lemma NextGrows(s: State, t: State, src: Path, dst: Path, put: PutMode)
    requires Written(s, t, src, dst, put)
    ensures s.next <= t.next
  {
  }

  lemma NotOnTheWay(root: Node, dst: Path, k: string, q: Path)
    requires IsDir(root, dst) && IsFile(root, q)
    ensures dst + [k] <= q || Apart(dst + [k], q)
  {
    if q < dst + [k] {
      assert q == (dst + [k])[..|q|] == dst[..|q|];
      if q < dst {
        NothingUnder(root, q, dst);
      }
    }
  }

  lemma AllWritten(start: State, now: State, src: Path, dst: Path, put: PutMode, n: Node)
    requires Fitting(start, src, dst) && Get(start.root, src) == Some(n) && n.Dir? && IsDir(now.root, dst)
    requires HalfWritten(start, now, src, dst, put, n.kids.Keys)
    ensures Alike(start, src, now, dst)
  {
    hide SameUnder, Written, LeftFits, Spare, Sound, Get;
    forall q
      ensures IsDir(start.root, src + q) <==> IsDir(now.root, dst + q)
      ensures ReadText(start, src + q) == ReadText(now, dst + q)
    {
      if q == [] {
        assert src + q == src && dst + q == dst;
      } else {
        EntryAtEnd(start, now, src, dst, put, n, q[0], q[1..]);
        assert src + q == src + [q[0]] + q[1..] && dst + q == dst + [q[0]] + q[1..];
      }
    }
  }

  lemma EntryAtEnd(start: State, now: State, src: Path, dst: Path, put: PutMode, n: Node, j: string, r: Path)
    requires Fitting(start, src, dst) && Get(start.root, src) == Some(n) && n.Dir?
    requires HalfWritten(start, now, src, dst, put, n.kids.Keys)
    ensures IsDir(start.root, src + [j] + r) <==> IsDir(now.root, dst + [j] + r)
    ensures ReadText(start, src + [j] + r) == ReadText(now, dst + [j] + r)
  {
    if j in n.kids {
      AlikeAt(start, src + [j], now, dst + [j], r);
    } else {
      EntryGone(start, now, src, dst, n, j, r);
    }
    hide *;
  }

  lemma AlikeAt(s: State, src: Path, t: State, dst: Path, q: Path)
    requires Alike(s, src, t, dst)
    ensures (IsDir(s.root, src + q) <==> IsDir(t.root, dst + q)) && ReadText(s, src + q) == ReadText(t, dst + q)
  {
  }

  lemma EntryGone(start: State, now: State, src: Path, dst: Path, n: Node, j: string, r: Path)
    requires LeftFits(start, src, dst) && Get(start.root, src) == Some(n) && n.Dir? && j !in n.kids
    requires SameUnder(start, now, dst + [j])
    ensures Get(start.root, src + [j] + r) == None && Get(now.root, dst + [j] + r) == None
  {
    GetUnder(start.root, src, [j]);
    GetUnder(start.root, src + [j], r);
    GetUnder(now.root, dst + [j], r);
    assert !IsDir(start.root, src + [j]) && !IsFile(start.root, src + [j]);
  }

  // ---- Moved in ----

  /** A tree moved is what it was. */
  lemma AlikeMoved(s: State, src: Path, was: State, now: State, partial: Path, dest: Path)
    requires Alike(s, src, was, partial) && Sound(was)
    requires CanRename(was.root, partial, dest) && now == Renamed(was, partial, dest)
    ensures Alike(s, src, now, dest)
  {
    RenameMoves(was, partial, dest);
    forall q
      ensures IsDir(s.root, src + q) <==> IsDir(now.root, dest + q)
      ensures ReadText(s, src + q) == ReadText(now, dest + q)
    {
      GetUnder(was.root, partial, q);
      GetUnder(now.root, dest, q);
    }
  }

  /** Every name that was left under `partial` is under `dest`, and leads to the file it led to, or
      to a directory. */
  ghost predicate LeftIsIn(s: State, t: State, partial: Path, dest: Path) {
    forall q :: Get(s.root, partial + q).Some? ==>
      (IsDir(s.root, partial + q) && IsDir(t.root, dest + q)) || Get(t.root, dest + q) == Get(s.root, partial + q)
  }

  /** A name left that the source does not have, or has as the other kind, is in what is moved in, for
      every source: it is not like the source. */
  lemma MisfitStays(s: State, t: State, src: Path, partial: Path, dest: Path)
    requires Sound(s) && Sound(t) && LeftIsIn(s, t, partial, dest) && !LeftFits(s, src, partial)
    ensures !Alike(s, src, t, dest)
  {
    var q :| !((IsDir(s.root, partial + q) ==> IsDir(s.root, src + q)) && (IsFile(s.root, partial + q) ==>
              IsFile(s.root, src + q)));
    if IsFile(s.root, partial + q) {
      InoHeld(t, dest + q);
    }
  }

  // ---- Whatever is left ----

  /** A name left under `dst`, which the source has as a file, leads to the file `i`. */
  ghost predicate LeadsOver(s: State, src: Path, dst: Path, q: Path, i: nat) {
    IsFile(s.root, src + q) && Get(s.root, dst + q) == Some(File(i))
  }

  /** `t` is `s` with `src` copied, all or part of it, over what was left at `dst`: no name apart from
      `dst` has changed, and no file but those that names left there lead to. */
  ghost predicate WrittenOver(s: State, t: State, src: Path, dst: Path) {
    && Sound(t) && s.data.Keys <= t.data.Keys && s.next <= t.next
    && (forall q :: Apart(dst, q) ==> Get(t.root, q) == Get(s.root, q))
    && forall i | i in s.data && t.data[i] != s.data[i] :: exists q :: LeadsOver(s, src, dst, q, i)
  }

  ghost predicate AllOver(before: seq<State>, after: seq<State>, s: State, src: Path, dst: Path) {
    before <= after && forall i :: |before| <= i < |after| ==> WrittenOver(s, after[i], src, dst)
  }

  /** No name is a directory on one side and a file on the other. */
  ghost predicate Matches(s: State, src: Path, dst: Path) {
    forall q :: !(IsDir(s.root, src + q) && IsFile(s.root, dst + q))
        && !(IsFile(s.root, src + q) && IsDir(s.root, dst + q))
  }

  /** No two names left lead to one file. */
  ghost predicate LeftDistinct(s: State, dst: Path) {
    forall q, r :: IsFile(s.root, dst + q) && Get(s.root, dst + q) == Get(s.root, dst + r) ==> q == r
  }

  /** The files in `keep` hold what they held. */
  ghost predicate SameData(s: State, t: State, keep: set<nat>) {
    forall i | i in keep && i in s.data :: i in t.data && t.data[i] == s.data[i]
  }

  /** A file of `keep` that is copied over is given the text it has. Copied over itself, a file is
      given none. */
  ghost predicate KeepsAt(s: State, from: Path, to: Path, keep: set<nat>) {
    IsFile(s.root, from) && IsFile(s.root, to) && Get(s.root, to).value.ino in keep ==>
      ReadText(s, to) == if Get(s.root, from) == Get(s.root, to) then Some("") else ReadText(s, from)
  }

  ghost predicate Keeps(s: State, src: Path, dst: Path, keep: set<nat>) {
    forall q :: KeepsAt(s, src + q, dst + q, keep)
  }

  /** Every name left that leads to the very file it is a copy of leads to an empty one. */
  ghost predicate Emptied(s: State, t: State, src: Path, dst: Path) {
    forall q :: IsFile(s.root, src + q) && Get(s.root, src + q) == Get(s.root, dst + q) ==>
              ReadText(t, src + q) == Some("")
  }

  /** Every file left is the very file it is to be a copy of. */
  ghost predicate SelfLinks(s: State, src: Path, dst: Path) {
    forall q :: IsFile(s.root, dst + q) ==> Get(s.root, src + q) == Get(s.root, dst + q)
  }

  /** No file holds another text, but it may hold none. */
  ghost predicate Blanked(s: State, t: State) {
    forall i | i in s.data :: i in t.data && (t.data[i] == s.data[i] || t.data[i] == "")
  }

  /** Every file that may be linked is, but for those something was left in the place of. */
  ghost predicate LinksMade(s: State, t: State, src: Path, dst: Path, put: PutMode) {
    forall q :: IsFile(s.root, src + q) && MayLink(put, src + q) && Get(s.root, dst + q) == None ==>
      Get(t.root, dst + q) == Get(s.root, src + q)
  }

  lemma LinksGoOn(start: State, was: State, now: State, src: Path, dst: Path, put: PutMode, done: set<string>,
                  k: string)
    requires Apart(src, dst) && HalfOver(start, was, src, dst, done) && k !in done
    requires WrittenOver(was, now, src + [k], dst + [k])
    requires forall j | j in done :: LinksMade(start, was, src + [j], dst + [j], put)
    requires LinksMade(was, now, src + [k], dst + [k], put)
    ensures forall j | j in done + {k} :: LinksMade(start, now, src + [j], dst + [j], put)
  {
    hide HalfOver, WrittenOver;
    forall j | j in done + {k} ensures LinksMade(start, now, src + [j], dst + [j], put) {
      if j == k {
        EntryLinks(start, was, now, src, dst, put, done, k);
      } else {
        StillLinks(start, was, now, src, dst, put, j, k);
      }
    }
  }

  lemma EntryLinks(start: State, was: State, now: State, src: Path, dst: Path, put: PutMode, done: set<string>,
                   k: string)
    requires Apart(src, dst) && HalfOver(start, was, src, dst, done) && k !in done
    requires LinksMade(was, now, src + [k], dst + [k], put)
    ensures LinksMade(start, now, src + [k], dst + [k], put)
  {
    hide HalfOver, Get, MayLink;
    forall q | IsFile(start.root, src + [k] + q) && MayLink(put, src + [k] + q)
        && Get(start.root, dst + [k] + q) == None
      ensures Get(now.root, dst + [k] + q) == Get(start.root, src + [k] + q)
    {
      EntryAsLeft(start, was, src, dst, done, k, q);
    }
  }

  lemma StillLinks(start: State, was: State, now: State, src: Path, dst: Path, put: PutMode, j: string, k: string)
    requires j != k && WrittenOver(was, now, src + [k], dst + [k]) && LinksMade(start, was, src + [j], dst + [j], put)
    ensures LinksMade(start, now, src + [j], dst + [j], put)
  {
    hide Get, MayLink;
    forall q | IsFile(start.root, src + [j] + q) && MayLink(put, src + [j] + q)
        && Get(start.root, dst + [j] + q) == None
      ensures Get(now.root, dst + [j] + q) == Get(start.root, src + [j] + q)
    {
      SiblingsApart(dst, j, k, q);
    }
  }

  lemma EntriesLink(s: State, t: State, src: Path, dst: Path, put: PutMode, n: Node)
    requires Get(s.root, src) == Some(n) && n.Dir?
    requires forall j | j in n.kids :: LinksMade(s, t, src + [j], dst + [j], put)
    ensures LinksMade(s, t, src, dst, put)
  {
    hide MayLink;
    forall q | IsFile(s.root, src + q) && MayLink(put, src + q) && Get(s.root, dst + q) == None
      ensures Get(t.root, dst + q) == Get(s.root, src + q)
    {
      GetUnder(s.root, src, q);
      assert q != [] && q[0] in n.kids && LinksMade(s, t, src + [q[0]], dst + [q[0]], put);
      assert src + q == src + [q[0]] + q[1..] && dst + q == dst + [q[0]] + q[1..];
    }
  }

  lemma FileLinks(s: State, t: State, from: Path, to: Path, put: PutMode)
    requires IsFile(s.root, from)
    requires MayLink(put, from) && Get(s.root, to) == None ==> Get(t.root, to) == Get(s.root, from)
    ensures LinksMade(s, t, from, to, put)
  {
    assert from + [] == from && to + [] == to;
    forall q | IsFile(s.root, from + q) ensures q == [] {
      if q != [] {
        NothingUnder(s.root, from, from + q);
      }
    }
    hide Get, MayLink;
  }

  ghost predicate SelfBlanks(s: State, t: State, src: Path, dst: Path) {
    SelfLinks(s, src, dst) ==> Blanked(s, t) && Emptied(s, t, src, dst)
  }

  ghost predicate HalfSelfBlanks(start: State, now: State, src: Path, dst: Path, done: set<string>) {
    SelfLinks(start, src, dst) ==>
      Blanked(start, now) && forall j | j in done :: Emptied(start, now, src + [j], dst + [j])
  }

  lemma SelfBlanksGoOn(start: State, was: State, now: State, src: Path, dst: Path, done: set<string>, k: string)
    requires Apart(src, dst) && HalfOver(start, was, src, dst, done) && k !in done
    requires WrittenOver(was, now, src + [k], dst + [k])
    requires HalfSelfBlanks(start, was, src, dst, done) && SelfBlanks(was, now, src + [k], dst + [k])
    ensures HalfSelfBlanks(start, now, src, dst, done + {k})
  {
    hide HalfOver, WrittenOver, Emptied, Blanked, SelfLinks;
    if SelfLinks(start, src, dst) {
      EntrySelfLinks(start, was, src, dst, done, k);
      BlankedThen(start, was, now);
      EntryEmptied(start, was, now, src, dst, done, k);
      forall j | j in done ensures Emptied(start, now, src + [j], dst + [j]) {
        StillBlank(start, was, now, src, dst, j, k);
      }
    }
  }

  lemma EntrySelfLinks(start: State, was: State, src: Path, dst: Path, done: set<string>, k: string)
    requires Apart(src, dst) && HalfOver(start, was, src, dst, done) && k !in done && SelfLinks(start, src, dst)
    ensures SelfLinks(was, src + [k], dst + [k])
  {
    hide Get, HalfOver;
    forall q | IsFile(was.root, dst + [k] + q) ensures Get(was.root, src + [k] + q) == Get(was.root, dst + [k] + q) {
      EntryAsLeft(start, was, src, dst, done, k, q);
      assert src + [k] + q == src + ([k] + q) && dst + [k] + q == dst + ([k] + q);
    }
  }

  lemma BlankedThen(s: State, t: State, u: State)
    requires Blanked(s, t) && Blanked(t, u)
    ensures Blanked(s, u)
  {
  }

  lemma StillBlank(start: State, was: State, now: State, src: Path, dst: Path, j: string, k: string)
    requires Apart(src, dst) && WrittenOver(was, now, src + [k], dst + [k]) && Blanked(was, now)
    requires Emptied(start, was, src + [j], dst + [j])
    ensures Emptied(start, now, src + [j], dst + [j])
  {
    hide Get;
    forall q | IsFile(start.root, src + [j] + q) && Get(start.root, src + [j] + q) == Get(start.root, dst + [j] + q)
      ensures ReadText(now, src + [j] + q) == Some("")
    {
      EntriesApart(src, dst, k, [j] + q);
      assert src + [j] + q == src + ([j] + q);
      assert Get(now.root, src + [j] + q) == Get(was.root, src + [j] + q);
    }
  }

  lemma ElsewhereOver(s: State, t: State, src: Path, dst: Path)
    requires Elsewhere(s, t, {dst})
    ensures WrittenOver(s, t, src, dst) && s.data.Keys <= t.data.Keys && forall keep :: SameData(s, t, keep)
  {
    NotUnderOne(dst);
  }

  /** One file copied over what is left of an earlier copy of it. */
  lemma FileOver(s: State, t: State, from: Path, to: Path, text: string)
    requires Sound(s) && IsFile(s.root, from) && IsFile(s.root, to) && t == Overwritten(s, to, text)
    ensures WrittenOver(s, t, from, to)
    ensures forall keep :: SameData(s, t, keep) <==>
              (Get(s.root, to).value.ino in keep ==> ReadText(s, to) == Some(text))
  {
    InoHeld(s, to);
    assert from + [] == from && to + [] == to;
    assert LeadsOver(s, from, to, [], Get(s.root, to).value.ino);
  }

  lemma FileKeeps(s: State, from: Path, to: Path, keep: set<nat>)
    requires IsFile(s.root, from)
    ensures Keeps(s, from, to, keep) <==> KeepsAt(s, from, to, keep)
  {
    assert from + [] == from && to + [] == to;
    forall q ensures KeepsAt(s, from, to, keep) ==> KeepsAt(s, from + q, to + q, keep) {
      if q != [] {
        NothingUnder(s.root, from, from + q);
      }
    }
  }

  // ---- Part way through whatever is left ----

  /** The entries in `done` are copied; the others are as they were left. */
  ghost predicate HalfOver(start: State, now: State, src: Path, dst: Path, done: set<string>) {
    && Sound(now) && start.data.Keys <= now.data.Keys && start.next <= now.next
    && (forall q :: Apart(dst, q) ==> Get(now.root, q) == Get(start.root, q))
    && (forall j | j !in done :: Get(now.root, dst + [j]) == Get(start.root, dst + [j]))
    && forall i | i in start.data && now.data[i] != start.data[i] :: exists q :: OverDone(start, src, dst, done, q, i)
  }

  ghost predicate OverDone(start: State, src: Path, dst: Path, done: set<string>, q: Path, i: nat) {
    LeadsOver(start, src, dst, q, i) && q != [] && q[0] in done
  }

  lemma HalfOverBegun(start: State, now: State, src: Path, dst: Path)
    requires Elsewhere(start, now, {dst}) && SameFiles(start, now)
    requires if Get(start.root, dst) == None then Get(now.root, dst) == Some(Dir(map[])) else now == start
    ensures HalfOver(start, now, src, dst, {})
  {
    NotUnderOne(dst);
    forall j ensures Get(now.root, dst + [j]) == Get(start.root, dst + [j]) {
      GetUnder(start.root, dst, [j]);
      GetUnder(now.root, dst, [j]);
    }
  }

  lemma HalfOverIsOver(start: State, now: State, src: Path, dst: Path, done: set<string>)
    requires HalfOver(start, now, src, dst, done)
    ensures WrittenOver(start, now, src, dst)
  {
    hide Get, LeadsOver;
    forall i | i in start.data && now.data[i] != start.data[i] ensures exists q :: LeadsOver(start, src, dst, q, i) {
      var q :| OverDone(start, src, dst, done, q, i);
      assert LeadsOver(start, src, dst, q, i);
    }
  }

  /** What is found under an entry not yet copied, and in the source. */
  lemma EntryAsLeft(start: State, was: State, src: Path, dst: Path, done: set<string>, k: string, q: Path)
    requires Apart(src, dst) && HalfOver(start, was, src, dst, done) && k !in done
    ensures Get(was.root, dst + [k] + q) == Get(start.root, dst + [k] + q)
    ensures Get(was.root, src + [k] + q) == Get(start.root, src + [k] + q)
  {
    GetUnder(was.root, dst + [k], q);
    GetUnder(start.root, dst + [k], q);
    assert src + [k] + q == src + ([k] + q) && src + [] == src && dst + [] == dst;
    ApartUnder(dst, src, [k] + q);
  }

  lemma ApartUnder(p: Path, q: Path, r: Path)
    requires Apart(q, p)
    ensures Apart(p, q + r)
  {
    if p <= q + r {
      ShorterPrefix(p, q, q + r);
    }
    assert q + r <= p ==> q <= p;
  }

  /** A copy of the next entry, finished or not. */
  lemma HalfOverThen(start: State, was: State, t: State, src: Path, dst: Path, done: set<string>, k: string)
    requires Apart(src, dst) && HalfOver(start, was, src, dst, done) && k !in done
    requires WrittenOver(was, t, src + [k], dst + [k])
    ensures HalfOver(start, t, src, dst, done + {k})
  {
    hide Get, Sound;
    forall q | Apart(dst, q) ensures Get(t.root, q) == Get(start.root, q) {
      assert dst + [k] <= q ==> dst <= q;
      if q <= dst + [k] {
        ShorterPrefix(q, dst, dst + [k]);
      }
    }
    forall j | j !in done + {k} ensures Get(t.root, dst + [j]) == Get(start.root, dst + [j]) {
      SiblingsApart(dst, j, k, []);
      assert dst + [j] + [] == dst + [j];
    }
    forall i | i in start.data && t.data[i] != start.data[i] ensures exists q :: OverDone(start, src, dst,
              done + {k}, q, i) {
      if was.data[i] != start.data[i] {
        var q :| OverDone(start, src, dst, done, q, i);
        assert OverDone(start, src, dst, done + {k}, q, i);
      } else {
        var q :| LeadsOver(was, src + [k], dst + [k], q, i);
        EntryAsLeft(start, was, src, dst, done, k, q);
        assert src + [k] + q == src + ([k] + q) && dst + [k] + q == dst + ([k] + q);
        assert OverDone(start, src, dst, done + {k}, [k] + q, i);
      }
    }
  }

  /** Every entry that was not copied before can be, if it could be to begin with. */
  lemma EntryMatches(start: State, was: State, src: Path, dst: Path, done: set<string>, k: string)
    requires Apart(src, dst) && HalfOver(start, was, src, dst, done) && k !in done && Matches(start, src, dst)
    ensures Matches(was, src + [k], dst + [k])
  {
    hide Get;
    forall q
      ensures !(IsDir(was.root, src + [k] + q) && IsFile(was.root, dst + [k] + q))
      ensures !(IsFile(was.root, src + [k] + q) && IsDir(was.root, dst + [k] + q))
    {
      EntryAsLeft(start, was, src, dst, done, k, q);
      assert src + [k] + q == src + ([k] + q) && dst + [k] + q == dst + ([k] + q);
    }
  }

  lemma EntryDistinct(start: State, was: State, src: Path, dst: Path, done: set<string>, k: string)
    requires Apart(src, dst) && HalfOver(start, was, src, dst, done) && k !in done && LeftDistinct(start, dst)
    ensures LeftDistinct(was, dst + [k])
  {
    hide Get;
    forall q, r | IsFile(was.root, dst + [k] + q) && Get(was.root, dst + [k] + q) == Get(was.root,
              dst + [k] + r) ensures q == r {
      EntryAsLeft(start, was, src, dst, done, k, q);
      EntryAsLeft(start, was, src, dst, done, k, r);
      assert dst + [k] + q == dst + ([k] + q) && dst + [k] + r == dst + ([k] + r);
      assert [k] + q == [k] + r;
      assert ([k] + q)[1..] == q && ([k] + r)[1..] == r;
    }
  }

  /** While the files of `keep` hold what they held, an entry gives them what it would have. */
  lemma EntryKeeps(start: State, was: State, src: Path, dst: Path, done: set<string>, k: string, keep: set<nat>)
    requires Apart(src, dst) && Sound(start) && HalfOver(start, was, src, dst, done) && k !in done
    requires SameData(start, was, keep)
    requires Get(start.root, src).Some? && Inos(Get(start.root, src).value) <= keep
    ensures Keeps(was, src + [k], dst + [k], keep) <==> Keeps(start, src + [k], dst + [k], keep)
  {
    hide KeepsAt, Get, HalfOver, SameData, Inos, Sound;
    forall q ensures KeepsAt(was, src + [k] + q, dst + [k] + q, keep) <==>
              KeepsAt(start, src + [k] + q, dst + [k] + q, keep) {
      EntryAsLeft(start, was, src, dst, done, k, q);
      assert src + [k] + q == src + ([k] + q);
      SourceKeeps(start, was, src, [k] + q, keep);
      SameRead(start, was, dst + [k] + q, keep);
      SameKeepsAt(start, was, src + [k] + q, dst + [k] + q, keep);
    }
  }

  lemma SameKeepsAt(s: State, t: State, from: Path, to: Path, keep: set<nat>)
    requires Get(t.root, from) == Get(s.root, from) && Get(t.root, to) == Get(s.root, to)
    requires ReadText(t, from) == ReadText(s, from)
    requires IsFile(s.root, to) && Get(s.root, to).value.ino in keep ==> ReadText(t, to) == ReadText(s, to)
    ensures KeepsAt(t, from, to, keep) <==> KeepsAt(s, from, to, keep)
  {
    hide Get, ReadText;
  }

  lemma SameRead(start: State, was: State, p: Path, keep: set<nat>)
    requires Sound(start) && SameData(start, was, keep) && Get(was.root, p) == Get(start.root, p)
    ensures IsFile(start.root, p) && Get(start.root, p).value.ino in keep ==> ReadText(was, p) == ReadText(start, p)
  {
    if IsFile(start.root, p) {
      InoHeld(start, p);
    }
  }

  lemma SourceKeeps(start: State, was: State, src: Path, q: Path, keep: set<nat>)
    requires Sound(start) && SameData(start, was, keep) && Get(was.root, src + q) == Get(start.root, src + q)
    requires Get(start.root, src).Some? && Inos(Get(start.root, src).value) <= keep
    ensures ReadText(was, src + q) == ReadText(start, src + q)
  {
    GetUnder(start.root, src, q);
    if IsFile(start.root, src + q) {
      InosOfGet(Get(start.root, src).value, q);
      SameRead(start, was, src + q, keep);
    }
  }

  lemma SameDataThen(s: State, t: State, u: State, keep: set<nat>)
    requires SameData(s, t, keep) && SameData(t, u, keep) && s.data.Keys <= t.data.Keys
    ensures SameData(s, u, keep)
  {
  }

  /** When no two names left lead to one file, what has been written over is not written over again. */
  lemma WrittenOnce(start: State, was: State, now: State, src: Path, dst: Path, done: set<string>, k: string, i: nat)
    requires Apart(src, dst) && LeftDistinct(start, dst) && HalfOver(start, was, src, dst, done) && k !in done
    requires WrittenOver(was, now, src + [k], dst + [k]) && i in start.data
    requires exists q :: q != [] && q[0] in done && Get(start.root, dst + q) == Some(File(i))
    ensures now.data[i] == was.data[i]
  {
    hide Get;
    var q :| q != [] && q[0] in done && Get(start.root, dst + q) == Some(File(i));
    forall r ensures !LeadsOver(was, src + [k], dst + [k], r, i) {
      EntryAsLeft(start, was, src, dst, done, k, r);
      assert dst + [k] + r == dst + ([k] + r);
      assert q != [k] + r;
    }
  }

  /** So what is the same after a further entry was the same before it. */
  lemma SameBefore(start: State, was: State, now: State, src: Path, dst: Path, done: set<string>, k: string,
                   keep: set<nat>)
    requires Apart(src, dst) && LeftDistinct(start, dst) && HalfOver(start, was, src, dst, done) && k !in done
    requires WrittenOver(was, now, src + [k], dst + [k]) && SameData(start, now, keep)
    ensures SameData(start, was, keep) && (keep <= start.data.Keys ==> SameData(was, now, keep))
  {
    hide Get, LeadsOver;
    forall i | i in keep && i in start.data ensures was.data[i] == start.data[i] {
      if was.data[i] != start.data[i] {
        var q :| OverDone(start, src, dst, done, q, i);
        LeadsTo(start, src, dst, q, i);
        WrittenOnce(start, was, now, src, dst, done, k, i);
      }
    }
  }

  lemma LeadsTo(s: State, src: Path, dst: Path, q: Path, i: nat)
    requires LeadsOver(s, src, dst, q, i)
    ensures Get(s.root, dst + q) == Some(File(i))
  {
  }

  lemma StillEmptied(start: State, was: State, now: State, src: Path, dst: Path, done: set<string>, j: string,
                     k: string)
    requires Apart(src, dst) && Sound(start) && LeftDistinct(start, dst) && HalfOver(start, was, src, dst, done)
    requires k !in done && j in done
    requires WrittenOver(was, now, src + [k], dst + [k]) && Emptied(start, was, src + [j], dst + [j])
    ensures Emptied(start, now, src + [j], dst + [j])
  {
    HalfOverThen(start, was, now, src, dst, done, k);
    hide Get, HalfOver, WrittenOver, LeftDistinct, ReadText;
    forall q | IsFile(start.root, src + [j] + q) && Get(start.root, src + [j] + q) == Get(start.root, dst + [j] + q)
      ensures ReadText(now, src + [j] + q) == Some("")
    {
      assert src + [j] + q == src + ([j] + q) && dst + [j] + q == dst + ([j] + q);
      StillEmptiedAt(start, was, now, src, dst, done, [j] + q, k);
    }
  }

  lemma StillEmptiedAt(start: State, was: State, now: State, src: Path, dst: Path, done: set<string>, q: Path,
                       k: string)
    requires Apart(src, dst) && Sound(start) && LeftDistinct(start, dst) && HalfOver(start, was, src, dst, done)
    requires k !in done && q != [] && q[0] in done && WrittenOver(was, now, src + [k], dst + [k])
    requires HalfOver(start, now, src, dst, done + {k})
    requires IsFile(start.root, src + q) && Get(start.root, src + q) == Get(start.root, dst + q)
    requires ReadText(was, src + q) == Some("")
    ensures ReadText(now, src + q) == Some("")
  {
    InoHeld(start, src + q);
    ApartUnder(dst, src, q);
    WrittenOnce(start, was, now, src, dst, done, k, Get(start.root, src + q).value.ino);
  }

  lemma EntryEmptied(start: State, was: State, now: State, src: Path, dst: Path, done: set<string>, k: string)
    requires Apart(src, dst) && HalfOver(start, was, src, dst, done) && k !in done
    requires Emptied(was, now, src + [k], dst + [k])
    ensures Emptied(start, now, src + [k], dst + [k])
  {
    hide Get;
    forall q | IsFile(start.root, src + [k] + q) && Get(start.root, src + [k] + q) == Get(start.root, dst + [k] + q)
      ensures ReadText(now, src + [k] + q) == Some("")
    {
      EntryAsLeft(start, was, src, dst, done, k, q);
    }
  }

  /** A directory is copied when each of its entries is. */
  lemma EntriesKeep(s: State, src: Path, dst: Path, n: Node, keep: set<nat>)
    requires Get(s.root, src) == Some(n) && n.Dir?
    ensures Keeps(s, src, dst, keep) <==> forall j | j in n.kids :: Keeps(s, src + [j], dst + [j], keep)
  {
    hide KeepsAt, Get;
    if Keeps(s, src, dst, keep) {
      forall j, q ensures KeepsAt(s, src + [j] + q, dst + [j] + q, keep) {
        assert src + [j] + q == src + ([j] + q) && dst + [j] + q == dst + ([j] + q);
      }
    }
    if forall j | j in n.kids :: Keeps(s, src + [j], dst + [j], keep) {
      forall q ensures KeepsAt(s, src + q, dst + q, keep) {
        KeepsBelow(s, src, dst, n, keep, q);
      }
    }
  }

  lemma KeepsBelow(s: State, src: Path, dst: Path, n: Node, keep: set<nat>, q: Path)
    requires Get(s.root, src) == Some(n) && n.Dir? && forall j | j in n.kids :: Keeps(s, src + [j], dst + [j], keep)
    ensures KeepsAt(s, src + q, dst + q, keep)
  {
    GetUnder(s.root, src, q);
    if q != [] && q[0] in n.kids {
      hide KeepsAt, Get;
      assert Keeps(s, src + [q[0]], dst + [q[0]], keep);
      assert src + q == src + [q[0]] + q[1..] && dst + q == dst + [q[0]] + q[1..];
    }
  }

  lemma EntriesEmptied(s: State, t: State, src: Path, dst: Path, n: Node)
    requires Get(s.root, src) == Some(n) && n.Dir? && forall j | j in n.kids :: Emptied(s, t, src + [j], dst + [j])
    ensures Emptied(s, t, src, dst)
  {
    forall q | IsFile(s.root, src + q) && Get(s.root, src + q) == Get(s.root, dst + q) ensures ReadText(t,
              src + q) == Some("") {
      GetUnder(s.root, src, q);
      assert q != [] && q[0] in n.kids && Emptied(s, t, src + [q[0]], dst + [q[0]]);
      assert src + q == src + [q[0]] + q[1..] && dst + q == dst + [q[0]] + q[1..];
    }
  }

  // ---- What a source still reads as ----

  ghost predicate TextsKept(s: State, t: State, src: Path) {
    forall q :: ReadText(t, src + q) == ReadText(s, src + q)
  }

  ghost predicate AllTextsKept(before: seq<State>, after: seq<State>, s: State, src: Path) {
    before <= after && forall i :: |before| <= i < |after| ==> TextsKept(s, after[i], src)
  }

  /** A name left, which the source has as a file, leads to a file of the source's. */
  ghost predicate Shared(s: State, src: Path, dst: Path) {
    exists q, r :: IsFile(s.root, src + q) && IsFile(s.root, dst + q) && Get(s.root, src + r) == Get(s.root, dst + q)
  }

  /** A file of the source's that is copied over is given the text it has. */
  ghost predicate SparesSource(s: State, src: Path, dst: Path) {
    Get(s.root, src).Some? ==> Keeps(s, src, dst, Inos(Get(s.root, src).value))
  }

  /** Where no file is shared, whatever is written over, the source reads as it did. */
  lemma NotSharedKept(s: State, t: State, src: Path, dst: Path)
    requires Sound(s) && Apart(src, dst) && Get(s.root, src).Some? && WrittenOver(s, t, src, dst)
    requires !Shared(s, src, dst)
    ensures TextsKept(s, t, src)
  {
    var n := Get(s.root, src).value;
    assert src + [] == src;
    ApartUnder(dst, src, []);
    forall i | i in Inos(n) && i in s.data ensures i in t.data && t.data[i] == s.data[i] {
      var r := InoHasPath(n, i);
      GetUnder(s.root, src, r);
      forall q ensures !LeadsOver(s, src, dst, q, i) {
      }
    }
    TextsAreData(s, t, src);
  }

  lemma {:induction false} InoHasPath(n: Node, i: nat) returns (q: Path)
    requires i in Inos(n)
    ensures Get(n, q) == Some(File(i))
    decreases n
  {
    if n.File? {
      q := [];
    } else {
      var k :| k in n.kids && i in Inos(n.kids[k]);
      var r := InoHasPath(n.kids[k], i);
      q := [k] + r;
      assert q[1..] == r;
    }
  }

  /** The source reads as it did exactly when its files hold what they held. */
  lemma TextsAreData(s: State, t: State, src: Path)
    requires Sound(s) && Sound(t) && Get(s.root, src).Some? && Get(t.root, src) == Get(s.root, src)
    ensures TextsKept(s, t, src) <==> SameData(s, t, Inos(Get(s.root, src).value))
  {
    var n := Get(s.root, src).value;
    if TextsKept(s, t, src) {
      forall i | i in Inos(n) && i in s.data ensures i in t.data && t.data[i] == s.data[i] {
        var q := InoHasPath(n, i);
        GetUnder(s.root, src, q);
        GetUnder(t.root, src, q);
        assert ReadText(t, src + q) == ReadText(s, src + q);
      }
    }
    if SameData(s, t, Inos(n)) {
      forall q ensures ReadText(t, src + q) == ReadText(s, src + q) {
        GetUnder(t.root, src, q);
        GetUnder(s.root, src, q);
        SourceKeeps(s, t, src, q, Inos(n));
      }
    }
  }
}
