/** A filesystem tree with inodes: a name leads to a file's inode, so two names may lead to one
    file, and what is written through one is read through the other. */
module Filesystem {
  import opened Wrappers

  type Path = seq<string>

  datatype Node = File(ino: nat) | Dir(kids: map<string, Node>)

  /** `data` is what each inode holds, `next` the first inode never used. */
  datatype State = State(root: Node, data: map<nat, string>, next: nat)

  function Get(n: Node, p: Path): (r: Option<Node>)
    ensures r.Some? ==> r.value == n || r.value < n
    decreases |p|
  {
    if p == [] then Some(n)
    else if n.Dir? && p[0] in n.kids then Get(n.kids[p[0]], p[1..])
    else None
  }

  predicate IsDir(n: Node, p: Path) {
    var r := Get(n, p);
    r.Some? && r.value.Dir?
  }

  predicate IsFile(n: Node, p: Path) {
    var r := Get(n, p);
    r.Some? && r.value.File?
  }

  /** There is a directory for `p` to be an entry of. */
  predicate Room(n: Node, p: Path)
    decreases |p|
  {
    p != [] && n.Dir? && (|p| == 1 || (p[0] in n.kids && Room(n.kids[p[0]], p[1..])))
  }

  function Put(n: Node, p: Path, x: Node): Node
    requires Room(n, p)
    decreases |p|
  {
    if |p| == 1 then Dir(n.kids[p[0] := x])
    else Dir(n.kids[p[0] := Put(n.kids[p[0]], p[1..], x)])
  }

  function Del(n: Node, p: Path): Node
    requires p != [] && Get(n, p).Some?
    decreases |p|
  {
    if |p| == 1 then Dir(n.kids - {p[0]})
    else Dir(n.kids[p[0] := Del(n.kids[p[0]], p[1..])])
  }

  /** Neither path leads through the other. */
  predicate Apart(p: Path, q: Path) {
    !(p <= q) && !(q <= p)
  }

  lemma {:induction false} GetUnder(n: Node, p: Path, q: Path)
    ensures Get(n, p + q) == if Get(n, p).Some? then Get(Get(n, p).value, q) else None
    decreases |p|
  {
    if p == [] {
      assert p + q == q;
    } else {
      assert (p + q)[1..] == p[1..] + q;
      if n.Dir? && p[0] in n.kids {
        GetUnder(n.kids[p[0]], p[1..], q);
      }
    }
  }

  lemma {:induction false} RoomIsParent(n: Node, p: Path)
    requires p != []
    ensures Room(n, p) <==> IsDir(n, p[..|p| - 1])
    decreases |p|
  {
    if |p| > 1 {
      assert p[..|p| - 1][1..] == p[1..][..|p| - 2];
      if n.Dir? && p[0] in n.kids {
        RoomIsParent(n.kids[p[0]], p[1..]);
      }
    }
  }

  lemma SamePrefix(p: Path, q: Path)
    requires p != [] && q != [] && p[0] == q[0]
    ensures p[1..] <= q[1..] <==> p <= q
    ensures p[1..] == q[1..] <==> p == q
  {
    assert p == [p[0]] + p[1..] && q == [q[0]] + q[1..];
  }

  /** What is found anywhere after something is put at `p`. */
  lemma {:induction false} GetPut(n: Node, p: Path, x: Node, q: Path)
    requires Room(n, p)
    ensures p <= q ==> Get(Put(n, p, x), q) == Get(x, q[|p|..])
    ensures Apart(p, q) ==> Get(Put(n, p, x), q) == Get(n, q)
    ensures q < p ==> IsDir(n, q) && IsDir(Put(n, p, x), q)
    decreases |p|
  {
    if q != [] && q[0] == p[0] && |p| > 1 {
      GetPut(n.kids[p[0]], p[1..], x, q[1..]);
      SamePrefix(p, q);
      SamePrefix(q, p);
      if p <= q {
        assert q[1..][|p[1..]|..] == q[|p|..];
      }
    } else if |p| == 1 && q != [] && q[0] == p[0] {
      assert p <= q;
    }
  }

  /** What is found anywhere after what was at `p` is gone. */
  lemma {:induction false} GetDel(n: Node, p: Path, q: Path)
    requires p != [] && Get(n, p).Some?
    ensures p <= q ==> Get(Del(n, p), q) == None
    ensures Apart(p, q) ==> Get(Del(n, p), q) == Get(n, q)
    ensures q < p ==> IsDir(n, q) && IsDir(Del(n, p), q)
    decreases |p|
  {
    if q != [] && q[0] == p[0] && |p| > 1 {
      GetDel(n.kids[p[0]], p[1..], q[1..]);
      SamePrefix(p, q);
      SamePrefix(q, p);
    } else if |p| == 1 && q != [] && q[0] == p[0] {
      assert p <= q;
    }
  }

  /** Putting an entry in a directory changes that entry of it. */
  lemma {:induction false} PutEntry(n: Node, p: Path, name: string, x: Node)
    requires Room(n, p + [name])
    ensures IsDir(n, p)
    ensures Get(Put(n, p + [name], x), p) == Some(Dir(Get(n, p).value.kids[name := x]))
    decreases |p|
  {
    if p != [] {
      assert (p + [name])[1..] == p[1..] + [name];
      PutEntry(n.kids[p[0]], p[1..], name, x);
    }
  }

  lemma {:induction false} DelEntry(n: Node, p: Path, name: string)
    requires Get(n, p + [name]).Some?
    ensures IsDir(n, p)
    ensures Get(Del(n, p + [name]), p) == Some(Dir(Get(n, p).value.kids - {name}))
    decreases |p|
  {
    if p != [] {
      assert (p + [name])[1..] == p[1..] + [name];
      DelEntry(n.kids[p[0]], p[1..], name);
    }
  }

  // ---- Inodes ----

  ghost function Inos(n: Node): set<nat> {
    match n
    case File(i) => {i}
    case Dir(kids) => set k, i | k in kids && i in Inos(kids[k]) :: i
  }

  lemma {:induction false} InosOfGet(n: Node, p: Path)
    requires Get(n, p).Some?
    ensures Inos(Get(n, p).value) <= Inos(n)
    decreases |p|
  {
    if p != [] {
      InosOfGet(n.kids[p[0]], p[1..]);
    }
  }

  lemma {:induction false} InosOfPut(n: Node, p: Path, x: Node)
    requires Room(n, p)
    ensures Inos(Put(n, p, x)) <= Inos(n) + Inos(x)
    decreases |p|
  {
    if |p| > 1 {
      InosOfPut(n.kids[p[0]], p[1..], x);
    }
  }

  lemma {:induction false} InosOfDel(n: Node, p: Path)
    requires p != [] && Get(n, p).Some?
    ensures Inos(Del(n, p)) <= Inos(n)
    decreases |p|
  {
    if |p| > 1 {
      InosOfDel(n.kids[p[0]], p[1..]);
    }
  }

  /** Every name leads to an inode that holds something. */
  ghost predicate Sound(s: State) {
    && Inos(s.root) <= s.data.Keys
    && forall i | i in s.data :: i < s.next
  }

  function ReadText(s: State, p: Path): Option<string> {
    var r := Get(s.root, p);
    if r.Some? && r.value.File? && r.value.ino in s.data then Some(s.data[r.value.ino]) else None
  }

  ghost predicate Grows(d: map<nat, string>, e: map<nat, string>) {
    forall i | i in d :: i in e && e[i] == d[i]
  }

  // ---- Changes confined to some paths ----

  ghost predicate Clear(q: Path, ps: set<Path>) {
    forall p | p in ps :: Apart(p, q)
  }

  ghost predicate NotUnder(q: Path, ps: set<Path>) {
    forall p | p in ps :: !(p <= q)
  }

  /** `t` is `s` changed at most at or under `ps`: what lies apart from them is the same, directories
      they lie in are still there, and no inode `s` knew has been written to. */
  ghost predicate Elsewhere(s: State, t: State, ps: set<Path>) {
    && Sound(t)
    && Grows(s.data, t.data)
    && s.next <= t.next
    && (forall q :: Clear(q, ps) ==> Get(t.root, q) == Get(s.root, q))
    && (forall q :: NotUnder(q, ps) && IsDir(s.root, q) ==> IsDir(t.root, q))
  }

  lemma ElsewhereThen(s: State, t: State, u: State, ps: set<Path>)
    requires Elsewhere(s, t, ps) && Elsewhere(t, u, ps)
    ensures Elsewhere(s, u, ps)
  {
    hide Get, IsDir, Clear, NotUnder;
  }

  lemma ElsewhereWider(s: State, t: State, ps: set<Path>, qs: set<Path>)
    requires Elsewhere(s, t, ps)
    requires forall p | p in ps :: exists q :: q in qs && q <= p
    ensures Elsewhere(s, t, qs)
  {
    hide Get, IsDir;
    forall r
      ensures Clear(r, qs) ==> Clear(r, ps)
      ensures NotUnder(r, qs) ==> NotUnder(r, ps)
    {
      forall p | p in ps && Clear(r, qs)
        ensures Apart(p, r)
      {
        var q :| q in qs && q <= p;
        assert Apart(q, r);
        assert q <= p;
        if r <= p { ShorterPrefix(q, r, p); }
      }
      forall p | p in ps && NotUnder(r, qs)
        ensures !(p <= r)
      {
        var q :| q in qs && q <= p;
        assert !(q <= r);
      }
    }
  }

  lemma ShorterPrefix(q: Path, r: Path, p: Path)
    requires q <= p && r <= p
    ensures q <= r || r <= q
  {
    if |q| <= |r| {
      assert r == p[..|r|] && q == p[..|q|] && r[..|q|] == q;
    } else {
      assert r == p[..|r|] && q == p[..|q|] && q[..|r|] == r;
    }
  }

  // ---- Single steps ----

  function PutAt(s: State, p: Path, x: Node): State
    requires Room(s.root, p)
  {
    s.(root := Put(s.root, p, x))
  }

  lemma PutElsewhere(s: State, p: Path, x: Node)
    requires Sound(s) && Room(s.root, p) && Inos(x) <= s.data.Keys
    ensures Elsewhere(s, PutAt(s, p, x), {p})
  {
    InosOfPut(s.root, p, x);
    forall q
      ensures Apart(p, q) ==> Get(PutAt(s, p, x).root, q) == Get(s.root, q)
      ensures q < p ==> IsDir(PutAt(s, p, x).root, q)
    {
      GetPut(s.root, p, x, q);
    }
    NotUnderOne(p);
  }

  lemma DelElsewhere(s: State, p: Path)
    requires Sound(s) && p != [] && Get(s.root, p).Some?
    ensures Elsewhere(s, s.(root := Del(s.root, p)), {p})
  {
    InosOfDel(s.root, p);
    forall q
      ensures Apart(p, q) ==> Get(Del(s.root, p), q) == Get(s.root, q)
      ensures q < p ==> IsDir(Del(s.root, p), q)
    {
      GetDel(s.root, p, q);
    }
    NotUnderOne(p);
  }

  lemma NotUnderOne(p: Path)
    ensures forall q :: Clear(q, {p}) <==> Apart(p, q)
    ensures forall q :: NotUnder(q, {p}) <==> Apart(p, q) || q < p
  {
    forall q
      ensures NotUnder(q, {p}) <==> Apart(p, q) || q < p
    {
      if NotUnder(q, {p}) {
        assert !(p <= q);
      }
    }
    forall q ensures Clear(q, {p}) <==> Apart(p, q) { if Clear(q, {p}) { assert p in {p}; } }
  }

  /** A file of its own, holding `text`. */
  function Create(s: State, p: Path, text: string): State
    requires Room(s.root, p)
  {
    State(Put(s.root, p, File(s.next)), s.data[s.next := text], s.next + 1)
  }

  lemma CreateElsewhere(s: State, p: Path, text: string)
    requires Sound(s) && Room(s.root, p)
    ensures Elsewhere(s, Create(s, p, text), {p})
    ensures Get(Create(s, p, text).root, p) == Some(File(s.next)) && ReadText(Create(s, p, text), p) == Some(text)
  {
    var grown := s.(data := s.data[s.next := text], next := s.next + 1);
    PutElsewhere(grown, p, File(s.next));
    GetPut(s.root, p, File(s.next), p);
  }

  /** `rename`: a directory moves only to where nothing is, or an empty directory; a file also over
      another file; and nothing moves into itself. */
  predicate CanRename(n: Node, from: Path, to: Path) {
    && from != [] && to != [] && !(from <= to) && !(to <= from)
    && Get(n, from).Some?
    && Room(n, to)
    && match Get(n, to)
       case None => true
       case Some(File(_)) => Get(n, from).value.File?
       case Some(Dir(kids)) => kids == map[] && Get(n, from).value.Dir?
  }

  function Renamed(s: State, from: Path, to: Path): State
    requires CanRename(s.root, from, to)
  {
    RoomAfterDel(s.root, from, to);
    s.(root := Put(Del(s.root, from), to, Get(s.root, from).value))
  }

  lemma RoomAfterDel(n: Node, from: Path, to: Path)
    requires from != [] && to != [] && Apart(from, to) && Get(n, from).Some? && Room(n, to)
    ensures Room(Del(n, from), to)
  {
    RoomIsParent(n, to);
    RoomIsParent(Del(n, from), to);
    var parent := to[..|to| - 1];
    assert parent <= to;
    GetDel(n, from, parent);
  }

  lemma RenameMoves(s: State, from: Path, to: Path)
    requires Sound(s) && CanRename(s.root, from, to)
    ensures var t := Renamed(s, from, to);
            && Elsewhere(s, t, {from, to})
            && Get(t.root, to) == Get(s.root, from)
            && Get(t.root, from) == None
  {
    var mid := s.(root := Del(s.root, from));
    var x := Get(s.root, from).value;
    RoomAfterDel(s.root, from, to);
    DelElsewhere(s, from);
    InosOfGet(s.root, from);
    PutElsewhere(mid, to, x);
    ElsewhereWider(s, mid, {from}, {from, to});
    ElsewhereWider(mid, PutAt(mid, to, x), {to}, {from, to});
    ElsewhereThen(s, mid, PutAt(mid, to, x), {from, to});
    GetPut(mid.root, to, x, to);
    GetPut(mid.root, to, x, from);
    GetDel(s.root, from, from);
  }
}
