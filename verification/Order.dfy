/** The order the tables are kept in: text by its characters, a key by provider and then id. */
module Order {
  datatype Key = Key(provider: string, id: string)

  predicate TextLeq(a: string, b: string)
    decreases |a|
  {
    a == "" || (b != "" && (a[0] < b[0] || (a[0] == b[0] && TextLeq(a[1..], b[1..]))))
  }

  predicate KeyLeq(a: Key, b: Key) {
    if a.provider == b.provider then TextLeq(a.id, b.id) else TextLeq(a.provider, b.provider)
  }

  lemma {:induction false} TextTotal(a: string, b: string)
    ensures TextLeq(a, b) || TextLeq(b, a)
    ensures TextLeq(a, b) && TextLeq(b, a) ==> a == b
    decreases |a|
  {
    if a != "" && b != "" {
      TextTotal(a[1..], b[1..]);
      assert a == [a[0]] + a[1..] && b == [b[0]] + b[1..];
    }
  }

  lemma {:induction false} TextTransitive(a: string, b: string, c: string)
    requires TextLeq(a, b) && TextLeq(b, c)
    ensures TextLeq(a, c)
    decreases |a|
  {
    if a != "" && a[0] == b[0] == c[0] {
      TextTransitive(a[1..], b[1..], c[1..]);
    }
  }

  /** A prefix sorts first. */
  lemma {:induction false} PrefixLeq(a: string, b: string)
    requires a <= b
    ensures TextLeq(a, b)
    decreases |a|
  {
    if a != "" {
      PrefixLeq(a[1..], b[1..]);
    }
  }

  lemma KeyTotal(a: Key, b: Key)
    ensures KeyLeq(a, b) || KeyLeq(b, a)
    ensures KeyLeq(a, b) && KeyLeq(b, a) ==> a == b
  {
    TextTotal(a.provider, b.provider);
    TextTotal(a.id, b.id);
  }

  lemma KeyTransitive(a: Key, b: Key, c: Key)
    requires KeyLeq(a, b) && KeyLeq(b, c)
    ensures KeyLeq(a, c)
  {
    if a.provider == b.provider == c.provider {
      TextTransitive(a.id, b.id, c.id);
    } else {
      TextTotal(a.provider, b.provider);
      TextTotal(b.provider, c.provider);
      TextTransitive(a.provider, b.provider, c.provider);
      if a.provider == c.provider {
        TextTotal(a.provider, b.provider);
      }
    }
  }

  predicate IsLeastKey(k: Key, ks: set<Key>) {
    k in ks && forall j | j in ks :: KeyLeq(k, j)
  }

  lemma {:induction false} LeastExists(ks: set<Key>)
    requires ks != {}
    ensures exists k :: IsLeastKey(k, ks)
  {
    var k :| k in ks;
    if ks == {k} {
      KeyTotal(k, k);
      assert IsLeastKey(k, ks);
    } else {
      LeastExists(ks - {k});
      var j :| IsLeastKey(j, ks - {k});
      KeyTotal(j, k);
      var least := if KeyLeq(j, k) then j else k;
      forall i | i in ks
        ensures KeyLeq(least, i)
      {
        KeyTotal(i, i);
        if i != k && least == k {
          KeyTransitive(k, j, i);
        }
      }
      assert IsLeastKey(least, ks);
    }
  }

  /** The walk over a map: always the least key not yet met. */
  method NextKey(ks: set<Key>) returns (k: Key)
    requires ks != {}
    ensures IsLeastKey(k, ks)
  {
    LeastExists(ks);
    k :| k in ks && forall j | j in ks :: KeyLeq(k, j);
  }

  ghost predicate Ascending(ks: seq<Key>) {
    forall i, j :: 0 <= i < j < |ks| ==> KeyLeq(ks[i], ks[j]) && ks[i] != ks[j]
  }

  ghost function Members(ks: seq<Key>): set<Key> {
    set i | 0 <= i < |ks| :: ks[i]
  }

  lemma AscendingAppended(ks: seq<Key>, k: Key)
    requires Ascending(ks) && forall i :: 0 <= i < |ks| ==> KeyLeq(ks[i], k) && ks[i] != k
    ensures Ascending(ks + [k]) && Members(ks + [k]) == Members(ks) + {k}
  {
    var all := ks + [k];
    forall j | j in Members(ks) + {k}
      ensures j in Members(all)
    {
      if j in Members(ks) {
        var i :| 0 <= i < |ks| && ks[i] == j;
        assert all[i] == j;
      } else {
        assert all[|ks|] == j;
      }
    }
  }

  /** A listing of keys that all come before `k` takes `k` at its end. */
  lemma AppendedLater(ks: seq<Key>, k: Key)
    requires Ascending(ks) && forall j | j in Members(ks) :: KeyLeq(j, k) && j != k
    ensures Ascending(ks + [k]) && Members(ks + [k]) == Members(ks) + {k}
  {
    forall i | 0 <= i < |ks|
      ensures KeyLeq(ks[i], k) && ks[i] != k
    {
      assert ks[i] in Members(ks);
    }
    AscendingAppended(ks, k);
  }

  /** An ascending listing of a set is the only one. */
  lemma {:induction false} ListingUnique(a: seq<Key>, b: seq<Key>)
    requires Ascending(a) && Ascending(b) && Members(a) == Members(b)
    ensures a == b
    decreases |a|
  {
    if a == [] || b == [] {
      NoMembers(a);
      NoMembers(b);
    } else {
      var x, y := a[|a| - 1], b[|b| - 1];
      assert x in Members(b) && y in Members(a);
      KeyTotal(x, y);
      var a', b' := a[..|a| - 1], b[..|b| - 1];
      forall k
        ensures k in Members(a') <==> k in Members(b')
      {
        LastOut(a, k);
        LastOut(b, k);
      }
      ListingUnique(a', b');
      assert a == a' + [x] && b == b' + [y];
    }
  }

  lemma NoMembers(a: seq<Key>)
    ensures Members(a) == {} <==> a == []
  {
    if a != [] {
      assert a[0] in Members(a);
    }
  }

  lemma LastOut(a: seq<Key>, k: Key)
    requires Ascending(a) && a != []
    ensures k in Members(a[..|a| - 1]) <==> k in Members(a) && k != a[|a| - 1]
  {
    if k in Members(a) && k != a[|a| - 1] {
      var i :| 0 <= i < |a| && a[i] == k;
      assert a[..|a| - 1][i] == k;
    }
  }
}
