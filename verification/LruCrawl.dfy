/** What a crawl leaves of its list, node by node. */
module LruCrawl {
  import opened Common
  import opened LruList

  /** `t` is what is left of `s` after some nodes were taken out. */
  ghost predicate Thinned(s: seq<Node>, t: seq<Node>)
    decreases |s|
  {
    if t == [] then true
    else s != [] && if s[0] == t[0] then Thinned(s[1..], t[1..]) else Thinned(s[1..], t)
  }

  lemma {:induction false} FilterExact(s: seq<Node>, which: set<Node>, inside: bool)
    ensures forall x :: x in Filter(s, which, inside) <==> x in s && (x in which <==> inside)
    ensures NoDup(s) ==> NoDup(Filter(s, which, inside)) && Thinned(s, Filter(s, which, inside))
  {
    if s != [] {
      FilterExact(s[1..], which, inside);
      assert s == [s[0]] + s[1..];
      var rest := Filter(s[1..], which, inside);
      if NoDup(s) {
        assert s[0] !in s[1..];
        if rest != [] { assert rest[0] in rest; }
      }
    }
  }

  lemma {:induction false} ThinnedBehind(a: seq<Node>, s: seq<Node>, t: seq<Node>)
    requires Thinned(s, t)
    ensures Thinned(a + s, a + t)
  {
    if a == [] {
      assert a + s == s && a + t == t;
    } else {
      assert (a + s)[1..] == a[1..] + s && (a + t)[1..] == a[1..] + t;
      ThinnedBehind(a[1..], s, t);
    }
  }

  /** A crawl leaves the list in its order, without exactly those dead ones that it got hold of among the nodes it
      considered. */
  lemma CrawlLeaves(s: seq<Node>, n: nat, free: set<Node>, dead: set<Node>)
    requires NoDup(s) && n <= |s|
    ensures var seen := FromTail(s, n); var t := After(s, |s| - n, free, dead);
      && NoDup(t) && Thinned(s, t)
      && (forall x :: x in t <==> x in s && !(x in seen && x in free && x in dead))
      && forall x :: x in Filter(seen, free, true) <==> x in seen && x in free
  {
    AfterLeaves(s, |s| - n, free, dead);
    FilterExact(FromTail(s, n), free, true);
    forall x ensures x in FromTail(s, n) <==> x in s[|s| - n..] { SeenBehind(s, n, x); }
  }

  lemma AfterLeaves(s: seq<Node>, m: nat, free: set<Node>, dead: set<Node>)
    requires NoDup(s) && m <= |s|
    ensures var t := After(s, m, free, dead);
      && NoDup(t) && Thinned(s, t)
      && forall x :: x in t <==> x in s && !(x in s[m..] && x in free && x in dead)
  {
    var rest := Filter(s[m..], free * dead, false);
    assert s == s[..m] + s[m..];
    Apart(s[..m], s[m..]);
    FilterExact(s[m..], free * dead, false);
    ThinnedBehind(s[..m], s[m..], rest);
    Glued(s[..m], rest);
  }

  lemma Apart(a: seq<Node>, b: seq<Node>)
    requires NoDup(a + b)
    ensures NoDup(a) && NoDup(b) && forall x | x in a :: x !in b
  {
    assert forall i | 0 <= i < |a| :: (a + b)[i] == a[i];
    assert forall i | 0 <= i < |b| :: (a + b)[|a| + i] == b[i];
  }

  lemma Glued(a: seq<Node>, b: seq<Node>)
    requires NoDup(a) && NoDup(b) && forall x | x in b :: x !in a
    ensures NoDup(a + b)
  {
    forall i, j | 0 <= i < j < |a + b| ensures (a + b)[i] != (a + b)[j] {
      if i < |a| <= j { assert b[j - |a|] in b && a[i] in a; }
    }
  }

  lemma SeenBehind(s: seq<Node>, n: nat, x: Node)
    requires n <= |s|
    ensures x in FromTail(s, n) <==> x in s[|s| - n..]
  {
    var seen, rest := FromTail(s, n), s[|s| - n..];
    if x in seen {
      var i :| 0 <= i < |seen| && seen[i] == x;
      assert rest[n - 1 - i] == x;
    }
    if x in rest {
      var i :| 0 <= i < |rest| && rest[i] == x;
      assert seen[n - 1 - i] == x;
    }
  }
}
