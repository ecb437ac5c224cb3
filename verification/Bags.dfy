/** Sequences up to reordering. */
module Bags {

  lemma CountSplit<T>(a: seq<T>, k: nat, x: T)
    requires k <= |a|
    ensures multiset(a)[x] == multiset(a[..k])[x] + multiset(a[k..])[x]
  {
    assert a == a[..k] + a[k..];
  }

  lemma {:induction false} Occurs<T>(a: seq<T>, x: T) returns (p: nat)
    requires multiset(a)[x] >= 1
    ensures p < |a| && a[p] == x
  {
    assert x in multiset(a);
    assert x in a;
    p :| p < |a| && a[p] == x;
  }

  /** Two positions of one arrangement correspond to two positions of any other. */
  lemma PermutedPair<T>(a: seq<T>, b: seq<T>, i: nat, j: nat) returns (p: nat, q: nat)
    requires multiset(a) == multiset(b) && i < j < |b|
    ensures p < |a| && q < |a| && p != q && a[p] == b[i] && a[q] == b[j]
  {
    assert b[i] in multiset(b) && b[j] in multiset(b);
    p := Occurs(a, b[i]);
    if b[i] != b[j] {
      q := Occurs(a, b[j]);
    } else {
      var x := b[i];
      CountSplit(b, i + 1, x);
      assert b[..i + 1][i] == x && b[i + 1..][j - i - 1] == x;
      assert x in b[..i + 1] && x in b[i + 1..];
      assert multiset(b)[x] >= 2;
      CountSplit(a, p, x);
      CountSplit(a[p..], 1, x);
      assert a[p..][..1] == [x];
      if multiset(a[..p])[x] >= 1 {
        q := Occurs(a[..p], x);
      } else {
        assert multiset(a[p..][1..])[x] >= 1;
        var k := Occurs(a[p..][1..], x);
        q := p + 1 + k;
      }
    }
  }

  lemma SameMembers<T>(a: seq<T>, b: seq<T>)
    requires multiset(a) == multiset(b)
    ensures |a| == |b| && forall x :: x in a <==> x in b
  {
    assert |multiset(a)| == |a| && |multiset(b)| == |b|;
    forall x
      ensures x in a <==> x in b
    {
      assert x in a <==> x in multiset(a);
      assert x in b <==> x in multiset(b);
    }
  }

  lemma SingletonBag<T>(a: seq<T>, b: seq<T>)
    requires multiset(a) == multiset(b) && |a| == 1
    ensures a == b
  {
    SameMembers(a, b);
    assert a[0] in b;
  }

  lemma PairBag<T>(a: seq<T>, b: seq<T>)
    requires multiset(a) == multiset(b) && |a| == 2
    ensures b == a || b == [a[1], a[0]]
  {
    SameMembers(a, b);
    var p, q := PermutedPair(a, b, 0, 1);
  }

  // ---------------------------------------------------------------- mapping and flattening

  function Map<A, B>(f: A -> B, s: seq<A>): (r: seq<B>)
    ensures |r| == |s| && forall i :: 0 <= i < |s| ==> r[i] == f(s[i])
  {
    seq(|s|, i requires 0 <= i < |s| => f(s[i]))
  }

  lemma MapSplit<A, B>(f: A -> B, a: seq<A>, b: seq<A>)
    ensures Map(f, a + b) == Map(f, a) + Map(f, b)
  {
  }

  lemma HeadCount<T>(a: seq<T>, x: T)
    requires a != []
    ensures multiset(a)[x] == multiset(a[1..])[x] + if x == a[0] then 1 else 0
  {
    assert a == [a[0]] + a[1..];
  }

  /** The first element of one arrangement, found and removed in another. */
  lemma RemoveHead<T>(a: seq<T>, b: seq<T>) returns (k: nat)
    requires multiset(a) == multiset(b) && a != []
    ensures k < |b| && b[k] == a[0] && b == b[..k] + [a[0]] + b[k + 1..]
    ensures multiset(a[1..]) == multiset(b[..k] + b[k + 1..])
  {
    SameMembers(a, b);
    assert a[0] in b;
    k :| 0 <= k < |b| && b[k] == a[0];
    assert b == b[..k] + [a[0]] + b[k + 1..];
    assert a == [a[0]] + a[1..];
    assert multiset(a[1..]) == multiset(a) - multiset{a[0]};
    assert multiset(b[..k] + b[k + 1..]) == multiset(b) - multiset{a[0]};
  }

  /** Mapping respects reordering. */
  lemma {:induction false} MapPermuted<A, B>(f: A -> B, a: seq<A>, b: seq<A>)
    requires multiset(a) == multiset(b)
    ensures multiset(Map(f, a)) == multiset(Map(f, b))
    decreases |a|
  {
    SameMembers(a, b);
    if a != [] {
      var k := RemoveHead(a, b);
      MapPermuted(f, a[1..], b[..k] + b[k + 1..]);
      MapSplit(f, b[..k], b[k + 1..]);
      assert Map(f, a) == [f(a[0])] + Map(f, a[1..]);
      assert Map(f, b) == Map(f, b[..k]) + [f(a[0])] + Map(f, b[k + 1..]);
    }
  }

  function Flatten<T>(parts: seq<seq<T>>): seq<T> {
    if parts == [] then [] else parts[0] + Flatten(parts[1..])
  }

  lemma {:induction false} FlattenAppend<T>(parts: seq<seq<T>>, last: seq<T>)
    ensures Flatten(parts + [last]) == Flatten(parts) + last
  {
    if parts == [] {
      assert Flatten([last]) == last + Flatten<T>([]);
    } else {
      assert (parts + [last])[1..] == parts[1..] + [last];
      FlattenAppend(parts[1..], last);
    }
  }

  lemma {:induction false} FlattenMembers<T>(parts: seq<seq<T>>, x: T)
    ensures x in Flatten(parts) <==> exists i :: 0 <= i < |parts| && x in parts[i]
  {
    if parts != [] {
      FlattenMembers(parts[1..], x);
      assert forall i :: 1 <= i < |parts| ==> parts[i] == parts[1..][i - 1];
      if i :| 0 <= i < |parts[1..]| && x in parts[1..][i] {
        assert x in parts[i + 1];
      }
    }
  }

  /** An element confined to one part is counted there. */
  lemma {:induction false} ConfinedCount<T>(parts: seq<seq<T>>, p: nat, x: T)
    requires p < |parts| && forall i :: 0 <= i < |parts| && i != p ==> x !in parts[i]
    ensures multiset(Flatten(parts))[x] == multiset(parts[p])[x]
  {
    var tail := parts[1..];
    assert forall i :: 0 <= i < |tail| ==> tail[i] == parts[i + 1];
    if p == 0 {
      if x in Flatten(tail) {
        FlattenMembers(tail, x);
        assert false;
      }
    } else {
      ConfinedCount(tail, p - 1, x);
      assert x !in parts[0];
    }
  }

  /** Mapping every part maps the whole. */
  lemma {:induction false} FlattenMap<A, B>(f: A -> B, parts: seq<seq<A>>)
    ensures Flatten(Map(s => Map(f, s), parts)) == Map(f, Flatten(parts))
  {
    if parts != [] {
      FlattenMap(f, parts[1..]);
      assert Map(s => Map(f, s), parts)[1..] == Map(s => Map(f, s), parts[1..]);
      MapSplit(f, parts[0], Flatten(parts[1..]));
    }
  }
}
