/** Lists of lists: the rows of clusters, segments and groups. */
module Lists {

  function Flat<T>(ss: seq<seq<T>>): seq<T> {
    if ss == [] then [] else ss[0] + Flat(ss[1..])
  }

  function Map<S, T>(f: S -> T, s: seq<S>): (r: seq<T>)
    ensures |r| == |s| && forall i :: 0 <= i < |s| ==> r[i] == f(s[i])
  {
    seq(|s|, i requires 0 <= i < |s| => f(s[i]))
  }

  ghost predicate Together<T>(ss: seq<seq<T>>, x: T, y: T) {
    exists s :: s in ss && x in s && y in s
  }

  lemma {:induction false} FlatAppend<T>(a: seq<seq<T>>, b: seq<seq<T>>)
    ensures Flat(a + b) == Flat(a) + Flat(b)
  {
    if a == [] {
      assert a + b == b;
    } else {
      assert (a + b)[0] == a[0];
      FlatAppend(a[1..], b);
      assert (a + b)[1..] == a[1..] + b;
    }
  }

  lemma {:induction false} FlatSnoc<T>(a: seq<seq<T>>, s: seq<T>)
    ensures Flat(a + [s]) == Flat(a) + s
  {
    FlatAppend(a, [s]);
    assert [s][1..] == [] && Flat([s]) == s;
  }

  lemma {:induction false} FlatSplit<T>(a: seq<seq<T>>, k: nat)
    requires k < |a|
    ensures Flat(a) == Flat(a[..k]) + a[k] + Flat(a[k + 1..])
  {
    FlatAppend(a[..k], a[k..]);
    assert a == a[..k] + a[k..] && a[k..][1..] == a[k + 1..];
  }

  lemma {:induction false} FlatUpdate<T>(a: seq<seq<T>>, k: nat, s: seq<T>)
    requires k < |a|
    ensures multiset(Flat(a[k := s])) == multiset(Flat(a)) - multiset(a[k]) + multiset(s)
    ensures multiset(a[k]) <= multiset(Flat(a))
  {
    FlatSplit(a, k);
    FlatSplit(a[k := s], k);
    assert a[k := s][..k] == a[..k] && a[k := s][k + 1..] == a[k + 1..];
  }

  lemma {:induction false} FlatExtend<T>(a: seq<seq<T>>, k: nat, s: seq<T>)
    requires k < |a|
    ensures multiset(Flat(a[k := a[k] + s])) == multiset(Flat(a)) + multiset(s)
  {
    FlatUpdate(a, k, a[k] + s);
  }

  lemma {:induction false} FlatMembers<T>(ss: seq<seq<T>>, x: T)
    ensures x in Flat(ss) <==> exists s :: s in ss && x in s
  {
    if ss != [] {
      FlatMembers(ss[1..], x);
      assert forall s :: s in ss <==> s == ss[0] || s in ss[1..];
    }
  }

  lemma {:induction false} HeadTail<T>(s: seq<T>)
    requires s != []
    ensures multiset(s) == multiset{s[0]} + multiset(s[1..])
  {
    assert s == [s[0]] + s[1..];
  }

  lemma {:induction false} FlatHead<T>(s: seq<seq<T>>)
    requires s != []
    ensures multiset(Flat(s)) == multiset(s[0]) + multiset(Flat(s[1..]))
  {
  }

  /** Reordering the lists, or the elements inside them, keeps the multiset of elements. */
  lemma {:induction false} FlatPermute<T>(a: seq<seq<T>>, b: seq<seq<T>>)
    requires multiset(a) == multiset(b)
    ensures multiset(Flat(a)) == multiset(Flat(b))
    decreases |a|
  {
    hide Flat;
    if a == [] {
      assert |b| == |multiset(b)| == 0;
    } else {
      assert a[0] in multiset(b);
      var k :| 0 <= k < |b| && b[k] == a[0];
      Without(b, k);
      HeadTail(a);
      FlatHead(a);
      FlatPermute(a[1..], b[..k] + b[k + 1..]);
    }
  }

  lemma {:induction false} Without<T>(b: seq<seq<T>>, k: nat)
    requires k < |b|
    ensures multiset(b[..k] + b[k + 1..]) == multiset(b) - multiset{b[k]}
    ensures multiset(Flat(b)) == multiset(b[k]) + multiset(Flat(b[..k] + b[k + 1..]))
  {
    hide Flat;
    WithoutOne(b, k);
    FlatSplit(b, k);
    FlatAppend(b[..k], b[k + 1..]);
  }

  lemma {:induction false} WithoutOne<T>(b: seq<T>, k: nat)
    requires k < |b|
    ensures multiset(b[..k] + b[k + 1..]) == multiset(b) - multiset{b[k]}
  {
    assert b == b[..k] + [b[k]] + b[k + 1..];
  }

  lemma {:induction false} FlatPointwise<T>(a: seq<seq<T>>, b: seq<seq<T>>)
    requires |a| == |b| && forall i :: 0 <= i < |a| ==> multiset(a[i]) == multiset(b[i])
    ensures multiset(Flat(a)) == multiset(Flat(b))
  {
    if a != [] {
      FlatPointwise(a[1..], b[1..]);
    }
  }

  lemma {:induction false} MapPermute<S, T>(f: S -> T, a: seq<S>, b: seq<S>)
    requires multiset(a) == multiset(b)
    ensures multiset(Map(f, a)) == multiset(Map(f, b))
    decreases |a|
  {
    if a == [] {
      assert |b| == |multiset(b)| == 0;
    } else {
      assert a[0] in multiset(b);
      var k :| 0 <= k < |b| && b[k] == a[0];
      WithoutOne(b, k);
      HeadTail(a);
      MapWithout(f, b, k);
      HeadTail(Map(f, a));
      assert Map(f, a)[1..] == Map(f, a[1..]);
      MapPermute(f, a[1..], b[..k] + b[k + 1..]);
    }
  }

  lemma {:induction false} MapWithout<S, T>(f: S -> T, b: seq<S>, k: nat)
    requires k < |b|
    ensures multiset(Map(f, b)) == multiset{f(b[k])} + multiset(Map(f, b[..k] + b[k + 1..]))
  {
    var m := Map(f, b);
    WithoutOne(m, k);
    assert m[..k] + m[k + 1..] == Map(f, b[..k] + b[k + 1..]);
    assert m[k] in multiset(m);
  }
}
