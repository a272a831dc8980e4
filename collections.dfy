/**
 * A game object's `children` record: collection keys in insertion order, each with
 * an ordered list of members. Generic in the member type, so that the live objects
 * and the value snapshots share one definition of lookup, replacement and search.
 */
module Collections {
  import opened Wrappers

  /** One entry of the `children` record. */
  datatype Collection<T> = Collection(key: string, members: seq<T>)

  /** The declared collection keys, in insertion order. */
  function Keys<T>(cs: seq<Collection<T>>): (ks: seq<string>)
    ensures |ks| == |cs|
    ensures forall i :: 0 <= i < |cs| ==> ks[i] == cs[i].key
  {
    if cs == [] then [] else [cs[0].key] + Keys(cs[1..])
  }

  /** `k` is a key of the `children` record. */
  predicate Declared<T>(cs: seq<Collection<T>>, k: string)
  {
    k in Keys(cs)
  }

  /** `children[k] ?? []`: the list stored under `k`, or an empty list for an undeclared key. */
  function Get<T>(cs: seq<Collection<T>>, k: string): (r: seq<T>)
    ensures var i := IndexOf(Keys(cs), k); r == if i < 0 then [] else cs[i].members
  {
    if cs == [] then []
    else if cs[0].key == k then cs[0].members
    else
      assert Keys(cs)[1..] == Keys(cs[1..]);
      Get(cs[1..], k)
  }

  /** `children[k] = list` on a declared key: the entry keeps its position, only its list changes. */
  function Put<T>(cs: seq<Collection<T>>, k: string, list: seq<T>): (r: seq<Collection<T>>)
    ensures |r| == |cs|
    ensures forall j :: 0 <= j < |cs| ==>
      r[j] == if j == IndexOf(Keys(cs), k) then Collection(k, list) else cs[j]
  {
    if cs == [] then []
    else if cs[0].key == k then [Collection(k, list)] + cs[1..]
    else
      assert Keys(cs)[1..] == Keys(cs[1..]);
      [cs[0]] + Put(cs[1..], k, list)
  }

  /** Replacing a list keeps the record's keys and their order. */
  lemma PutKeepsKeys<T>(cs: seq<Collection<T>>, k: string, list: seq<T>)
    ensures Keys(Put(cs, k, list)) == Keys(cs)
  {
    var r := Put(cs, k, list);
    assert forall j :: 0 <= j < |cs| ==> Keys(r)[j] == Keys(cs)[j];
  }

  /** After a write to a declared key, that key holds the written list. */
  lemma GetAfterPut<T>(cs: seq<Collection<T>>, k: string, list: seq<T>)
    requires Declared(cs, k)
    ensures Get(Put(cs, k, list), k) == list
  {
    PutKeepsKeys(cs, k, list);
  }

  /** A write to one key leaves every other key's list as it was. */
  lemma GetOtherAfterPut<T>(cs: seq<Collection<T>>, k: string, list: seq<T>, other: string)
    requires other != k
    ensures Get(Put(cs, k, list), other) == Get(cs, other)
  {
    PutKeepsKeys(cs, k, list);
    var i := IndexOf(Keys(cs), other);
    if i >= 0 {
      assert Keys(cs)[i] == other;
    }
  }

  /** Writing back what is stored changes nothing. */
  lemma PutGet<T>(cs: seq<Collection<T>>, k: string)
    requires Declared(cs, k)
    ensures Put(cs, k, Get(cs, k)) == cs
  {
    var r := Put(cs, k, Get(cs, k));
    var i := IndexOf(Keys(cs), k);
    assert cs[i].key == k;
    assert forall j :: 0 <= j < |cs| ==> r[j] == cs[j];
  }

  /** A second write to the same key overrides the first. */
  lemma PutPut<T>(cs: seq<Collection<T>>, k: string, a: seq<T>, b: seq<T>)
    ensures Put(Put(cs, k, a), k, b) == Put(cs, k, b)
  {
    PutKeepsKeys(cs, k, a);
  }

  /** A member of a stored list is among the members of all collections. */
  lemma {:induction false} MemberOfGetIsInFlatten<T>(cs: seq<Collection<T>>, k: string, x: T)
    requires x in Get(cs, k)
    ensures x in Flatten(cs)
  {
    if cs != [] && cs[0].key != k {
      assert Keys(cs)[1..] == Keys(cs[1..]);
      MemberOfGetIsInFlatten(cs[1..], k, x);
    }
  }

  /** Every member of every collection, collections in key order, members in list order. */
  function Flatten<T>(cs: seq<Collection<T>>): seq<T>
  {
    if cs == [] then [] else cs[0].members + Flatten(cs[1..])
  }

  /** `list.find(p)`: the first element satisfying `p`, if any. */
  function FindFirst<T>(s: seq<T>, p: T -> bool): (r: Option<T>)
    ensures r.None? <==> forall i :: 0 <= i < |s| ==> !p(s[i])
    ensures r.Some? ==>
      exists i :: 0 <= i < |s| && s[i] == r.value && p(s[i]) &&
        forall j :: 0 <= j < i ==> !p(s[j])
  {
    if s == [] then None
    else if p(s[0]) then Some(s[0])
    else
      var r := FindFirst(s[1..], p);
      assert forall i :: 0 <= i < |s| - 1 ==> s[1..][i] == s[i + 1];
      r
  }

  /** Searching a concatenation searches the left part first. */
  lemma {:induction false} FindFirstAppend<T>(a: seq<T>, b: seq<T>, p: T -> bool)
    ensures FindFirst(a + b, p) == if FindFirst(a, p).Some? then FindFirst(a, p) else FindFirst(b, p)
  {
    if a != [] {
      assert (a + b)[1..] == a[1..] + b;
      FindFirstAppend(a[1..], b, p);
    } else {
      assert a + b == b;
    }
  }

  /**
   * The loop of findChildByName / findChildById: for each collection in key order,
   * `collection.find(p)`, returning the first hit.
   */
  function FindInCollections<T>(cs: seq<Collection<T>>, p: T -> bool): Option<T>
  {
    if cs == [] then None
    else
      match FindFirst(cs[0].members, p)
      case Some(x) => Some(x)
      case None => FindInCollections(cs[1..], p)
  }

  /** Searching collection by collection finds the first match in the flattened order. */
  lemma {:induction false} FindInCollectionsIsFirstOverall<T>(cs: seq<Collection<T>>, p: T -> bool)
    ensures FindInCollections(cs, p) == FindFirst(Flatten(cs), p)
  {
    if cs != [] {
      FindInCollectionsIsFirstOverall(cs[1..], p);
      FindFirstAppend(cs[0].members, Flatten(cs[1..]), p);
    }
  }

  /** `list.indexOf(x)`: the position of the first occurrence of `x`, or -1. */
  function IndexOf<T(==)>(s: seq<T>, x: T): (r: int)
    ensures -1 <= r < |s|
    ensures r == -1 <==> x !in s
    ensures 0 <= r ==> s[r] == x && x !in s[..r]
  {
    if s == [] then -1
    else if s[0] == x then 0
    else
      var j := IndexOf(s[1..], x);
      assert s == [s[0]] + s[1..];
      if j == -1 then -1
      else
        assert s[..j + 1] == [s[0]] + s[1..][..j];
        j + 1
  }

  /** `list.splice(i, 1)`: the list without its element at position `i`. */
  function Splice<T>(s: seq<T>, i: nat): (r: seq<T>)
    requires i < |s|
    ensures |r| == |s| - 1
    ensures forall j :: 0 <= j < i ==> r[j] == s[j]
    ensures forall j :: i <= j < |r| ==> r[j] == s[j + 1]
  {
    s[..i] + s[i + 1..]
  }

  /** Elements of `s` that satisfy `p`, in order (`Array.prototype.filter`). */
  function Where<T>(s: seq<T>, p: T -> bool): (r: seq<T>)
    ensures |r| <= |s|
  {
    if s == [] then []
    else
      var rest := Where(s[1..], p);
      if p(s[0]) then [s[0]] + rest else rest
  }

  /** The filter keeps exactly the elements that satisfy `p`: nothing else, and each of those. */
  lemma {:induction false} WhereKeepsExactly<T>(s: seq<T>, p: T -> bool)
    ensures forall i :: 0 <= i < |Where(s, p)| ==> Where(s, p)[i] in s && p(Where(s, p)[i])
    ensures forall i :: 0 <= i < |s| && p(s[i]) ==> s[i] in Where(s, p)
  {
    if s != [] {
      WhereKeepsExactly(s[1..], p);
      assert forall i :: 0 < i < |s| ==> s[i] == s[1..][i - 1];
    }
  }

  lemma {:induction false} WhereAppend<T>(a: seq<T>, b: seq<T>, p: T -> bool)
    ensures Where(a + b, p) == Where(a, p) + Where(b, p)
  {
    if a == [] {
      assert a + b == b;
    } else {
      assert (a + b)[1..] == a[1..] + b;
      WhereAppend(a[1..], b, p);
    }
  }

  /** Filtering twice is filtering once by the conjunction. */
  lemma {:induction false} WhereWhere<T>(s: seq<T>, p: T -> bool, q: T -> bool, both: T -> bool)
    requires forall x :: both(x) == (p(x) && q(x))
    ensures Where(Where(s, p), q) == Where(s, both)
  {
    if s != [] {
      WhereWhere(s[1..], p, q, both);
      if p(s[0]) {
        assert ([s[0]] + Where(s[1..], p))[1..] == Where(s[1..], p);
      }
    }
  }

  /** Filtering by two predicates that agree everywhere gives the same list. */
  lemma {:induction false} WhereSame<T>(s: seq<T>, p: T -> bool, q: T -> bool)
    requires forall x :: p(x) == q(x)
    ensures Where(s, p) == Where(s, q)
  {
    if s != [] {
      WhereSame(s[1..], p, q);
    }
  }

  /** Filtering by a predicate that holds everywhere keeps everything. */
  lemma {:induction false} WhereAll<T>(s: seq<T>, p: T -> bool)
    requires forall i :: 0 <= i < |s| ==> p(s[i])
    ensures Where(s, p) == s
  {
    if s != [] {
      WhereAll(s[1..], p);
    }
  }

  /** Filtering by a predicate that holds nowhere leaves nothing. */
  lemma {:induction false} WhereNone<T>(s: seq<T>, p: T -> bool)
    requires forall i :: 0 <= i < |s| ==> !p(s[i])
    ensures Where(s, p) == []
  {
    if s != [] {
      WhereNone(s[1..], p);
    }
  }

  /** Taking the last element off `a` and one equal element out of `b` keeps two permutations permutations. */
  lemma PermutationWithoutLast<T>(a: seq<T>, b: seq<T>, j: nat)
    requires multiset(a) == multiset(b)
    requires a != [] && j < |b| && b[j] == a[|a| - 1]
    ensures multiset(a[..|a| - 1]) == multiset(b[..j] + b[j + 1..])
  {
    var x := a[|a| - 1];
    assert a == a[..|a| - 1] + [x];
    assert b == b[..j] + [x] + b[j + 1..];
    assert multiset(a[..|a| - 1]) == multiset(a) - multiset{x};
    assert multiset(b[..j] + b[j + 1..]) == multiset(b) - multiset{x};
  }
}
