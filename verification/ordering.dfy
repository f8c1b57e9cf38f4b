/**
 * Ordered listings. A Django `order_by` on one or two columns is modelled
 * by a sort key of two integers compared lexicographically (a descending
 * column contributes its negation); rows with equal keys may come in any
 * order, as in the database.
 */
module Ordering {

  type Key = (int, int)

  predicate KeyLe(a: Key, b: Key) {
    a.0 < b.0 || (a.0 == b.0 && a.1 <= b.1)
  }

  ghost predicate SortedBy<T>(s: seq<T>, key: T -> Key) {
    forall i, j :: 0 <= i < j < |s| ==> KeyLe(key(s[i]), key(s[j]))
  }

  /** Inserts `x` before the first element whose key is not below its own. */
  function InsertBy<T>(s: seq<T>, x: T, key: T -> Key): (r: seq<T>)
    requires SortedBy(s, key)
    ensures SortedBy(r, key)
    ensures multiset(r) == multiset(s) + multiset{x}
  {
    if s == [] then [x]
    else if KeyLe(key(x), key(s[0])) then
      assert s == [s[0]] + s[1..];
      [x] + s
    else
      var rest := InsertBy(s[1..], x, key);
      assert s == [s[0]] + s[1..];
      HeadBelowAll(s, x, rest, key);
      ConsSorted(s[0], rest, key);
      [s[0]] + rest
  }

  /** The first element of a sorted sequence is below its other elements and below any `x` it precedes. */
  lemma HeadBelowAll<T>(s: seq<T>, x: T, rest: seq<T>, key: T -> Key)
    requires s != [] && SortedBy(s, key) && !KeyLe(key(x), key(s[0]))
    requires multiset(rest) == multiset(s[1..]) + multiset{x}
    ensures forall e :: e in rest ==> KeyLe(key(s[0]), key(e))
  {
    forall e | e in rest ensures KeyLe(key(s[0]), key(e)) {
      assert e in multiset(rest);
      if e != x {
        assert e in multiset(s[1..]);
        var j :| 0 <= j < |s[1..]| && s[1..][j] == e;
        assert s[j + 1] == e;
      }
    }
  }

  /** A sorted sequence stays sorted with an element in front that is below all of it. */
  lemma ConsSorted<T>(h: T, r: seq<T>, key: T -> Key)
    requires SortedBy(r, key) && forall e :: e in r ==> KeyLe(key(h), key(e))
    ensures SortedBy([h] + r, key)
  {
    var t := [h] + r;
    forall i, j | 0 <= i < j < |t| ensures KeyLe(key(t[i]), key(t[j])) {
      assert t[j] == r[j - 1];
      if i > 0 {
        assert t[i] == r[i - 1];
      } else {
        assert t[j] in r;
      }
    }
  }

  /** Insertion sort: an ordering of `s` by `key`. */
  function SortBy<T>(s: seq<T>, key: T -> Key): (r: seq<T>)
    ensures SortedBy(r, key)
    ensures multiset(r) == multiset(s)
  {
    if s == [] then []
    else
      assert s == [s[0]] + s[1..];
      InsertBy(SortBy(s[1..], key), s[0], key)
  }

  /** Some enumeration of a finite set, each element once. */
  ghost function Enumerate<K(!new)>(s: set<K>): (r: seq<K>)
    ensures |r| == |s|
    ensures forall k :: k in r <==> k in s
    ensures forall i, j :: 0 <= i < j < |r| ==> r[i] != r[j]
  {
    if s == {} then []
    else
      var k :| k in s;
      Enumerate(s - {k}) + [k]
  }

  /** The values of a map, listed in the order of some enumeration of its keys. */
  ghost function ValuesOf<K(!new), V(!new)>(m: map<K, V>): (r: seq<V>)
    ensures |r| == |m|
    ensures forall v :: v in r <==> v in m.Values
  {
    var ks := Enumerate(m.Keys);
    var r := seq(|ks|, i requires 0 <= i < |ks| => m[ks[i]]);
    ValuesListed(m, ks, r);
    r
  }

  /** Listing the value of each key of an enumeration lists exactly the map's values. */
  lemma ValuesListed<K, V>(m: map<K, V>, ks: seq<K>, r: seq<V>)
    requires forall k :: k in ks <==> k in m
    requires |r| == |ks| && forall i :: 0 <= i < |ks| ==> ks[i] in m && r[i] == m[ks[i]]
    ensures forall v :: v in r <==> v in m.Values
  {
    forall v | v in m.Values ensures v in r {
      var k :| k in m && m[k] == v;
      var i :| 0 <= i < |ks| && ks[i] == k;
      assert r[i] == v;
    }
  }
}
