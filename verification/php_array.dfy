/**
 * PHP arrays with string keys, as the handlers keep them in memory: an
 * ordered list of key/value pairs in which a key occurs at most once.
 * `$a[$k] = $v` replaces the value in place when the key is present and
 * appends the pair otherwise; `unset($a[$k])` drops the pair and keeps the
 * order of the rest.
 */
module PhpArray {
  import opened Php

  type Arr<V> = seq<(string, V)>

  /** The keys in order (`array_keys`). */
  function Keys<V>(a: Arr<V>): (ks: seq<string>)
    ensures |ks| == |a|
    ensures forall i :: 0 <= i < |a| ==> ks[i] == a[i].0
  {
    seq(|a|, i requires 0 <= i < |a| => a[i].0)
  }

  predicate HasKey<V>(a: Arr<V>, k: string) {
    exists i :: 0 <= i < |a| && a[i].0 == k
  }

  /** The representation invariant: no key occurs twice. */
  predicate UniqueKeys<V>(a: Arr<V>) {
    forall i, j :: 0 <= i < j < |a| ==> a[i].0 != a[j].0
  }

  /** `$a[$k] ?? null`. */
  function Get<V>(a: Arr<V>, k: string): (r: Option<V>)
    ensures r.None? <==> !HasKey(a, k)
    ensures r.Some? ==> (k, r.value) in a
    ensures UniqueKeys(a) ==> forall i :: 0 <= i < |a| && a[i].0 == k ==> r == Some(a[i].1)
    decreases |a|
  {
    if a == [] then None
    else if a[0].0 == k then Some(a[0].1)
    else
      var r := Get(a[1..], k);
      assert forall i :: 1 <= i < |a| ==> a[i] == a[1..][i - 1];
      r
  }

  /** A key is in a non-empty list when it is the first key or in the tail. */
  lemma HasKeyTail<V>(a: Arr<V>, k: string)
    requires a != []
    ensures HasKey(a, k) <==> a[0].0 == k || HasKey(a[1..], k)
  {
    if HasKey(a, k) && a[0].0 != k {
      var i :| 0 <= i < |a| && a[i].0 == k;
      assert a[1..][i - 1].0 == k;
    }
    if HasKey(a[1..], k) {
      var i :| 0 <= i < |a[1..]| && a[1..][i].0 == k;
      assert a[i + 1].0 == k;
    }
  }

  /** The tail of a list with unique keys has unique keys, none of them the first key. */
  lemma UniqueTail<V>(a: Arr<V>)
    requires a != [] && UniqueKeys(a)
    ensures UniqueKeys(a[1..])
    ensures !HasKey(a[1..], a[0].0)
  {
    forall i, j | 0 <= i < j < |a[1..]| ensures a[1..][i].0 != a[1..][j].0 {
      assert a[1..][i] == a[i + 1] && a[1..][j] == a[j + 1];
    }
    forall j | 0 <= j < |a[1..]| ensures a[1..][j].0 != a[0].0 {
      assert a[1..][j] == a[j + 1];
    }
  }

  /** The key of a pair in the list is a key of the list. */
  lemma MemberHasKey<V>(a: Arr<V>, e: (string, V))
    requires e in a
    ensures HasKey(a, e.0)
  {
    var i :| 0 <= i < |a| && a[i] == e;
  }

  /** `$a[$k] = $v`: the key now reads `v`; every other key reads as before. */
  function Put<V>(a: Arr<V>, k: string, v: V): (r: Arr<V>)
    ensures Get(r, k) == Some(v)
    ensures forall j :: j != k ==> Get(r, j) == Get(a, j)
    decreases |a|
  {
    if a == [] then [(k, v)]
    else if a[0].0 == k then [(k, v)] + a[1..]
    else [a[0]] + Put(a[1..], k, v)
  }

  /** Writing a key adds that key and keeps all others. */
  lemma PutKeys<V>(a: Arr<V>, k: string, v: V)
    ensures forall j :: HasKey(Put(a, k, v), j) <==> HasKey(a, j) || j == k
  {
    forall j ensures HasKey(Put(a, k, v), j) <==> HasKey(a, j) || j == k {
      if j != k {
        assert Get(Put(a, k, v), j) == Get(a, j);
      }
    }
  }

  /** A new key is appended at the end. */
  lemma {:induction false} PutAppends<V>(a: Arr<V>, k: string, v: V)
    requires !HasKey(a, k)
    ensures Put(a, k, v) == a + [(k, v)]
    decreases |a|
  {
    if a != [] {
      HasKeyTail(a, k);
      PutAppends(a[1..], k, v);
      Assoc([a[0]], a[1..], [(k, v)]);
      assert [a[0]] + a[1..] == a;
    }
  }

  /** A present key keeps its place, and so does every other key. */
  lemma {:induction false} PutInPlace<V>(a: Arr<V>, k: string, v: V)
    requires HasKey(a, k)
    ensures |Put(a, k, v)| == |a|
    ensures forall i :: 0 <= i < |a| ==> Put(a, k, v)[i].0 == a[i].0
    decreases |a|
  {
    HasKeyTail(a, k);
    if a[0].0 != k {
      PutInPlace(a[1..], k, v);
      var t := Put(a[1..], k, v);
      assert Put(a, k, v) == [a[0]] + t;
      forall i | 0 <= i < |a| ensures Put(a, k, v)[i].0 == a[i].0 {
        if i > 0 {
          assert Put(a, k, v)[i] == t[i - 1];
          assert a[i] == a[1..][i - 1];
        }
      }
    }
  }

  /** Writing a key keeps the keys unique and brings in no pair but the written one. */
  lemma {:induction false} PutUnique<V>(a: Arr<V>, k: string, v: V)
    ensures forall e :: e in Put(a, k, v) ==> e in a || e == (k, v)
    ensures UniqueKeys(a) ==> UniqueKeys(Put(a, k, v))
    decreases |a|
  {
    if a != [] {
      if UniqueKeys(a) {
        UniqueTail(a);
      }
      if a[0].0 != k {
        PutUnique(a[1..], k, v);
        var t := Put(a[1..], k, v);
        if UniqueKeys(a) {
          forall e | e in t ensures e.0 != a[0].0 {
            if e != (k, v) {
              MemberHasKey(a[1..], e);
            }
          }
        }
      } else if UniqueKeys(a) {
        forall j | 0 <= j < |a[1..]| ensures a[1..][j].0 != k {
          assert a[1..][j] in a[1..];
          MemberHasKey(a[1..], a[1..][j]);
        }
      }
    }
  }

  /** `unset($a[$k])`: the key is gone; every other key reads as before. */
  function Remove<V>(a: Arr<V>, k: string): (r: Arr<V>)
    ensures !HasKey(r, k)
    ensures forall j :: j != k ==> Get(r, j) == Get(a, j)
    decreases |a|
  {
    if a == [] then []
    else
      var t := Remove(a[1..], k);
      if a[0].0 == k then t else [a[0]] + t
  }

  /** Removing keeps only pairs that were there. */
  lemma {:induction false} RemoveSubset<V>(a: Arr<V>, k: string)
    ensures forall e :: e in Remove(a, k) ==> e in a
    decreases |a|
  {
    if a != [] {
      RemoveSubset(a[1..], k);
    }
  }

  /** Removing an absent key changes nothing. */
  lemma {:induction false} RemoveAbsent<V>(a: Arr<V>, k: string)
    requires !HasKey(a, k)
    ensures Remove(a, k) == a
    decreases |a|
  {
    if a != [] {
      HasKeyTail(a, k);
      RemoveAbsent(a[1..], k);
      assert a == [a[0]] + a[1..];
    }
  }

  /** Removing keeps the keys unique. */
  lemma {:induction false} RemoveUnique<V>(a: Arr<V>, k: string)
    requires UniqueKeys(a)
    ensures UniqueKeys(Remove(a, k))
    decreases |a|
  {
    if a != [] {
      UniqueTail(a);
      RemoveUnique(a[1..], k);
      RemoveSubset(a[1..], k);
      var t := Remove(a[1..], k);
      if a[0].0 != k {
        forall e | e in t ensures e.0 != a[0].0 {
          MemberHasKey(a[1..], e);
        }
      }
    }
  }

  /** Removing the first key of a list with unique keys drops just that pair. */
  lemma RemoveHead<V>(a: Arr<V>, k: string)
    requires UniqueKeys(a) && a != [] && a[0].0 == k
    ensures Remove(a, k) == a[1..]
  {
    UniqueTail(a);
    RemoveAbsent(a[1..], k);
  }

  /** Removing a present key drops exactly its one pair and keeps the others in order. */
  lemma {:induction false} RemoveAt<V>(a: Arr<V>, k: string, i: nat)
    requires UniqueKeys(a) && i < |a| && a[i].0 == k
    ensures Remove(a, k) == a[..i] + a[i + 1..]
    decreases |a|
  {
    if i == 0 {
      RemoveHead(a, k);
      assert a[..0] + a[1..] == a[1..];
    } else {
      UniqueTail(a);
      assert a[1..][i - 1].0 == k;
      RemoveAt(a[1..], k, i - 1);
      assert a[1..][..i - 1] == a[1..i];
      assert a[1..][i..] == a[i + 1..];
      assert a[0].0 != k;
      assert Remove(a, k) == [a[0]] + (a[1..i] + a[i + 1..]);
      assert a[..i] == [a[0]] + a[1..i];
      Assoc([a[0]], a[1..i], a[i + 1..]);
    }
  }

  /** `array_values(array_filter($a, $keep))`: the kept elements, in their order. */
  function FilterSeq<T(!new)>(s: seq<T>, keep: T -> bool): (r: seq<T>)
    ensures |r| <= |s|
    decreases |s|
  {
    if s == [] then [] else (if keep(s[0]) then [s[0]] else []) + FilterSeq(s[1..], keep)
  }

  /** An element is kept exactly when it is in the list and passes the test. */
  lemma {:induction false} FilterSeqMembers<T(!new)>(s: seq<T>, keep: T -> bool)
    ensures forall x :: x in FilterSeq(s, keep) <==> x in s && keep(x)
    decreases |s|
  {
    if s != [] {
      FilterSeqMembers(s[1..], keep);
      assert s == [s[0]] + s[1..];
    }
  }

  /** Filtering a list one element longer adds that element when it passes. */
  lemma FilterSeqSnoc<T(!new)>(s: seq<T>, j: nat, keep: T -> bool)
    requires j < |s|
    ensures FilterSeq(s[..j + 1], keep) == FilterSeq(s[..j], keep) + (if keep(s[j]) then [s[j]] else [])
  {
    FilterSeqConcat(s[..j], [s[j]], keep);
    assert s[..j + 1] == s[..j] + [s[j]];
  }

  /** Filtering a list whose elements are all kept returns it unchanged. */
  lemma {:induction false} FilterSeqKeepsAll<T(!new)>(s: seq<T>, keep: T -> bool)
    requires forall x :: x in s ==> keep(x)
    ensures FilterSeq(s, keep) == s
    decreases |s|
  {
    if s != [] {
      assert s[0] in s;
      assert forall x :: x in s[1..] ==> x in s;
      FilterSeqKeepsAll(s[1..], keep);
      assert s == [s[0]] + s[1..];
    }
  }

  /** Filtering twice by the same test is filtering once. */
  lemma FilterSeqIdempotent<T(!new)>(s: seq<T>, keep: T -> bool)
    ensures FilterSeq(FilterSeq(s, keep), keep) == FilterSeq(s, keep)
  {
    FilterSeqMembers(s, keep);
    FilterSeqKeepsAll(FilterSeq(s, keep), keep);
  }

  /** Filtering a concatenation filters each part. */
  lemma {:induction false} FilterSeqConcat<T(!new)>(a: seq<T>, b: seq<T>, keep: T -> bool)
    ensures FilterSeq(a + b, keep) == FilterSeq(a, keep) + FilterSeq(b, keep)
    decreases |a|
  {
    if a == [] {
      assert a + b == b;
    } else {
      assert (a + b)[0] == a[0];
      assert (a + b)[1..] == a[1..] + b;
      FilterSeqConcat(a[1..], b, keep);
      var h := if keep(a[0]) then [a[0]] else [];
      Assoc(h, FilterSeq(a[1..], keep), FilterSeq(b, keep));
    }
  }

  /** When only element i fails the test, filtering drops exactly it and keeps the others in order. */
  lemma {:induction false} FilterSeqDropsOne<T(!new)>(s: seq<T>, keep: T -> bool, i: nat)
    requires i < |s| && !keep(s[i])
    requires forall j :: 0 <= j < |s| && j != i ==> keep(s[j])
    ensures FilterSeq(s, keep) == s[..i] + s[i + 1..]
    decreases |s|
  {
    var t := s[1..];
    assert forall j :: 0 <= j < |t| ==> t[j] == s[j + 1];
    if i == 0 {
      forall x | x in t ensures keep(x) {
        var j :| 0 <= j < |t| && t[j] == x;
      }
      FilterSeqKeepsAll(t, keep);
      assert s[..0] + s[1..] == t;
    } else {
      FilterSeqDropsOne(t, keep, i - 1);
      assert t[..i - 1] == s[1..i];
      assert t[i..] == s[i + 1..];
      Assoc([s[0]], s[1..i], s[i + 1..]);
      assert [s[0]] + s[1..i] == s[..i];
    }
  }

  /** The texts of a list of items, concatenated in order. */
  function Concat<T>(items: seq<T>, text: T -> string): string
    decreases |items|
  {
    if items == [] then "" else Concat(items[..|items| - 1], text) + text(items[|items| - 1])
  }

  lemma ConcatSnoc<T>(items: seq<T>, k: nat, text: T -> string)
    requires k < |items|
    ensures Concat(items[..k + 1], text) == Concat(items[..k], text) + text(items[k])
  {
    assert items[..k + 1][..k] == items[..k];
  }

  lemma ConcatAppend<T>(items: seq<T>, x: T, text: T -> string)
    ensures Concat(items + [x], text) == Concat(items, text) + text(x)
  {
    assert (items + [x])[..|items|] == items;
  }

  /**
   * Concatenating the kept items is concatenating every item's piece, where
   * a dropped item's piece is empty.
   */
  lemma {:induction false} ConcatFilter<T(!new)>(items: seq<T>, keep: T -> bool, text: T -> string, piece: T -> string)
    requires forall t :: piece(t) == if keep(t) then text(t) else ""
    ensures Concat(FilterSeq(items, keep), text) == Concat(items, piece)
    decreases |items|
  {
    if items != [] {
      var k := |items| - 1;
      assert items[..k + 1] == items;
      FilterSeqSnoc(items, k, keep);
      ConcatFilter(items[..k], keep, text, piece);
      var f := FilterSeq(items[..k], keep);
      if keep(items[k]) {
        assert (f + [items[k]])[..|f|] == f;
      } else {
        assert f + [] == f;
      }
    }
  }

  /** The pieces of a list of items, appended in order. */
  function Collect<T, U>(items: seq<T>, piece: T -> seq<U>): seq<U>
    decreases |items|
  {
    if items == [] then [] else Collect(items[..|items| - 1], piece) + piece(items[|items| - 1])
  }

  lemma {:induction false} CollectConcat<T, U>(x: seq<T>, y: seq<T>, piece: T -> seq<U>)
    ensures Collect(x + y, piece) == Collect(x, piece) + Collect(y, piece)
    decreases |y|
  {
    if y == [] {
      assert x + y == x;
    } else {
      var y' := y[..|y| - 1];
      assert (x + y)[..|x + y| - 1] == x + y';
      assert (x + y)[|x + y| - 1] == y[|y| - 1];
      CollectConcat(x, y', piece);
      Assoc(Collect(x, piece), Collect(y', piece), piece(y[|y| - 1]));
    }
  }

  /** An element is collected exactly when it is in the piece of some item. */
  lemma {:induction false} CollectMembers<T, U>(items: seq<T>, piece: T -> seq<U>, u: U)
    ensures u in Collect(items, piece) <==> exists i :: 0 <= i < |items| && u in piece(items[i])
    decreases |items|
  {
    if items != [] {
      var n := |items| - 1;
      var init := items[..n];
      CollectMembers(init, piece, u);
      if u in Collect(items, piece) {
        if u in Collect(init, piece) {
          var i :| 0 <= i < |init| && u in piece(init[i]);
          assert init[i] == items[i];
        } else {
          assert u in piece(items[n]);
        }
      }
      if exists i :: 0 <= i < |items| && u in piece(items[i]) {
        var i :| 0 <= i < |items| && u in piece(items[i]);
        if i < n {
          assert init[i] == items[i];
        }
      }
    }
  }
}
