/**
  The list order of jobs (server/server.go, jobEntryLess): creation time, then job id in
  byte order, and the sorted listings it determines.
 */
module JobOrder {

  /** The sort key of a job; times are nanosecond counts. */
  datatype Key = Key(createdAt: int, id: string)

  /** Go's string order. */
  predicate StrLess(a: string, b: string) {
    b != "" && (a == "" || a[0] < b[0] || (a[0] == b[0] && StrLess(a[1..], b[1..])))
  }

  predicate Less(a: Key, b: Key) {
    if a.createdAt == b.createdAt then StrLess(a.id, b.id) else a.createdAt < b.createdAt
  }

  lemma {:induction false} StrOrder(a: string, b: string, c: string)
    ensures !StrLess(a, a)
    ensures StrLess(a, b) && StrLess(b, c) ==> StrLess(a, c)
    ensures a == b || StrLess(a, b) || StrLess(b, a)
    decreases |a|
  {
    if a != "" {
      StrOrder(a[1..], if b == "" then "" else b[1..], if c == "" then "" else c[1..]);
      assert a == [a[0]] + a[1..];
      assert b != "" ==> b == [b[0]] + b[1..];
    }
  }

  /** Byte order: a proper prefix comes first, and otherwise the first difference decides. */
  lemma {:induction false} StrLessIff(a: string, b: string)
    ensures StrLess(a, b) <==> exists n: nat :: FirstDiffers(a, b, n)
    decreases |a|
  {
    if a != "" && b != "" && a[0] == b[0] {
      StrLessIff(a[1..], b[1..]);
      if n: nat :| FirstDiffers(a[1..], b[1..], n) {
        assert a[..n + 1] == [a[0]] + a[1..][..n] && b[..n + 1] == [b[0]] + b[1..][..n];
        assert FirstDiffers(a, b, n + 1);
      }
      if n: nat :| FirstDiffers(a, b, n) {
        assert a[1..][..n - 1] == a[..n][1..] && b[1..][..n - 1] == b[..n][1..];
        assert FirstDiffers(a[1..], b[1..], n - 1);
      }
    } else {
      assert StrLess(a, b) ==> FirstDiffers(a, b, 0);
      assert forall n: nat :: FirstDiffers(a, b, n) && n > 0 ==> a[..n][0] == b[..n][0];
    }
  }

  ghost predicate FirstDiffers(a: string, b: string, n: nat) {
    n <= |a| && n < |b| && a[..n] == b[..n] && (n == |a| || a[n] < b[n])
  }

  /** The list order is a strict total order. */
  lemma KeyOrder(a: Key, b: Key, c: Key)
    ensures !Less(a, a)
    ensures Less(a, b) && Less(b, c) ==> Less(a, c)
    ensures a == b || Less(a, b) || Less(b, a)
  {
    StrOrder(a.id, b.id, c.id);
  }

  /** The order laws for all keys at once. */
  lemma OrderLaws()
    ensures forall a :: !Less(a, a)
    ensures forall a, b, c :: Less(a, b) && Less(b, c) ==> Less(a, c)
    ensures forall a, b :: a == b || Less(a, b) || Less(b, a)
  {
    forall a, b, c
      ensures !Less(a, a) && (Less(a, b) && Less(b, c) ==> Less(a, c)) && (a == b || Less(a, b) || Less(b, a))
    {
      KeyOrder(a, b, c);
    }
  }

  ghost predicate Sorted(s: seq<Key>) {
    forall i, j :: 0 <= i < j < |s| ==> Less(s[i], s[j])
  }

  function Elements(s: seq<Key>): set<Key> {
    set x | x in s
  }

  function Insert(s: seq<Key>, e: Key): seq<Key> {
    if s == [] || Less(e, s[0]) then [e] + s else [s[0]] + Insert(s[1..], e)
  }

  lemma {:induction false} InsertPermutes(s: seq<Key>, e: Key)
    ensures multiset(Insert(s, e)) == multiset(s) + multiset{e}
  {
    if s != [] && !Less(e, s[0]) {
      InsertPermutes(s[1..], e);
      assert s == [s[0]] + s[1..];
    }
  }

  lemma PrependSorted(x: Key, s: seq<Key>)
    requires Sorted(s) && forall i :: 0 <= i < |s| ==> Less(x, s[i])
    ensures Sorted([x] + s)
  {
  }

  lemma {:induction false} InsertSorted(s: seq<Key>, e: Key)
    requires Sorted(s) && e !in s
    ensures Sorted(Insert(s, e)) && |Insert(s, e)| == |s| + 1
    ensures multiset(Insert(s, e)) == multiset(s) + multiset{e}
  {
    InsertPermutes(s, e);
    InsertLength(s, e);
    if s != [] && Less(e, s[0]) {
      forall i | 0 <= i < |s| ensures Less(e, s[i]) {
        KeyOrder(e, s[0], s[i]);
      }
      PrependSorted(e, s);
    } else if s != [] {
      InsertSorted(s[1..], e);
      KeyOrder(s[0], e, s[0]);
      var r := Insert(s[1..], e);
      forall i | 0 <= i < |r| ensures Less(s[0], r[i]) {
        assert r[i] in multiset(s[1..]) + multiset{e};
      }
      PrependSorted(s[0], r);
    }
  }

  /** The first k of an insertion: the newcomer pushes out the k-th or stays outside. */
  lemma {:induction false} InsertTake(s: seq<Key>, e: Key, k: nat)
    requires Sorted(s) && 0 < k <= |s|
    ensures |Insert(s, e)| == |s| + 1
    ensures Insert(s, e)[..k] == if Less(e, s[k - 1]) then Insert(s[..k - 1], e) else s[..k]
  {
    if Less(e, s[0]) {
      KeyOrder(e, s[0], s[k - 1]);
      assert ([e] + s)[..k] == [e] + s[..k - 1];
    } else if k == 1 {
      InsertLength(s[1..], e);
      assert s[..1] == [s[0]];
    } else {
      var tail := s[1..];
      InsertTake(tail, e, k - 1);
      assert tail[k - 2] == s[k - 1];
      assert s[..k - 1][1..] == tail[..k - 2];
      assert s[..k] == [s[0]] + tail[..k - 1];
      assert ([s[0]] + Insert(tail, e))[..k] == [s[0]] + Insert(tail, e)[..k - 1];
    }
  }

  lemma {:induction false} InsertLength(s: seq<Key>, e: Key)
    ensures |Insert(s, e)| == |s| + 1
  {
    if s != [] {
      InsertLength(s[1..], e);
    }
  }

  /** A sorted sequence is determined by its elements. */
  lemma {:induction false} SortedUnique(a: seq<Key>, b: seq<Key>)
    requires Sorted(a) && Sorted(b) && Elements(a) == Elements(b)
    ensures a == b
    decreases |a|
  {
    OrderLaws();
    assert b != [] ==> b[0] in Elements(b);
    if a != [] {
      assert a[0] in Elements(b) && a[0] in b;
      assert b[0] in Elements(a) && b[0] in a;
      assert a[0] == b[0];
      TailElements(a);
      TailElements(b);
      SortedUnique(a[1..], b[1..]);
    }
  }

  lemma TailElements(s: seq<Key>)
    requires Sorted(s) && s != []
    ensures Elements(s[1..]) == Elements(s) - {s[0]}
  {
    OrderLaws();
    assert s == [s[0]] + s[1..];
  }

  lemma InsertElements(s: seq<Key>, e: Key)
    requires Sorted(s) && e !in s
    ensures Elements(Insert(s, e)) == Elements(s) + {e}
  {
    InsertSorted(s, e);
    forall y ensures y in Insert(s, e) <==> y in s || y == e {
      assert y in Insert(s, e) <==> y in multiset(Insert(s, e));
    }
  }

  ghost function AnyOf(keys: set<Key>): (x: Key)
    requires keys != {}
    ensures x in keys
  {
    var x :| x in keys;
    x
  }

  /** The sorted listing of a set of keys. */
  ghost function Listing(keys: set<Key>): seq<Key> {
    if keys == {} then [] else Insert(Listing(keys - {AnyOf(keys)}), AnyOf(keys))
  }

  lemma {:induction false} ListingSorted(keys: set<Key>)
    ensures Sorted(Listing(keys)) && Elements(Listing(keys)) == keys && |Listing(keys)| == |keys|
  {
    if keys != {} {
      var x := AnyOf(keys);
      ListingSorted(keys - {x});
      var rest := Listing(keys - {x});
      assert x !in rest by { assert x !in Elements(rest); }
      InsertSorted(rest, x);
      InsertElements(rest, x);
    }
  }

  lemma ListingIs(keys: set<Key>, s: seq<Key>)
    requires Sorted(s) && Elements(s) == keys
    ensures Listing(keys) == s
  {
    ListingSorted(keys);
    SortedUnique(Listing(keys), s);
  }
}
