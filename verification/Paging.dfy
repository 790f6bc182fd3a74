/**
  Following next-cursors from page to page (section 6.6 of the ARCP v1.1 draft) while the
  job table changes between calls. A page and its cursor are what Listings.ListJobs returns,
  which it does for every limit a page can be allocated for.
 */
module Paging {
  import opened Base
  import opened Text
  import opened JobOrder
  import opened Cursors
  import opened Listings

  /** The keys one call found visible; the next call may find others. */
  type Snapshot = set<Key>

  /** Everything returned by calling listJobs with `cursor`, then with each next cursor as it
      comes back, until it is empty or the calls run out. */
  ghost function Calls(tables: seq<Snapshot>, cursor: string, limit: int): seq<Key> {
    if tables == [] then []
    else
      var cur := DecodeCursor(cursor);
      Page(tables[0], cur, limit) +
      match Next(tables[0], cur, limit)
      case None => []
      case Some(k) => Calls(tables[1..], EncodeCursor(k), limit)
  }

  /** The last call returned an empty next cursor. */
  ghost predicate Exhausted(tables: seq<Snapshot>, cursor: string, limit: int) {
    tables != [] &&
    match Next(tables[0], DecodeCursor(cursor), limit)
    case None => true
    case Some(k) => Exhausted(tables[1..], EncodeCursor(k), limit)
  }

  /** Creation times an int64 nanosecond count can hold. */
  ghost predicate InRange(keys: Snapshot) {
    forall k :: k in keys ==> -I64 <= k.createdAt < I64
  }

  ghost predicate AllInRange(tables: seq<Snapshot>) {
    forall i :: 0 <= i < |tables| ==> InRange(tables[i])
  }

  // ---------------------------------------------------------------- the same run on keys

  function Past(k: Key): Cursor {
    After(k.createdAt, k.id)
  }

  ghost function Follow(tables: seq<Snapshot>, cur: Cursor, limit: int): seq<Key> {
    if tables == [] then []
    else
      Page(tables[0], cur, limit) +
      match Next(tables[0], cur, limit)
      case None => []
      case Some(k) => Follow(tables[1..], Past(k), limit)
  }

  ghost predicate Finished(tables: seq<Snapshot>, cur: Cursor, limit: int) {
    tables != [] &&
    match Next(tables[0], cur, limit)
    case None => true
    case Some(k) => Finished(tables[1..], Past(k), limit)
  }

  lemma PageWithin(keys: Snapshot, cur: Cursor, limit: int, x: Key)
    requires x in Page(keys, cur, limit)
    ensures x in keys && AfterCursor(cur, x)
  {
    ListingSorted(Beyond(keys, cur));
    assert x in Listing(Beyond(keys, cur));
    assert x in Elements(Listing(Beyond(keys, cur)));
  }

  lemma NextIsLast(keys: Snapshot, cur: Cursor, limit: int)
    requires Next(keys, cur, limit).Some?
    ensures var page := Page(keys, cur, limit);
            page != [] && page[|page| - 1] == Next(keys, cur, limit).value
  {
  }

  lemma PageFacts(keys: Snapshot, cur: Cursor, limit: int)
    ensures Sorted(Page(keys, cur, limit))
    ensures forall x <- Page(keys, cur, limit) :: x in keys && AfterCursor(cur, x)
    ensures Next(keys, cur, limit).Some? ==>
              var page := Page(keys, cur, limit);
              page != [] && page[|page| - 1] == Next(keys, cur, limit).value && Next(keys, cur, limit).value in page
  {
    ListingSorted(Beyond(keys, cur));
    forall x | x in Page(keys, cur, limit) ensures x in keys && AfterCursor(cur, x) {
      PageWithin(keys, cur, limit, x);
    }
    if Next(keys, cur, limit).Some? {
      NextIsLast(keys, cur, limit);
    }
  }

  /** The cursor strings lose nothing. */
  lemma {:induction false} CallsFollow(tables: seq<Snapshot>, cursor: string, limit: int)
    requires AllInRange(tables)
    ensures Calls(tables, cursor, limit) == Follow(tables, DecodeCursor(cursor), limit)
    ensures Exhausted(tables, cursor, limit) == Finished(tables, DecodeCursor(cursor), limit)
    decreases |tables|
  {
    if tables != [] {
      var cur := DecodeCursor(cursor);
      var next := Next(tables[0], cur, limit);
      if next.Some? {
        PageFacts(tables[0], cur, limit);
        assert InRange(tables[0]);
        CursorRoundTrip(next.value);
        CallsFollow(tables[1..], EncodeCursor(next.value), limit);
      }
    }
  }

  // ---------------------------------------------------------------- nothing twice

  lemma SortedConcat(a: seq<Key>, b: seq<Key>)
    requires Sorted(a) && Sorted(b) && a != [] && forall y <- b :: Less(a[|a| - 1], y)
    ensures Sorted(a + b)
  {
    var s := a + b;
    forall i, j | 0 <= i < j < |s| ensures Less(s[i], s[j]) {
      if i < |a| <= j {
        var last := a[|a| - 1];
        assert s[j] == b[j - |a|] && b[j - |a|] in b;
        if i < |a| - 1 {
          assert Less(a[i], last);
          KeyOrder(s[i], last, s[j]);
        }
      } else if |a| <= i {
        assert s[i] == b[i - |a|] && s[j] == b[j - |a|];
      } else {
        assert s[i] == a[i] && s[j] == a[j];
      }
    }
  }

  lemma Onward(cur: Cursor, k: Key, y: Key)
    requires !cur.Legacy? && AfterCursor(cur, k) && Less(k, y)
    ensures AfterCursor(cur, y)
  {
    if cur.After? {
      KeyOrder(Key(cur.ts, cur.id), k, y);
    }
  }

  ghost predicate SeenIn(tables: seq<Snapshot>, x: Key) {
    exists i :: 0 <= i < |tables| && x in tables[i]
  }

  lemma {:induction false} FollowAscends(tables: seq<Snapshot>, cur: Cursor, limit: int)
    ensures Sorted(Follow(tables, cur, limit))
    ensures !cur.Legacy? ==> forall x <- Follow(tables, cur, limit) :: AfterCursor(cur, x)
    decreases |tables|
  {
    if tables != [] {
      PageFacts(tables[0], cur, limit);
      var next := Next(tables[0], cur, limit);
      if next.Some? {
        var k := next.value;
        var rest := Follow(tables[1..], Past(k), limit);
        FollowAscends(tables[1..], Past(k), limit);
        forall y | y in rest ensures Less(k, y) && (!cur.Legacy? ==> AfterCursor(cur, y)) {
          assert AfterCursor(Past(k), y);
          if !cur.Legacy? {
            Onward(cur, k, y);
          }
        }
        SortedConcat(Page(tables[0], cur, limit), rest);
      }
    }
  }

  lemma {:induction false} FollowSeen(tables: seq<Snapshot>, cur: Cursor, limit: int, x: Key)
    requires x in Follow(tables, cur, limit)
    ensures SeenIn(tables, x)
    decreases |tables|
  {
    PageFacts(tables[0], cur, limit);
    if x in Page(tables[0], cur, limit) {
      assert x in tables[0];
    } else {
      FollowSeen(tables[1..], Past(Next(tables[0], cur, limit).value), limit, x);
      var i :| 0 <= i < |tables[1..]| && x in tables[1..][i];
      assert x in tables[i + 1];
    }
  }

  /** However the table changes between calls, the keys returned are strictly ascending, so
      none comes twice, and each was visible at some call. */
  lemma PagesAscend(tables: seq<Snapshot>, cursor: string, limit: int)
    requires AllInRange(tables)
    ensures Sorted(Calls(tables, cursor, limit))
    ensures forall x <- Calls(tables, cursor, limit) :: SeenIn(tables, x)
  {
    CallsFollow(tables, cursor, limit);
    FollowAscends(tables, DecodeCursor(cursor), limit);
    forall x | x in Calls(tables, cursor, limit) ensures SeenIn(tables, x) {
      FollowSeen(tables, DecodeCursor(cursor), limit, x);
    }
  }

  /** No job is returned twice, given that a job keeps its creation time. */
  lemma NoJobTwice(tables: seq<Snapshot>, cursor: string, limit: int, i: nat, j: nat)
    requires AllInRange(tables) && i < j < |Calls(tables, cursor, limit)|
    requires forall x, y :: SeenIn(tables, x) && SeenIn(tables, y) && x.id == y.id ==> x == y
    ensures Calls(tables, cursor, limit)[i].id != Calls(tables, cursor, limit)[j].id
  {
    PagesAscend(tables, cursor, limit);
    var all := Calls(tables, cursor, limit);
    assert all[i] in all && all[j] in all && Less(all[i], all[j]);
    KeyOrder(all[i], all[j], all[i]);
  }

  // ---------------------------------------------------------------- nothing missed

  lemma OnPageOrBeyond(keys: Snapshot, cur: Cursor, limit: int, x: Key)
    requires x in keys && AfterCursor(cur, x)
    ensures x in Page(keys, cur, limit)
            || (Next(keys, cur, limit).Some? && AfterCursor(Past(Next(keys, cur, limit).value), x))
  {
    ListingSorted(Beyond(keys, cur));
    var all := Listing(Beyond(keys, cur));
    assert x in Elements(all);
    var i :| 0 <= i < |all| && all[i] == x;
    if 0 < limit < |all| {
      if i < limit {
        assert all[..limit][i] == x;
      } else {
        assert Less(all[limit - 1], all[i]);
      }
    }
  }

  lemma {:induction false} StableKeyFollowed(tables: seq<Snapshot>, cur: Cursor, limit: int, x: Key)
    requires Finished(tables, cur, limit)
    requires AfterCursor(cur, x) && forall i :: 0 <= i < |tables| ==> x in tables[i]
    ensures x in Follow(tables, cur, limit)
    decreases |tables|
  {
    OnPageOrBeyond(tables[0], cur, limit, x);
    if x !in Page(tables[0], cur, limit) {
      StableKeyFollowed(tables[1..], Past(Next(tables[0], cur, limit).value), limit, x);
    }
  }

  /** A run from the start to the empty next cursor returns every job that was there and
      matched at every call, whatever else came and went. */
  lemma StableJobFound(tables: seq<Snapshot>, limit: int, x: Key)
    requires AllInRange(tables) && Exhausted(tables, "", limit)
    requires forall i :: 0 <= i < |tables| ==> x in tables[i]
    ensures x in Calls(tables, "", limit)
  {
    CallsFollow(tables, "", limit);
    StableKeyFollowed(tables, FromStart, limit, x);
  }

  // ---------------------------------------------------------------- a table at rest

  /** Past the n-th key of the listing lies the rest of the listing. */
  lemma DropToCursor(keys: Snapshot, cur: Cursor, n: nat)
    requires !cur.Legacy? && 0 < n <= |Listing(Beyond(keys, cur))|
    ensures var all := Listing(Beyond(keys, cur)); Listing(Beyond(keys, Past(all[n - 1]))) == all[n..]
  {
    ListingSorted(Beyond(keys, cur));
    var all := Listing(Beyond(keys, cur));
    var k := all[n - 1];
    var next := Beyond(keys, Past(k));
    assert k in Elements(all);
    forall x ensures x in next <==> x in Elements(all[n..]) {
      if x in next {
        Onward(cur, k, x);
        assert x in Elements(all);
        var i :| 0 <= i < |all| && all[i] == x;
        KeyOrder(k, x, k);
        assert i >= n;
        assert all[n..][i - n] == x;
      }
      if x in all[n..] {
        var i :| 0 <= i < |all| - n && all[n..][i] == x;
        assert Less(all[n - 1], all[n + i]);
        assert x in Elements(all);
      }
    }
    ListingIs(next, all[n..]);
  }

  ghost predicate AtRest(tables: seq<Snapshot>, keys: Snapshot) {
    forall i :: 0 <= i < |tables| ==> tables[i] == keys
  }

  lemma {:induction false} FollowAtRest(tables: seq<Snapshot>, keys: Snapshot, cur: Cursor, limit: int)
    requires AtRest(tables, keys) && !cur.Legacy? && |tables| > |Listing(Beyond(keys, cur))|
    ensures Finished(tables, cur, limit) && Follow(tables, cur, limit) == Listing(Beyond(keys, cur))
    decreases |tables|
  {
    var all := Listing(Beyond(keys, cur));
    if 0 < limit < |all| {
      DropToCursor(keys, cur, limit);
      FollowAtRest(tables[1..], keys, Past(all[limit - 1]), limit);
      assert all == all[..limit] + all[limit..];
    }
  }

  /** Over a table at rest the run ends within one call per job and one more, and the pages
      concatenate to the sorted list of what lies after the cursor, any but a bare job id. */
  lemma PagesConcatenate(tables: seq<Snapshot>, keys: Snapshot, cursor: string, limit: int)
    requires AtRest(tables, keys) && InRange(keys) && |tables| > |keys|
    requires cursor == "" || '|' in cursor
    ensures Exhausted(tables, cursor, limit)
    ensures Calls(tables, cursor, limit) == Listing(Beyond(keys, DecodeCursor(cursor)))
    ensures cursor == "" ==> Calls(tables, cursor, limit) == Listing(keys)
  {
    CallsFollow(tables, cursor, limit);
    var cur := DecodeCursor(cursor);
    assert !cur.Legacy? by {
      HasSeparator(cursor);
    }
    assert Beyond(keys, FromStart) == keys;
    ListingSorted(Beyond(keys, cur));
    SubsetSize(Beyond(keys, cur), keys);
    FollowAtRest(tables, keys, cur, limit);
  }

  lemma HasSeparator(cursor: string)
    requires cursor == "" || '|' in cursor
    ensures cursor == "" || IndexOf(cursor, "|") >= 0
  {
    if i :| 0 <= i < |cursor| && cursor[i] == '|' {
      assert HasPrefix(cursor[i..], "|");
    }
  }

  lemma SubsetSize(a: Snapshot, b: Snapshot)
    requires a <= b
    ensures |a| <= |b|
  {
    assert b == a + (b - a);
  }

  // ---------------------------------------------------------------- from a bare job id

  /** Every key behind the first page has an id behind `id`. */
  ghost predicate NoneTurnsUp(keys: Snapshot, id: string, limit: int) {
    match Next(keys, Legacy(id), limit)
    case None => true
    case Some(last) => forall k <- keys :: Less(last, k) ==> StrLess(id, k.id)
  }

  lemma RestHolds(keys: Snapshot, id: string, n: nat, x: Key)
    requires 0 < n <= |Listing(Beyond(keys, Legacy(id)))|
    ensures var all := Listing(Beyond(keys, Legacy(id)));
            x in all[n..] <==> x in keys && StrLess(id, x.id) && Less(all[n - 1], x)
  {
    var all := Listing(Beyond(keys, Legacy(id)));
    ListingSorted(Beyond(keys, Legacy(id)));
    BehindIff(all, n, x);
    assert x in all <==> x in Elements(all);
  }

  lemma RestIff(keys: Snapshot, id: string, n: nat)
    requires 0 < n <= |Listing(Beyond(keys, Legacy(id)))|
    ensures var all := Listing(Beyond(keys, Legacy(id)));
            Listing(Beyond(keys, Past(all[n - 1]))) == all[n..] <==>
              forall k <- keys :: Less(all[n - 1], k) ==> StrLess(id, k.id)
  {
    var all := Listing(Beyond(keys, Legacy(id)));
    var last, rest := all[n - 1], all[n..];
    var beyond := Beyond(keys, Past(last));
    ListingSorted(beyond);
    if k :| k in keys && Less(last, k) && !StrLess(id, k.id) {
      RestHolds(keys, id, n, k);
      assert k in beyond && k in Elements(Listing(beyond));
    } else {
      forall x ensures x in rest <==> x in beyond {
        RestHolds(keys, id, n, x);
      }
      assert Elements(rest) == beyond;
      assert Sorted(rest) by {
        ListingSorted(Beyond(keys, Legacy(id)));
      }
      ListingIs(beyond, rest);
    }
  }

  lemma BehindIff(all: seq<Key>, n: nat, x: Key)
    requires Sorted(all) && 0 < n <= |all|
    ensures x in all[n..] <==> x in all && Less(all[n - 1], x)
  {
    if x in all[n..] {
      var i :| 0 <= i < |all| - n && all[n..][i] == x;
      assert Less(all[n - 1], all[n + i]);
    }
    if x in all && Less(all[n - 1], x) {
      var i :| 0 <= i < |all| && all[i] == x;
      KeyOrder(all[n - 1], x, all[n - 1]);
      assert i >= n;
      assert all[n..][i - n] == x;
    }
  }

  lemma PrefixCancels(all: seq<Key>, n: nat, rest: seq<Key>)
    requires n <= |all|
    ensures all[..n] + rest == all <==> rest == all[n..]
  {
    assert (all[..n] + rest)[n..] == rest;
    assert all == all[..n] + all[n..];
  }

  lemma {:induction false} FirstThenRest(tables: seq<Snapshot>, keys: Snapshot, id: string, limit: int)
    requires AtRest(tables, keys) && |tables| > |keys| + 1 && 0 < limit < |Listing(Beyond(keys, Legacy(id)))|
    ensures var all := Listing(Beyond(keys, Legacy(id)));
            Follow(tables, Legacy(id), limit) == all[..limit] + Listing(Beyond(keys, Past(all[limit - 1])))
  {
    var last := Listing(Beyond(keys, Legacy(id)))[limit - 1];
    ListingSorted(Beyond(keys, Past(last)));
    SubsetSize(Beyond(keys, Past(last)), keys);
    FollowAtRest(tables[1..], keys, Past(last), limit);
    assert tables[0] == keys;
  }

  /** A bare job id selects by id but the pages are ordered by time, so behind the first page
      earlier ids can turn up: the pages of a table at rest are the ids behind it iff none
      does. */
  lemma {:induction false} BareIdPagesIff(tables: seq<Snapshot>, keys: Snapshot, cursor: string, limit: int)
    requires AtRest(tables, keys) && InRange(keys) && |tables| > |keys| + 1 && cursor != "" && '|' !in cursor
    ensures Calls(tables, cursor, limit) == Listing(Beyond(keys, Legacy(cursor))) <==> NoneTurnsUp(keys, cursor, limit)
  {
    NoSeparator(cursor);
    CallsFollow(tables, cursor, limit);
    var all := Listing(Beyond(keys, Legacy(cursor)));
    if 0 < limit < |all| {
      FirstThenRest(tables, keys, cursor, limit);
      PrefixCancels(all, limit, Listing(Beyond(keys, Past(all[limit - 1]))));
      RestIff(keys, cursor, limit);
    } else {
      assert tables[0] == keys;
    }
  }

  // ---------------------------------------------------------------- in terms of jobs

  /** The pages of a table at rest hold exactly the jobs asked for: the caller's own that pass
      the filter and sort after the cursor. */
  lemma JobListedIff(tables: seq<Snapshot>, jobs: Table, principal: string, f: Filter,
                     cursor: string, limit: int, k: Key)
    requires AtRest(tables, Visible(jobs, principal, f)) && InRange(Visible(jobs, principal, f))
    requires |tables| > |Visible(jobs, principal, f)| && (cursor == "" || '|' in cursor)
    ensures k in Calls(tables, cursor, limit)
       <==> Asked(jobs, principal, f, cursor, k.id) && k.createdAt == jobs[k.id].createdAt
  {
    var keys := Visible(jobs, principal, f);
    PagesConcatenate(tables, keys, cursor, limit);
    ListingSorted(Beyond(keys, DecodeCursor(cursor)));
    VisibleIsAsked(jobs, principal, f, cursor, k);
    assert k in Calls(tables, cursor, limit) <==> k in Elements(Listing(Beyond(keys, DecodeCursor(cursor))));
  }

  ghost predicate AskedIn(tables: seq<Table>, principal: string, f: Filter, k: Key) {
    exists i :: 0 <= i < |tables| && Asked(tables[i], principal, f, "", k.id)
                && k.createdAt == tables[i][k.id].createdAt
  }

  function Snapshots(tables: seq<Table>, principal: string, f: Filter): seq<Snapshot> {
    seq(|tables|, i requires 0 <= i < |tables| => Visible(tables[i], principal, f))
  }

  /** However the table changes between calls, only jobs asked for at some call come back. */
  lemma OnlyAskedJobs(tables: seq<Table>, principal: string, f: Filter, cursor: string, limit: int, k: Key)
    requires AllInRange(Snapshots(tables, principal, f))
    requires k in Calls(Snapshots(tables, principal, f), cursor, limit)
    ensures AskedIn(tables, principal, f, k)
  {
    var snapshots := Snapshots(tables, principal, f);
    PagesAscend(snapshots, cursor, limit);
    var i :| 0 <= i < |snapshots| && k in snapshots[i];
    VisibleIsAsked(tables[i], principal, f, "", k);
    assert Beyond(snapshots[i], FromStart) == snapshots[i];
  }
}
