/**
  session.list_jobs (server/server.go, listJobs): one scan of the job table through a
  bounded heap must give the same page as sorting everything, dropping to the cursor and
  taking the limit; and following next-cursors must visit every job once.
 */
module Listings {
  import opened Base
  import opened JobOrder
  import opened JobHeap
  import opened Cursors

  /** A job as one call of listJobs reads it. */
  datatype Job = Job(createdAt: int, principal: string, agent: string, status: string)

  datatype Filter = Filter(statuses: set<string>, agent: string, createdAfter: Option<int>, createdBefore: Option<int>)

  /** Empty fields filter nothing; the time bounds are inclusive. */
  predicate Matches(f: Filter, j: Job) {
    && (f.agent != "" ==> j.agent == f.agent)
    && (f.createdAfter.Some? ==> j.createdAt >= f.createdAfter.value)
    && (f.createdBefore.Some? ==> j.createdAt <= f.createdBefore.value)
    && (f.statuses != {} ==> j.status in f.statuses)
  }

  /** The job table, by job id. */
  type Table = map<string, Job>

  function KeyOf(jobs: Table, id: string): Key
    requires id in jobs
  {
    Key(jobs[id].createdAt, id)
  }

  /** The jobs a principal may see that pass the filter. */
  function Visible(jobs: Table, principal: string, f: Filter): set<Key> {
    set id | id in jobs && jobs[id].principal == principal && Matches(f, jobs[id]) :: KeyOf(jobs, id)
  }

  // ---------------------------------------------------------------- the page, by definition

  function Beyond(keys: set<Key>, cur: Cursor): set<Key> {
    set k | k in keys && AfterCursor(cur, k)
  }

  ghost function Page(keys: set<Key>, cur: Cursor, limit: int): seq<Key> {
    var all := Listing(Beyond(keys, cur));
    if 0 < limit < |all| then all[..limit] else all
  }

  /** The key the next cursor points at. */
  ghost function Next(keys: set<Key>, cur: Cursor, limit: int): Option<Key> {
    var all := Listing(Beyond(keys, cur));
    if 0 < limit < |all| then Some(all[limit - 1]) else None
  }

  // ---------------------------------------------------------------- one scan

  function Min(a: nat, b: nat): nat {
    if a < b then a else b
  }

  /** The first `keep` of the listing of what has been scanned. */
  ghost function Kept(seen: set<Key>, keep: nat): (kept: seq<Key>)
    ensures |kept| <= keep
  {
    var all := Listing(seen);
    all[..Min(keep, |all|)]
  }

  lemma ListingInsert(seen: set<Key>, e: Key)
    requires e !in seen
    ensures Listing(seen + {e}) == Insert(Listing(seen), e)
    ensures e !in Listing(seen) && Sorted(Listing(seen)) && |Listing(seen)| == |seen|
  {
    ListingSorted(seen);
    var l := Listing(seen);
    assert e !in l by { assert e !in Elements(l); }
    InsertSorted(l, e);
    InsertElements(l, e);
    ListingIs(seen + {e}, Insert(l, e));
  }

  /** While there is room a scanned entry joins. */
  lemma ScanWithRoom(seen: set<Key>, e: Key, keep: nat)
    requires e !in seen && |Kept(seen, keep)| < keep
    ensures multiset(Kept(seen + {e}, keep)) == multiset(Kept(seen, keep)) + multiset{e}
  {
    ListingInsert(seen, e);
    var all := Listing(seen);
    InsertSorted(all, e);
    assert all[..|all|] == all;
    assert Insert(all, e)[..|all| + 1] == Insert(all, e);
  }

  lemma LastReplaced(all: seq<Key>, e: Key, keep: nat)
    requires Sorted(all) && e !in all && 0 < keep <= |all|
    ensures multiset(Insert(all[..keep - 1], e)) == multiset(all[..keep]) - multiset{all[keep - 1]} + multiset{e}
  {
    var front := all[..keep - 1];
    assert all[..keep] == front + [all[keep - 1]];
    assert e !in front;
    InsertSorted(front, e);
  }

  /** After that it replaces the last kept one if it sorts before it, and is dropped
      otherwise. */
  lemma ScanWhenFull(seen: set<Key>, e: Key, keep: nat)
    requires e !in seen && |Kept(seen, keep)| == keep > 0
    ensures var kept := Kept(seen, keep);
            var kept' := Kept(seen + {e}, keep);
            if Less(e, kept[keep - 1]) then
              multiset(kept') == multiset(kept) - multiset{kept[keep - 1]} + multiset{e}
            else kept' == kept
  {
    ListingInsert(seen, e);
    var all := Listing(seen);
    InsertTake(all, e, keep);
    assert Kept(seen, keep) == all[..keep];
    if Less(e, all[keep - 1]) {
      LastReplaced(all, e, keep);
    }
  }

  lemma LastIsLargest(kept: seq<Key>, x: Key)
    requires Sorted(kept) && x in kept
    ensures x == kept[|kept| - 1] || Less(x, kept[|kept| - 1])
  {
    var j :| 0 <= j < |kept| && kept[j] == x;
  }

  /** What Go's int holds of the sum limit + 1. */
  function Successor(limit: int): int {
    if limit == I64 - 1 then -I64 else limit + 1
  }

  function Room(keep: int): nat {
    if keep < 0 then 0 else keep
  }

  lemma RootIsLast(h: seq<Key>, kept: seq<Key>)
    requires IsHeap(h) && Sorted(kept) && kept != [] && multiset(h) == multiset(kept)
    ensures |h| == |kept| && h[0] == kept[|kept| - 1]
  {
    assert |multiset(h)| == |multiset(kept)|;
    var last := kept[|kept| - 1];
    assert last in multiset(h) && h[0] in multiset(kept);
    var i :| 0 <= i < |h| && h[i] == last;
    RootIsMax(h, i);
    LastIsLargest(kept, h[0]);
    KeyOrder(last, h[0], last);
  }

  lemma KeptSorted(seen: set<Key>, keep: nat)
    ensures Sorted(Kept(seen, keep)) && |Kept(seen, keep)| == Min(keep, |seen|)
  {
    ListingSorted(seen);
  }

  predicate Wanted(jobs: Table, principal: string, f: Filter, cur: Cursor, id: string)
    requires id in jobs
  {
    jobs[id].principal == principal && AfterCursor(cur, KeyOf(jobs, id)) && Matches(f, jobs[id])
  }

  function Scanned(jobs: Table, principal: string, f: Filter, cur: Cursor, ids: set<string>): set<Key> {
    set id | id in ids && id in jobs && Wanted(jobs, principal, f, cur, id) :: KeyOf(jobs, id)
  }

  lemma ScannedAll(jobs: Table, principal: string, f: Filter, cur: Cursor)
    ensures Scanned(jobs, principal, f, cur, jobs.Keys) == Beyond(Visible(jobs, principal, f), cur)
  {
  }

  lemma WantedIsBeyond(jobs: Table, principal: string, f: Filter, cur: Cursor, id: string)
    requires id in jobs && Wanted(jobs, principal, f, cur, id)
    ensures KeyOf(jobs, id) in Beyond(Visible(jobs, principal, f), cur)
  {
  }

  lemma ScannedOne(jobs: Table, principal: string, f: Filter, cur: Cursor, ids: set<string>, id: string)
    requires id in jobs && id !in ids
    ensures var before := Scanned(jobs, principal, f, cur, ids);
            && KeyOf(jobs, id) !in before
            && Scanned(jobs, principal, f, cur, ids + {id})
            == if Wanted(jobs, principal, f, cur, id) then before + {KeyOf(jobs, id)} else before
  {
    var before := Scanned(jobs, principal, f, cur, ids);
    var after := Scanned(jobs, principal, f, cur, ids + {id});
    forall k ensures k in after <==> k in before || (k == KeyOf(jobs, id) && Wanted(jobs, principal, f, cur, id)) {
      assert k in after ==> k.id in ids + {id};
    }
  }

  /** The heap holds the first `keep` of what has been scanned. */
  ghost predicate Holds(h: MaxJobHeap, seen: set<Key>, keep: int)
    reads h
  {
    h.Valid() && multiset(h.items) == multiset(Kept(seen, Room(keep))) && (keep <= 0 ==> seen == {})
  }

  lemma SameLength(a: seq<Key>, b: seq<Key>)
    requires multiset(a) == multiset(b)
    ensures |a| == |b|
  {
    assert |multiset(a)| == |multiset(b)|;
  }

  /** Offer one matching entry to the bounded heap. Without room the source looks at the root,
      which an empty heap does not have: `ok` is false where it panics. */
  method Offer(h: MaxJobHeap, ghost seen: set<Key>, e: Key, keep: int) returns (ok: bool)
    requires e !in seen && Holds(h, seen, keep)
    modifies h
    ensures ok <==> keep > 0
    ensures ok ==> Holds(h, seen + {e}, keep)
  {
    var room := Room(keep);
    KeptSorted(seen, room);
    SameLength(h.items, Kept(seen, room));
    if |h.items| < keep {
      ScanWithRoom(seen, e, room);
      h.Push(e);
    } else {
      if |h.items| == 0 {
        return false;
      }
      Contend(h, seen, e, room);
    }
    ok := true;
  }

  /** A full heap gives up its root for an entry that sorts before it. */
  method Contend(h: MaxJobHeap, ghost seen: set<Key>, e: Key, room: nat)
    requires e !in seen && h.Valid() && multiset(h.items) == multiset(Kept(seen, room))
    requires |Kept(seen, room)| == room > 0
    modifies h
    ensures h.Valid() && multiset(h.items) == multiset(Kept(seen + {e}, room))
  {
    KeptSorted(seen, room);
    RootIsLast(h.items, Kept(seen, room));
    ScanWhenFull(seen, e, room);
    if Less(e, h.items[0]) {
      h.ReplaceTop(e);
    }
  }

  /** The bounded scan of the job table, in any order; not `ok` is a panic. */
  method Scan(h: MaxJobHeap, jobs: Table, principal: string, f: Filter, cur: Cursor, keep: int) returns (ok: bool)
    requires Holds(h, {}, keep)
    modifies h
    ensures ok <==> keep > 0 || Beyond(Visible(jobs, principal, f), cur) == {}
    ensures ok ==> Holds(h, Beyond(Visible(jobs, principal, f), cur), keep)
  {
    var todo := jobs.Keys;
    ghost var done: set<string> := {};
    ghost var seen: set<Key> := {};
    while todo != {}
      invariant todo !! done && todo + done == jobs.Keys
      invariant seen == Scanned(jobs, principal, f, cur, done) && Holds(h, seen, keep)
    {
      var id :| id in todo;
      ScannedOne(jobs, principal, f, cur, done, id);
      if Wanted(jobs, principal, f, cur, id) {
        ok := Offer(h, seen, KeyOf(jobs, id), keep);
        if !ok {
          WantedIsBeyond(jobs, principal, f, cur, id);
          return;
        }
        seen := seen + {KeyOf(jobs, id)};
      }
      todo := todo - {id};
      done := done + {id};
    }
    assert done == jobs.Keys;
    ScannedAll(jobs, principal, f, cur);
    ok := true;
  }

  /** The scan and the drain; None is a panic. */
  method SelectSmallest(jobs: Table, principal: string, f: Filter, cur: Cursor, keep: int)
    returns (page: Option<seq<Key>>)
    ensures page.None? <==> keep <= 0 && Beyond(Visible(jobs, principal, f), cur) != {}
    ensures page.Some? ==> page.value == Kept(Beyond(Visible(jobs, principal, f), cur), Room(keep))
  {
    var h := new MaxJobHeap();
    assert Listing({}) == [];
    var ok := Scan(h, jobs, principal, f, cur, keep);
    if !ok {
      return None;
    }
    KeptSorted(Beyond(Visible(jobs, principal, f), cur), Room(keep));
    var drained := Drain(h, Kept(Beyond(Visible(jobs, principal, f), cur), Room(keep)));
    page := Some(drained);
  }

  /** The unbounded request: collect and sort. */
  method SortAll(keys: set<Key>) returns (out: seq<Key>)
    ensures out == Listing(keys)
  {
    out := [];
    var todo := keys;
    ghost var done: set<Key> := {};
    while todo != {}
      invariant todo !! done && todo + done == keys
      invariant out == Listing(done)
    {
      var k :| k in todo;
      ListingInsert(done, k);
      out := Insert(out, k);
      todo := todo - {k};
      done := done + {k};
    }
    assert done == keys;
  }

  method PopLast(h: MaxJobHeap, ghost kept: seq<Key>) returns (top: Key)
    requires h.Valid() && Sorted(kept) && multiset(h.items) == multiset(kept) && |h.items| > 0
    modifies h
    ensures kept != [] && top == kept[|kept| - 1] && |h.items| < |old(h.items)|
    ensures h.Valid() && multiset(h.items) == multiset(kept[..|kept| - 1])
  {
    SameLength(h.items, kept);
    RootIsLast(h.items, kept);
    top := h.Pop();
    assert kept == kept[..|kept| - 1] + [top];
  }

  /** Popping from the back fills the page in ascending order. */
  method Drain(h: MaxJobHeap, ghost kept: seq<Key>) returns (page: seq<Key>)
    requires h.Valid() && Sorted(kept) && multiset(h.items) == multiset(kept)
    modifies h
    ensures page == kept
  {
    page := [];
    ghost var left := kept;
    while |h.items| > 0
      invariant h.Valid() && Sorted(left) && multiset(h.items) == multiset(left)
      invariant left + page == kept
      decreases |h.items|
    {
      var top := PopLast(h, left);
      Reassociate(left[..|left| - 1], [top], page);
      page := [top] + page;
      left := left[..|left| - 1];
    }
    SameLength(h.items, left);
  }

  /** A listing is asked for this job: it is in the table, the caller's own, passes each field
      of the filter that is set, bounds included, and sorts after the cursor. */
  ghost predicate Asked(jobs: Table, principal: string, f: Filter, cursor: string, id: string) {
    && id in jobs && jobs[id].principal == principal
    && (f.agent == "" || jobs[id].agent == f.agent)
    && (f.statuses == {} || jobs[id].status in f.statuses)
    && (f.createdAfter.None? || f.createdAfter.value <= jobs[id].createdAt)
    && (f.createdBefore.None? || jobs[id].createdAt <= f.createdBefore.value)
    && AfterCursor(DecodeCursor(cursor), Key(jobs[id].createdAt, id))
  }

  /** The keys of exactly the jobs asked for. */
  lemma VisibleIsAsked(jobs: Table, principal: string, f: Filter, cursor: string, k: Key)
    ensures k in Beyond(Visible(jobs, principal, f), DecodeCursor(cursor))
       <==> Asked(jobs, principal, f, cursor, k.id) && k.createdAt == jobs[k.id].createdAt
  {
    if k.id in jobs && k == KeyOf(jobs, k.id) {
      assert k in Visible(jobs, principal, f) <==> jobs[k.id].principal == principal && Matches(f, jobs[k.id]);
    }
  }

  ghost predicate OnPage(jobs: Table, page: seq<Key>, id: string) {
    id in jobs && Key(jobs[id].createdAt, id) in page
  }

  /** One page: jobs asked for only, in list order, no more than the limit; the next cursor is
      empty iff they are all there, and otherwise the page is full, the cursor is its last key
      and everything left out sorts after it. */
  ghost predicate Answers(jobs: Table, principal: string, f: Filter, limit: int, cursor: string, r: Answer)
    requires r.Answer?
  {
    && (forall k <- r.out :: Asked(jobs, principal, f, cursor, k.id) && k.createdAt == jobs[k.id].createdAt)
    && (forall i, j :: 0 <= i < j < |r.out| ==>
          || r.out[i].createdAt < r.out[j].createdAt
          || (r.out[i].createdAt == r.out[j].createdAt && StrLess(r.out[i].id, r.out[j].id)))
    && (limit > 0 ==> |r.out| <= limit)
    && (r.next == "" <==> forall id :: Asked(jobs, principal, f, cursor, id) ==> OnPage(jobs, r.out, id))
    && (r.next != "" ==>
          && 0 < limit == |r.out| && r.next == EncodeCursor(r.out[limit - 1])
          && forall id :: Asked(jobs, principal, f, cursor, id) && !OnPage(jobs, r.out, id) ==>
               Less(r.out[limit - 1], Key(jobs[id].createdAt, id)))
  }

  lemma PageAnswers(jobs: Table, principal: string, f: Filter, limit: int, cursor: string)
    ensures var keys, cur := Visible(jobs, principal, f), DecodeCursor(cursor);
            Answers(jobs, principal, f, limit, cursor, Answer(Page(keys, cur, limit), NextCursor(keys, cur, limit)))
  {
    var keys, cur := Visible(jobs, principal, f), DecodeCursor(cursor);
    var all := Listing(Beyond(keys, cur));
    ListingSorted(Beyond(keys, cur));
    forall k ensures k in all <==> Asked(jobs, principal, f, cursor, k.id) && k.createdAt == jobs[k.id].createdAt {
      VisibleIsAsked(jobs, principal, f, cursor, k);
      assert k in all <==> k in Elements(all);
    }
    PartAnswers(jobs, principal, f, limit, cursor, all);
  }

  lemma PartAnswers(jobs: Table, principal: string, f: Filter, limit: int, cursor: string, all: seq<Key>)
    requires Sorted(all)
    requires forall k :: k in all <==> Asked(jobs, principal, f, cursor, k.id) && k.createdAt == jobs[k.id].createdAt
    ensures Answers(jobs, principal, f, limit, cursor,
                    if 0 < limit < |all| then Answer(all[..limit], EncodeCursor(all[limit - 1])) else Answer(all, ""))
  {
    if 0 < limit < |all| {
      var page := all[..limit];
      forall id | Asked(jobs, principal, f, cursor, id)
        ensures OnPage(jobs, page, id) || Less(all[limit - 1], Key(jobs[id].createdAt, id))
      {
        OnPageOrLater(all, limit, Key(jobs[id].createdAt, id));
      }
      assert all[limit] in all && Asked(jobs, principal, f, cursor, all[limit].id);
      NotBefore(all, limit);
      assert !OnPage(jobs, page, all[limit].id);
    }
  }

  lemma OnPageOrLater(all: seq<Key>, limit: int, k: Key)
    requires Sorted(all) && k in all
    ensures 0 < limit < |all| ==> k in all[..limit] || Less(all[limit - 1], k)
  {
    var i :| 0 <= i < |all| && all[i] == k;
    if 0 < limit < |all| && i < limit {
      assert all[..limit][i] == k;
    }
  }

  lemma NotBefore(all: seq<Key>, n: nat)
    requires Sorted(all) && n < |all|
    ensures all[n] !in all[..n]
  {
    forall i | 0 <= i < n ensures all[i] != all[n] {
      KeyOrder(all[i], all[n], all[n]);
    }
  }

  datatype Answer = Answer(out: seq<Key>, next: string) | Panics

  /** listJobs, for every int: the page and next cursor equal those of sorting the whole visible
      table, dropping to the cursor and taking the limit, or the call panics, iff the limit is
      more than a page may be allocated for. `maxCap` is the largest capacity the runtime
      allows. Beyond it the allocation of the page panics whatever the table holds, unless
      limit + 1 has wrapped and the scan has met a job first. */
  method ListJobs(jobs: Table, principal: string, f: Filter, limit: int, cursor: string, maxCap: int)
    returns (r: Answer)
    requires -I64 <= limit < I64 && 0 < maxCap < I64 - 1
    ensures r.Panics? <==> limit > maxCap
    ensures r.Answer? ==> Answers(jobs, principal, f, limit, cursor, r)
    ensures r.Answer? ==>
              && r.out == Page(Visible(jobs, principal, f), DecodeCursor(cursor), limit)
              && r.next == NextCursor(Visible(jobs, principal, f), DecodeCursor(cursor), limit)
  {
    PageAnswers(jobs, principal, f, limit, cursor);
    var cur := DecodeCursor(cursor);
    if limit <= 0 {
      var all := SortAll(Beyond(Visible(jobs, principal, f), cur));
      return Answer(all, "");
    }
    var page := SelectSmallest(jobs, principal, f, cur, Successor(limit));
    if page.None? {
      return Panics;
    }
    if limit > maxCap {
      return Panics;
    }
    KeptIsPage(Visible(jobs, principal, f), cur, limit);
    r := Cut(page.value, limit);
  }

  /** The last loop of listJobs: one key too many becomes the next cursor. */
  function Cut(page: seq<Key>, limit: int): Answer
    requires limit > 0
  {
    if |page| > limit then Answer(page[..limit], EncodeCursor(page[limit - 1])) else Answer(page, "")
  }

  /** The next cursor is empty iff nothing follows the page. */
  ghost function NextCursor(keys: set<Key>, cur: Cursor, limit: int): (next: string)
    ensures next == "" <==> Next(keys, cur, limit).None?
  {
    match Next(keys, cur, limit)
    case None => ""
    case Some(k) => EncodeCursor(k)
  }

  /** Keeping one more than the limit is enough to know the page and whether more follows. */
  lemma KeptIsPage(keys: set<Key>, cur: Cursor, limit: int)
    requires limit > 0
    ensures var kept := Kept(Beyond(keys, cur), limit + 1);
            && Page(keys, cur, limit) == (if |kept| > limit then kept[..limit] else kept)
            && Next(keys, cur, limit) == if |kept| > limit then Some(kept[limit - 1]) else None
  {
    var all := Listing(Beyond(keys, cur));
    if |all| > limit {
      assert all[..limit + 1][..limit] == all[..limit];
    } else {
      assert all[..|all|] == all;
    }
  }
}
