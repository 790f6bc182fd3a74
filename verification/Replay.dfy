/**
  Delivery across a resume (server/session.go: send, replayBuffered, run; server/server.go:
  the current-session map). The world of one session id is advanced one critical section or
  channel operation at a time, by any number of senders and sessions.
 */
module Replay {
  import opened Base
  import opened EventLog

  // ---------------------------------------------------------------- replay order

  function Insert(sorted: seq<Entry>, e: Entry): seq<Entry> {
    if sorted == [] || sorted[|sorted| - 1].seqNo <= e.seqNo then sorted + [e]
    else Insert(sorted[..|sorted| - 1], e) + [sorted[|sorted| - 1]]
  }

  function SortBySeq(entries: seq<Entry>): seq<Entry> {
    if entries == [] then [] else Insert(SortBySeq(entries[..|entries| - 1]), entries[|entries| - 1])
  }

  ghost predicate Ascending(entries: seq<Entry>) {
    forall i, j :: 0 <= i < j < |entries| ==> entries[i].seqNo <= entries[j].seqNo
  }

  lemma {:induction false} InsertPermutes(sorted: seq<Entry>, e: Entry)
    ensures multiset(Insert(sorted, e)) == multiset(sorted) + multiset{e}
  {
    var n := |sorted|;
    if n > 0 && sorted[n - 1].seqNo > e.seqNo {
      InsertPermutes(sorted[..n - 1], e);
      assert sorted == sorted[..n - 1] + [sorted[n - 1]];
    }
  }

  lemma {:induction false} InsertAscends(sorted: seq<Entry>, e: Entry)
    requires Ascending(sorted)
    ensures Ascending(Insert(sorted, e))
  {
    var n := |sorted|;
    if n > 0 && sorted[n - 1].seqNo > e.seqNo {
      var front := sorted[..n - 1];
      var r := Insert(front, e);
      InsertAscends(front, e);
      InsertPermutes(front, e);
      forall i | 0 <= i < |r| ensures r[i].seqNo <= sorted[n - 1].seqNo {
        assert r[i] in multiset(front) + multiset{e};
      }
    }
  }

  /** The replay order: ascending numbers, every entry exactly once. */
  lemma {:induction false} SortSorts(entries: seq<Entry>)
    ensures Ascending(SortBySeq(entries))
    ensures multiset(SortBySeq(entries)) == multiset(entries)
  {
    var n := |entries|;
    if n > 0 {
      var front, last := entries[..n - 1], entries[n - 1];
      var r := SortBySeq(front);
      assert SortBySeq(entries) == Insert(r, last);
      SortSorts(front);
      assert Ascending(Insert(r, last)) by { InsertAscends(r, last); }
      InsertPermutes(r, last);
      assert entries == front + [last];
    }
  }

  /** A live session's outbox, seen by its replay. */
  class Outbox {
    var queue: seq<Entry>

    /** replayBuffered: everything retained above `from`, in ascending order. */
    method ReplayBuffered(log: Memory, id: string, from: nat)
      modifies this
      ensures queue == old(queue) + SortBySeq(old(Above(log.Of(id), from)))
    {
      var entries := log.Since(id, from);
      entries := SortBySeq(entries);
      for i := 0 to |entries|
        invariant queue == old(queue) + entries[..i]
      {
        queue := queue + [entries[i]];
      }
    }
  }

  // ---------------------------------------------------------------- the state machine

  /** A call of send for one event: appended to the log, then resolved to the session it
      will be enqueued on, then enqueued. */
  datatype Sender = Persisted(home: nat) | Routed(target: nat) | Sent

  datatype Phase = Opened | Current | Replaying(pending: seq<Entry>) | Steady

  /** `missed` records what had been evicted or trimmed when the session read the log. */
  datatype Session = Session(resume: bool, from: nat, phase: Phase, outbox: seq<Entry>, ended: bool, missed: set<Entry>)

  datatype World = World(
    log: seq<Entry>, dropped: set<Entry>,
    current: Option<nat>, sessions: map<nat, Session>, senders: map<Entry, Sender>)

  const START := World([], {}, None, map[], map[])

  datatype Action =
    | Open(r: nat, resume: bool, from: nat)
    | BecomeCurrent(r: nat)
    | ReadLog(r: nat)
    | ReplayNext(r: nat, taken: bool)
    | Persist(e: Entry, home: nat)
    | PersistOnly(e: Entry)            // a back_pressure status: logged, best-effort delivery
    | Lookup(e: Entry)
    | Enqueue(e: Entry, taken: bool)
    | Ack(before: nat)
    | Cancel(r: nat)                   // the session's context ends, at any time
    | ClearCurrent(r: nat)

  function WithLog(w: World, log: seq<Entry>): World {
    w.(log := log, dropped := w.dropped + set e | e in w.log && e !in log)
  }

  /** enqueue: a live session always takes the event, an ended one may drop it. */
  function Put(s: Session, e: Entry, taken: bool): Session {
    if !s.ended || taken then s.(outbox := s.outbox + [e]) else s
  }

  function Update(w: World, r: nat, s: Session): World {
    w.(sessions := w.sessions[r := s])
  }

  /** One step; an action whose turn has not come leaves the world as it is. */
  function Step(max: nat, w: World, a: Action): World {
    match a
    case Open(r, resume, from) =>
      if r in w.sessions then w else Update(w, r, Session(resume, from, Opened, [], false, {}))
    case BecomeCurrent(r) =>
      if r !in w.sessions || !w.sessions[r].phase.Opened? then w
      else
        var s := w.sessions[r];
        Update(w, r, s.(phase := if s.resume then Current else Steady)).(current := Some(r))
    case ReadLog(r) =>
      if r !in w.sessions || !w.sessions[r].phase.Current? then w
      else
        var s := w.sessions[r];
        Update(w, r, s.(phase := Replaying(SortBySeq(Above(w.log, s.from))), missed := w.dropped))
    case ReplayNext(r, taken) =>
      if r !in w.sessions || !w.sessions[r].phase.Replaying? then w
      else
        var s := w.sessions[r];
        var pending := s.phase.pending;
        if pending == [] then Update(w, r, s.(phase := Steady))
        else Update(w, r, Put(s, pending[0], taken).(phase := Replaying(pending[1..])))
    case Persist(e, home) =>
      if e in w.senders || home !in w.sessions then w
      else WithLog(w.(senders := w.senders[e := Persisted(home)], log := w.log + [e]), Kept(w.log + [e], max))
    case PersistOnly(e) =>
      if e in w.senders then w else WithLog(w.(log := w.log + [e]), Kept(w.log + [e], max))
    case Lookup(e) =>
      if e !in w.senders || !w.senders[e].Persisted? then w
      else
        var target := if w.current.Some? then w.current.value else w.senders[e].home;
        w.(senders := w.senders[e := Routed(target)])
    case Enqueue(e, taken) =>
      if e !in w.senders || !w.senders[e].Routed? then w
      else
        var t := w.senders[e].target;
        var w' := w.(senders := w.senders[e := Sent]);
        if t in w.sessions then Update(w', t, Put(w.sessions[t], e, taken)) else w'
    case Ack(before) =>
      WithLog(w, Above(w.log, before))
    case Cancel(r) =>
      if r !in w.sessions then w else Update(w, r, w.sessions[r].(ended := true))
    case ClearCurrent(r) =>
      if w.current == Some(r) then w.(current := None) else w
  }

  function Run(max: nat, acts: seq<Action>): World {
    if acts == [] then START else Step(max, Run(max, acts[..|acts| - 1]), acts[|acts| - 1])
  }

  // ---------------------------------------------------------------- no event is lost

  /** `e` has reached `r`, or something still under way will take it there. */
  ghost predicate OnItsWay(w: World, r: nat, e: Entry)
    requires r in w.sessions && e in w.senders
  {
    var s := w.sessions[r];
    || e in s.outbox
    || (s.phase.Replaying? && e in s.phase.pending)
    || w.senders[e].Persisted?
    || w.senders[e] == Routed(r)
  }

  ghost predicate LiveReader(w: World, r: nat) {
    && r in w.sessions && w.current == Some(r)
    && w.sessions[r].resume && !w.sessions[r].ended
    && (w.sessions[r].phase.Replaying? || w.sessions[r].phase.Steady?)
  }

  ghost predicate Inv(w: World, r: nat, e: Entry) {
    && (e in w.senders ==> e in w.log || e in w.dropped)
    && (r in w.sessions && w.sessions[r].phase.Opened? ==> w.current != Some(r))
    && (r !in w.sessions ==> w.current != Some(r))
    && (LiveReader(w, r) && e in w.senders && e.seqNo > w.sessions[r].from && e !in w.sessions[r].missed ==>
          OnItsWay(w, r, e))
  }

  lemma ReadFindsEntry(log: seq<Entry>, from: nat, e: Entry)
    requires e in log && e.seqNo > from
    ensures e in SortBySeq(Above(log, from))
  {
    NothingAbove(log, from);
    SortSorts(Above(log, from));
    assert e in multiset(SortBySeq(Above(log, from)));
  }

  predicate ChangesLog(a: Action) {
    a.Persist? || a.PersistOnly? || a.Ack?
  }

  lemma LogStepKeepsInv(max: nat, w: World, a: Action, r: nat, e: Entry)
    requires Inv(w, r, e) && ChangesLog(a)
    ensures Inv(Step(max, w, a), r, e)
  {
  }

  lemma ReadKeepsInv(max: nat, w: World, x: nat, r: nat, e: Entry)
    requires Inv(w, r, e)
    ensures Inv(Step(max, w, ReadLog(x)), r, e)
  {
    if x in w.sessions && w.sessions[x].phase.Current? && e in w.log && e.seqNo > w.sessions[x].from {
      ReadFindsEntry(w.log, w.sessions[x].from, e);
    }
  }

  lemma StepKeepsInv(max: nat, w: World, a: Action, r: nat, e: Entry)
    requires Inv(w, r, e)
    ensures Inv(Step(max, w, a), r, e)
  {
    if ChangesLog(a) {
      LogStepKeepsInv(max, w, a, r, e);
    } else if a.ReadLog? {
      ReadKeepsInv(max, w, a.r, r, e);
    }
  }

  lemma {:induction false} RunKeepsInv(max: nat, acts: seq<Action>, r: nat, e: Entry)
    ensures Inv(Run(max, acts), r, e)
  {
    if acts != [] {
      RunKeepsInv(max, acts[..|acts| - 1], r, e);
      StepKeepsInv(max, Run(max, acts[..|acts| - 1]), acts[|acts| - 1], r, e);
    }
  }

  /** In every interleaving, once a resumed session that is still current and live has
      finished its replay, it has been handed every event above last_event_seq whose send
      has returned, except those evicted or trimmed before it read the log. */
  lemma NoEventLost(max: nat, acts: seq<Action>, r: nat, e: Entry)
    requires var w := Run(max, acts);
             && LiveReader(w, r) && w.sessions[r].phase.Steady?
             && e in w.senders && w.senders[e].Sent?
             && e.seqNo > w.sessions[r].from && e !in w.sessions[r].missed
    ensures e in Run(max, acts).sessions[r].outbox
  {
    RunKeepsInv(max, acts, r, e);
  }

  // ---------------------------------------------------------------- whose send it is

  /** The session `e` goes to if its sender looks now: the current one, or else its own. */
  ghost predicate Targets(w: World, e: Entry, r: nat) {
    && e in w.senders && w.senders[e].Persisted?
    && r == if w.current.Some? then w.current.value else w.senders[e].home
  }

  ghost predicate RouteInv(w: World) {
    && (w.current.Some? ==> w.current.value in w.sessions)
    && forall e <- w.senders :: w.senders[e].Persisted? ==> w.senders[e].home in w.sessions
  }

  lemma StepKeepsRoutes(max: nat, w: World, a: Action)
    requires RouteInv(w)
    ensures RouteInv(Step(max, w, a))
  {
  }

  lemma {:induction false} RunKeepsRoutes(max: nat, acts: seq<Action>)
    ensures RouteInv(Run(max, acts))
  {
    if acts != [] {
      RunKeepsRoutes(max, acts[..|acts| - 1]);
      StepKeepsRoutes(max, Run(max, acts[..|acts| - 1]), acts[|acts| - 1]);
    }
  }

  lemma {:induction false} RunOn(max: nat, acts: seq<Action>, more: seq<Action>)
    requires more != []
    ensures Run(max, acts + more) == Step(max, Run(max, acts + more[..|more| - 1]), more[|more| - 1])
  {
    assert (acts + more)[..|acts + more| - 1] == acts + more[..|more| - 1];
  }

  /** `e` is on its way to `r`, or has been put there unless `r` had ended. */
  ghost predicate Bound(w: World, r: nat, e: Entry) {
    && r in w.sessions && e in w.senders
    && (w.senders[e] == Routed(r) || (w.senders[e].Sent? && (!w.sessions[r].ended ==> e in w.sessions[r].outbox)))
  }

  lemma StepKeepsBound(max: nat, w: World, a: Action, r: nat, e: Entry)
    requires Bound(w, r, e)
    ensures Bound(Step(max, w, a), r, e)
  {
  }

  lemma {:induction false} RunKeepsBound(max: nat, acts: seq<Action>, more: seq<Action>, r: nat, e: Entry)
    requires Bound(Run(max, acts), r, e)
    ensures Bound(Run(max, acts + more), r, e)
  {
    if more == [] {
      assert acts + more == acts;
    } else {
      RunKeepsBound(max, acts, more[..|more| - 1], r, e);
      RunOn(max, acts, more);
      StepKeepsBound(max, Run(max, acts + more[..|more| - 1]), more[|more| - 1], r, e);
    }
  }

  /** In every interleaving and for every session, fresh or resumed: an event whose sender looked
      while the session was the one to send to, and whose send has returned, is in its outbox
      unless it has ended. */
  lemma SentIsDelivered(max: nat, acts: seq<Action>, i: nat, r: nat, e: Entry)
    requires i < |acts| && acts[i] == Lookup(e) && Targets(Run(max, acts[..i]), e, r)
    ensures var w := Run(max, acts);
            && r in w.sessions && e in w.senders
            && (w.senders[e].Sent? && !w.sessions[r].ended ==> e in w.sessions[r].outbox)
  {
    RunKeepsRoutes(max, acts[..i]);
    assert acts[..i + 1][..i] == acts[..i] && acts == acts[..i + 1] + acts[i + 1..];
    RunKeepsBound(max, acts[..i + 1], acts[i + 1..], r, e);
  }

  ghost predicate SentTo(max: nat, acts: seq<Action>, r: nat, e: Entry) {
    exists i :: 0 <= i < |acts| && acts[i] == Lookup(e) && Targets(Run(max, acts[..i]), e, r)
  }

  /** `r` read the log at step `i`, as a resumed session that had just become current. */
  ghost predicate Reads(max: nat, acts: seq<Action>, i: int, r: nat) {
    && 0 <= i < |acts| && acts[i] == ReadLog(r)
    && r in Run(max, acts[..i]).sessions && Run(max, acts[..i]).sessions[r].phase.Current?
  }

  ghost predicate Replayed(max: nat, acts: seq<Action>, r: nat, e: Entry) {
    exists i :: Reads(max, acts, i, r) && e in Run(max, acts[..i]).log && e.seqNo > Run(max, acts[..i]).sessions[r].from
  }

  ghost predicate Accounted(max: nat, acts: seq<Action>, r: nat, e: Entry) {
    var w := Run(max, acts);
    && (e in w.senders && w.senders[e] == Routed(r) ==> SentTo(max, acts, r, e))
    && (InReplay(w, r, e) ==> Replayed(max, acts, r, e))
    && (r in w.sessions && e in w.sessions[r].outbox ==> SentTo(max, acts, r, e) || Replayed(max, acts, r, e))
  }

  lemma ReadsOn(max: nat, acts: seq<Action>, i: int, r: nat)
    requires acts != [] && Reads(max, acts[..|acts| - 1], i, r)
    ensures Reads(max, acts, i, r) && acts[..|acts| - 1][..i] == acts[..i]
  {
    assert acts[..|acts| - 1][..i] == acts[..i];
  }

  lemma AccountsOn(max: nat, acts: seq<Action>, r: nat, e: Entry)
    requires acts != []
    ensures SentTo(max, acts[..|acts| - 1], r, e) ==> SentTo(max, acts, r, e)
    ensures Replayed(max, acts[..|acts| - 1], r, e) ==> Replayed(max, acts, r, e)
  {
    var front := acts[..|acts| - 1];
    if i :| 0 <= i < |front| && front[i] == Lookup(e) && Targets(Run(max, front[..i]), e, r) {
      assert front[..i] == acts[..i] && acts[i] == front[i];
    }
    if i :| Reads(max, front, i, r) && e in Run(max, front[..i]).log
            && e.seqNo > Run(max, front[..i]).sessions[r].from
    {
      ReadsOn(max, acts, i, r);
    }
  }

  lemma OnlyLogged(log: seq<Entry>, from: nat, e: Entry)
    requires e in SortBySeq(Above(log, from))
    ensures e in log && e.seqNo > from
  {
    NothingAbove(log, from);
    SortSorts(Above(log, from));
    assert e in multiset(Above(log, from));
  }

  /** Where a step can bring `e` from. */
  lemma StepAccounts(max: nat, w: World, a: Action, r: nat, e: Entry)
    ensures var w' := Step(max, w, a);
            && (e in w'.senders && w'.senders[e] == Routed(r) ==>
                  (e in w.senders && w.senders[e] == Routed(r)) || (a == Lookup(e) && Targets(w, e, r)))
            && (r in w'.sessions && w'.sessions[r].phase.Replaying? && e in w'.sessions[r].phase.pending ==>
                  || InReplay(w, r, e)
                  || (a == ReadLog(r) && CanRead(w, r) && e in SortBySeq(Above(w.log, w.sessions[r].from))))
            && (r in w'.sessions && e in w'.sessions[r].outbox ==>
                  || (r in w.sessions && e in w.sessions[r].outbox)
                  || (e in w.senders && w.senders[e] == Routed(r)) || InReplay(w, r, e))
  {
  }

  ghost predicate InReplay(w: World, r: nat, e: Entry) {
    r in w.sessions && w.sessions[r].phase.Replaying? && e in w.sessions[r].phase.pending
  }

  ghost predicate CanRead(w: World, r: nat) {
    r in w.sessions && w.sessions[r].phase.Current?
  }

  /** Everything in an outbox was sent to that session or replayed from the log above its
      last_event_seq. */
  lemma {:induction false} OutboxAccounted(max: nat, acts: seq<Action>, r: nat, e: Entry)
    ensures Accounted(max, acts, r, e)
  {
    if acts != [] {
      var n := |acts| - 1;
      var w, a := Run(max, acts[..n]), acts[n];
      OutboxAccounted(max, acts[..n], r, e);
      AccountsOn(max, acts, r, e);
      StepAccounts(max, w, a, r, e);
      if a == Lookup(e) && Targets(w, e, r) {
        assert SentTo(max, acts, r, e);
      }
      if a == ReadLog(r) && CanRead(w, r) && e in SortBySeq(Above(w.log, w.sessions[r].from)) {
        OnlyLogged(w.log, w.sessions[r].from, e);
        assert Reads(max, acts, n, r);
      }
    }
  }

  // ---------------------------------------------------------------- what a resume misses

  ghost predicate MissedInv(max: nat, acts: seq<Action>, r: nat) {
    var w := Run(max, acts);
    r in w.sessions && w.sessions[r].missed != {} ==>
      exists i :: Reads(max, acts, i, r) && w.sessions[r].missed == Run(max, acts[..i]).dropped
  }

  lemma {:induction false} MissedWasDropped(max: nat, acts: seq<Action>, r: nat)
    ensures MissedInv(max, acts, r)
  {
    if acts != [] {
      var n := |acts| - 1;
      var w, a := Run(max, acts[..n]), acts[n];
      MissedWasDropped(max, acts[..n], r);
      if a == ReadLog(r) && r in w.sessions && w.sessions[r].phase.Current? {
        assert Reads(max, acts, n, r);
      } else if r in w.sessions && w.sessions[r].missed != {} {
        var i :| Reads(max, acts[..n], i, r) && w.sessions[r].missed == Run(max, acts[..n][..i]).dropped;
        ReadsOn(max, acts, i, r);
      }
    }
  }

  /** `e` left the log at step `i`, or was never kept. */
  ghost predicate Leaves(max: nat, acts: seq<Action>, i: int, e: Entry) {
    && 0 <= i < |acts| && e !in Run(max, acts[..i + 1]).log
    && (e in Run(max, acts[..i]).log || ((acts[i].Persist? || acts[i].PersistOnly?) && acts[i].e == e))
  }

  lemma {:induction false} DroppedHasLeft(max: nat, acts: seq<Action>, e: Entry)
    ensures e in Run(max, acts).dropped ==> exists i :: Leaves(max, acts, i, e)
  {
    if acts != [] {
      var n := |acts| - 1;
      DroppedHasLeft(max, acts[..n], e);
      if e in Run(max, acts).dropped {
        assert acts[..n + 1] == acts;
        if i :| Leaves(max, acts[..n], i, e) {
          assert acts[..n][..i] == acts[..i] && acts[..n][..i + 1] == acts[..i + 1];
          assert Leaves(max, acts, i, e);
        } else {
          assert e in Run(max, acts).dropped && e !in Run(max, acts[..n]).dropped;
          assert Leaves(max, acts, n, e);
        }
      }
    }
  }

  /** Read backwards: an event that a live, current, replayed session has not been handed,
      although its send has returned, had left the log before the session read it. */
  lemma MissedHadLeft(max: nat, acts: seq<Action>, r: nat, e: Entry) returns (i: int, j: int)
    requires var w := Run(max, acts);
             && LiveReader(w, r) && w.sessions[r].phase.Steady?
             && e in w.senders && w.senders[e].Sent? && e.seqNo > w.sessions[r].from && e !in w.sessions[r].outbox
    ensures Reads(max, acts, i, r) && j < i && Leaves(max, acts[..i], j, e)
  {
    RunKeepsInv(max, acts, r, e);
    MissedWasDropped(max, acts, r);
    i :| Reads(max, acts, i, r) && Run(max, acts).sessions[r].missed == Run(max, acts[..i]).dropped;
    DroppedHasLeft(max, acts[..i], e);
    j :| Leaves(max, acts[..i], j, e);
  }

  // ---------------------------------------------------------------- sends and replays end

  lemma StepKeepsCurrent(max: nat, w: World, a: Action, r: nat)
    requires w.current == Some(r) && !a.BecomeCurrent? && a != ClearCurrent(r)
    ensures Step(max, w, a).current == Some(r)
  {
  }

  lemma {:induction false} CurrentGoesOn(max: nat, acts: seq<Action>, more: seq<Action>, r: nat)
    requires Run(max, acts).current == Some(r) && forall a <- more :: !a.BecomeCurrent? && a != ClearCurrent(r)
    ensures Run(max, acts + more).current == Some(r)
  {
    if more == [] {
      assert acts + more == acts;
    } else {
      CurrentGoesOn(max, acts, more[..|more| - 1], r);
      RunOn(max, acts, more);
      assert more[|more| - 1] in more;
      StepKeepsCurrent(max, Run(max, acts + more[..|more| - 1]), more[|more| - 1], r);
    }
  }

  /** A session that has become current stays so until another one does or it is cleared. */
  lemma StaysCurrent(max: nat, acts: seq<Action>, more: seq<Action>, r: nat)
    requires r in Run(max, acts).sessions && Run(max, acts).sessions[r].phase.Opened?
    requires forall a <- more :: !a.BecomeCurrent? && a != ClearCurrent(r)
    ensures Run(max, acts + [BecomeCurrent(r)] + more).current == Some(r)
  {
    assert (acts + [BecomeCurrent(r)])[..|acts|] == acts;
    CurrentGoesOn(max, acts + [BecomeCurrent(r)], more, r);
  }

  /** What a sender still has to do. */
  function Sending(e: Entry, taken: bool): seq<Action> {
    [Lookup(e), Enqueue(e, taken)]
  }

  ghost predicate SendAt(w: World, e: Entry, n: nat) {
    e in w.senders && (n >= 1 ==> !w.senders[e].Persisted?) && (n >= 2 ==> w.senders[e].Sent?)
  }

  lemma StepKeepsSending(max: nat, w: World, a: Action, e: Entry, taken: bool, n: nat)
    requires SendAt(w, e, n)
    ensures SendAt(Step(max, w, a), e, n)
    ensures n < 2 && a == Sending(e, taken)[n] ==> SendAt(Step(max, w, a), e, n + 1)
  {
  }

  lemma {:induction false} SendGoesOn(max: nat, acts: seq<Action>, more: seq<Action>, e: Entry, taken: bool)
    requires e in Run(max, acts).senders
    ensures SendAt(Run(max, acts + more), e, Matched(more, Sending(e, taken)))
  {
    if more == [] {
      assert acts + more == acts;
    } else {
      var front, a := more[..|more| - 1], more[|more| - 1];
      SendGoesOn(max, acts, front, e, taken);
      RunOn(max, acts, more);
      StepKeepsSending(max, Run(max, acts + front), a, e, taken, Matched(front, Sending(e, taken)));
    }
  }

  /** A send that has begun returns in every run that gives it its turns. */
  lemma EverySendReturns(max: nat, acts: seq<Action>, home: nat, more: seq<Action>, e: Entry, taken: bool)
    requires e !in Run(max, acts).senders && home in Run(max, acts).sessions && Contains(more, Sending(e, taken))
    ensures var w := Run(max, acts + [Persist(e, home)] + more); e in w.senders && w.senders[e].Sent?
  {
    assert (acts + [Persist(e, home)])[..|acts|] == acts;
    SendGoesOn(max, acts + [Persist(e, home)], more, e, taken);
  }

  function TurnsOf(more: seq<Action>, r: nat): nat {
    if more == [] then 0
    else
      var a := more[|more| - 1];
      TurnsOf(more[..|more| - 1], r) + if a.ReplayNext? && a.r == r then 1 else 0
  }

  ghost predicate ReplayAt(w: World, r: nat, left: int) {
    && r in w.sessions
    && (w.sessions[r].phase.Steady? || (w.sessions[r].phase.Replaying? && |w.sessions[r].phase.pending| + 1 <= left))
  }

  lemma StepKeepsReplaying(max: nat, w: World, a: Action, r: nat, left: int)
    requires ReplayAt(w, r, left)
    ensures ReplayAt(Step(max, w, a), r, if a.ReplayNext? && a.r == r then left - 1 else left)
  {
  }

  lemma {:induction false} ReplayGoesOn(max: nat, acts: seq<Action>, more: seq<Action>, r: nat, left: int)
    requires ReplayAt(Run(max, acts), r, left)
    ensures ReplayAt(Run(max, acts + more), r, left - TurnsOf(more, r))
  {
    if more == [] {
      assert acts + more == acts;
    } else {
      var front, a := more[..|more| - 1], more[|more| - 1];
      ReplayGoesOn(max, acts, front, r, left);
      RunOn(max, acts, more);
      StepKeepsReplaying(max, Run(max, acts + front), a, r, left - TurnsOf(front, r));
    }
  }

  /** A replay that has read the log is over after one turn per entry and one more. */
  lemma EveryReplayEnds(max: nat, acts: seq<Action>, more: seq<Action>, r: nat)
    requires r in Run(max, acts).sessions && Run(max, acts).sessions[r].phase.Replaying?
    requires TurnsOf(more, r) > |Run(max, acts).sessions[r].phase.pending|
    ensures r in Run(max, acts + more).sessions && Run(max, acts + more).sessions[r].phase.Steady?
  {
    ReplayGoesOn(max, acts, more, r, |Run(max, acts).sessions[r].phase.pending| + 1);
  }

  // ---------------------------------------------------------------- after an accepted gap check

  /** What a run does to the log. */
  function OpsOf(max: nat, acts: seq<Action>): seq<Op> {
    if acts == [] then []
    else OpsOf(max, acts[..|acts| - 1]) + OpOf(Run(max, acts[..|acts| - 1]), acts[|acts| - 1])
  }

  function OpOf(w: World, a: Action): seq<Op> {
    match a
    case Persist(e, home) => if e in w.senders || home !in w.sessions then [] else [Append(e)]
    case PersistOnly(e) => if e in w.senders then [] else [Append(e)]
    case Ack(before) => [Trim(before)]
    case _ => []
  }

  ghost predicate Agrees(w: World, s: Logged) {
    w.log == s.log && forall e <- w.dropped :: e in Lost(s)
  }

  /** What leaves the log joins the lost entries. */
  lemma DropsAreLost(s: Logged, s': Logged, dropped: set<Entry>, held: seq<Entry>)
    requires Suffixed(s') && Lost(s) <= Lost(s') && forall e <- held :: e in s'.history
    requires forall e <- dropped :: e in Lost(s)
    ensures forall e <- dropped + (set x | x in held && x !in s'.log) :: e in Lost(s')
  {
    assert s'.history == Lost(s') + s'.log;
  }

  /** The list an operation cuts down. */
  function Uncut(s: Logged, op: Op): seq<Entry> {
    if op.Append? then s.log + [op.e] else s.log
  }

  lemma UncutInHistory(max: nat, s: Logged, op: Op)
    requires Suffixed(s)
    ensures forall e <- Uncut(s, op) :: e in EventLog.Exec(max, s, op).history
  {
    assert s.history == Lost(s) + s.log;
  }

  lemma StepAgrees(max: nat, w: World, a: Action, s: Logged)
    requires Agrees(w, s) && Suffixed(s)
    requires OpOf(w, a) != [] ==> Suffixed(EventLog.Exec(max, s, OpOf(w, a)[0]))
    ensures Agrees(Step(max, w, a), if OpOf(w, a) == [] then s else EventLog.Exec(max, s, OpOf(w, a)[0]))
  {
    if OpOf(w, a) != [] {
      var op := OpOf(w, a)[0];
      var s' := EventLog.Exec(max, s, op);
      StepLoses(max, s, op);
      UncutInHistory(max, s, op);
      DropsAreLost(s, s', w.dropped, Uncut(s, op));
      assert Step(max, w, a).dropped == w.dropped + (set x | x in Uncut(s, op) && x !in s'.log);
    }
  }

  lemma {:induction false} WorldAgrees(max: nat, acts: seq<Action>)
    requires InOrder(EventLog.Run(max, OpsOf(max, acts)).history)
    ensures Agrees(Run(max, acts), EventLog.Run(max, OpsOf(max, acts)))
  {
    if acts != [] {
      var front, a := acts[..|acts| - 1], acts[|acts| - 1];
      var ops, op := OpsOf(max, front), OpOf(Run(max, front), a);
      LogIsSuffixOfHistory(max, ops + op);
      PrefixSuffixed(max, ops, op);
      WorldAgrees(max, front);
      if op == [] {
        assert ops + op == ops;
      } else {
        assert ops + op == ops + [op[0]];
        RunSnoc(max, ops, op[0]);
      }
      StepAgrees(max, Run(max, front), a, EventLog.Run(max, ops));
    }
  }

  /** A resume whose gap check looked and passed after `acts` misses, once it has replayed,
      only events that were dropped between the check and its reading of the log. */
  lemma AcceptedResumeMissesOnly(max: nat, acts: seq<Action>, more: seq<Action>, r: nat, e: Entry)
    requires InOrder(EventLog.Run(max, OpsOf(max, acts)).history)
    requires var w := Run(max, acts + more);
             && LiveReader(w, r) && w.sessions[r].phase.Steady?
             && e in w.senders && w.senders[e].Sent? && e.seqNo > w.sessions[r].from
             && w.sessions[r].from > 0 && Run(max, acts).log != [] && Accepted(Run(max, acts).log, w.sessions[r].from)
    ensures var w := Run(max, acts + more);
            e in w.sessions[r].outbox || (e in w.sessions[r].missed && e !in Run(max, acts).dropped)
  {
    var w := Run(max, acts + more);
    if e !in w.sessions[r].outbox {
      if e !in w.sessions[r].missed {
        NoEventLost(max, acts + more, r, e);
      }
      CheckedDropsLieBelow(max, acts, w.sessions[r].from);
    }
  }

  lemma CheckedDropsLieBelow(max: nat, acts: seq<Action>, from: nat)
    requires InOrder(EventLog.Run(max, OpsOf(max, acts)).history)
    requires from > 0 && Run(max, acts).log != [] && Accepted(Run(max, acts).log, from)
    ensures forall e <- Run(max, acts).dropped :: e.seqNo <= from
  {
    var s := EventLog.Run(max, OpsOf(max, acts));
    WorldAgrees(max, acts);
    LogIsSuffixOfHistory(max, OpsOf(max, acts));
    AcceptsByFirst(s, from);
    FirstAfterLost(s, from);
    CompleteIff(s, from);
    ReplayCompleteIff(s.log, s.history, from);
  }
}
