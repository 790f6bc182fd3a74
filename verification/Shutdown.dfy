/**
  Server shutdown (server/server.go: registerSession, unregisterSession, Accept, Close).
  The closing flag is set outside sessMu, so the two-part critical sections that read it are
  modelled with an explicit lock; any number of Accept calls race one Close.
 */
module Shutdown {
  import opened Base

  /** One Accept call. `Checked` and `Removed` hold sessMu. */
  datatype Pc =
    | Handshaking
    | Checked              // saw the server open, not yet in the session set
    | Running
    | Deciding             // run returned without session.close; about to look at closeCh
    | Stashing             // saw the server open; about to stash a resume entry
    | Exiting              // about to unregister
    | Removed(last: bool)  // out of the session set; about to look at closeCh
    | Signalling           // last one out of a closing server; about to close sessionsDone
    | Returned

  datatype Closer = Idle | Started | Waiting | Clearing | Done

  datatype Server = Server(
    closing: bool, sessMu: Option<nat>, sessions: set<nat>, sessionsDone: bool,
    resumes: set<string>, calls: map<nat, Pc>, closer: Closer, snapshot: set<nat>)

  const START := Server(false, None, {}, false, {}, map[], Idle, {})

  datatype Action =
    | Accept(t: nat)
    | RegisterCheck(t: nat)       // lock sessMu, look at closeCh
    | RegisterInsert(t: nat)      // insert, unlock
    | EndRun(t: nat, graceful: bool)
    | LookBeforeStash(t: nat)
    | Stash(t: nat, id: string)
    | Unregister(t: nat)          // lock sessMu, delete, note whether the set is empty
    | UnregisterLook(t: nat)      // look at closeCh, unlock
    | Signal(t: nat)              // close sessionsDone (once)
    | Take(id: string)            // a claim, purge or graceful close removes an entry
    | CloseFlag                   // close(closeCh)
    | CloseSnapshot               // under sessMu
    | CloseWait                   // sessionsDone is closed
    | CloseClear                  // drop all resume entries, return

  predicate At(s: Server, t: nat, pc: Pc) {
    t in s.calls && s.calls[t] == pc
  }

  function Move(s: Server, t: nat, pc: Pc): Server {
    s.(calls := s.calls[t := pc])
  }

  function Step(s: Server, a: Action): Server {
    match a
    case Accept(t) =>
      if t in s.calls then s else Move(s, t, Handshaking)
    case RegisterCheck(t) =>
      if !At(s, t, Handshaking) || s.sessMu.Some? then s
      else if s.closing then Move(s, t, Returned)
      else Move(s, t, Checked).(sessMu := Some(t))
    case RegisterInsert(t) =>
      if At(s, t, Checked) then Move(s, t, Running).(sessions := s.sessions + {t}, sessMu := None) else s
    case EndRun(t, graceful) =>
      if At(s, t, Running) then Move(s, t, if graceful then Exiting else Deciding) else s
    case LookBeforeStash(t) =>
      if At(s, t, Deciding) then Move(s, t, if s.closing then Exiting else Stashing) else s
    case Stash(t, id) =>
      if At(s, t, Stashing) then Move(s, t, Exiting).(resumes := s.resumes + {id}) else s
    case Unregister(t) =>
      if !At(s, t, Exiting) || s.sessMu.Some? then s
      else
        var left := s.sessions - {t};
        Move(s, t, Removed(left == {})).(sessions := left, sessMu := Some(t))
    case UnregisterLook(t) =>
      if t in s.calls && s.calls[t].Removed? then
        Move(s, t, if s.calls[t].last && s.closing then Signalling else Returned).(sessMu := None)
      else s
    case Signal(t) =>
      if At(s, t, Signalling) then Move(s, t, Returned).(sessionsDone := true) else s
    case Take(id) =>
      s.(resumes := s.resumes - {id})
    case CloseFlag =>
      if s.closer.Idle? then s.(closing := true, closer := Started) else s
    case CloseSnapshot =>
      if s.closer.Started? && s.sessMu.None? then
        s.(closer := Waiting, snapshot := s.sessions, sessionsDone := s.sessionsDone || s.sessions == {})
      else s
    case CloseWait =>
      if s.closer.Waiting? && s.sessionsDone then s.(closer := Clearing) else s
    case CloseClear =>
      if s.closer.Clearing? then s.(resumes := {}, closer := Done) else s
  }

  function Run(acts: seq<Action>): Server {
    if acts == [] then START else Step(Run(acts[..|acts| - 1]), acts[|acts| - 1])
  }

  predicate InSet(pc: Pc) {
    pc.Running? || pc.Deciding? || pc.Stashing? || pc.Exiting?
  }

  /** Somebody is committed to closing sessionsDone, whatever happens next. */
  ghost predicate WakeupUnderWay(s: Server) {
    s.closer.Started? || exists t :: t in s.calls && (s.calls[t].Signalling? || s.calls[t] == Removed(true))
  }

  /** The session set and the lock agree with where each call stands. */
  ghost predicate PlacesInv(s: Server) {
    && (forall t :: t in s.sessions <==> t in s.calls && InSet(s.calls[t]))
    && (forall t :: t in s.calls && (s.calls[t].Checked? || s.calls[t].Removed?) <==> s.sessMu == Some(t))
    && s.closing == !s.closer.Idle?
  }

  ghost predicate NoneChecked(s: Server) {
    forall t :: t in s.calls ==> !s.calls[t].Checked?
  }

  ghost predicate SignalInv(s: Server) {
    && (forall t :: t in s.calls && s.calls[t].Removed? ==> (s.calls[t].last <==> s.sessions == {}))
    && (forall t :: t in s.calls && s.calls[t].Signalling? ==> s.closing && s.sessions == {} && NoneChecked(s))
  }

  ghost predicate DoneInv(s: Server) {
    && (s.sessionsDone ==> s.closing && s.sessions == {} && NoneChecked(s))
    && (s.closer.Clearing? || s.closer.Done? ==> s.sessionsDone)
    && (s.closer.Done? ==> s.resumes == {})
    && (s.closer.Waiting? || s.closer.Clearing? || s.closer.Done? ==> s.sessions <= s.snapshot && NoneChecked(s))
  }

  ghost predicate WakeInv(s: Server) {
    s.closing && s.sessions == {} && NoneChecked(s) ==> s.sessionsDone || WakeupUnderWay(s)
  }

  lemma StepKeepsPlaces(s: Server, a: Action)
    requires PlacesInv(s)
    ensures PlacesInv(Step(s, a))
  {
  }

  lemma StepKeepsSignal(s: Server, a: Action)
    requires PlacesInv(s) && SignalInv(s)
    ensures SignalInv(Step(s, a))
  {
  }

  lemma StepKeepsDone(s: Server, a: Action)
    requires PlacesInv(s) && SignalInv(s) && DoneInv(s)
    ensures DoneInv(Step(s, a))
  {
  }

  lemma StepKeepsWake(s: Server, a: Action)
    requires PlacesInv(s) && WakeInv(s)
    ensures WakeInv(Step(s, a))
  {
    var s' := Step(s, a);
    if s'.closing && s'.sessions == {} && NoneChecked(s') {
      forall u | u in s.calls ensures !s.calls[u].Checked? {
        assert a == RegisterInsert(u) && s.calls[u].Checked? ==> u in s'.sessions;
        assert u in s'.calls;
      }
      if a.Unregister? && At(s, a.t, Exiting) && s.sessMu.None? {
        assert s'.calls[a.t] == Removed(true);
      } else if s.closing && !s.closer.Started? && !s.sessionsDone {
        assert s.sessions == {};
        var t :| t in s.calls && (s.calls[t].Signalling? || s.calls[t] == Removed(true));
        assert a != Signal(t) ==> t in s'.calls && (s'.calls[t].Signalling? || s'.calls[t] == Removed(true));
      }
    }
  }

  lemma {:induction false} RunKeepsAll(acts: seq<Action>)
    ensures PlacesInv(Run(acts)) && SignalInv(Run(acts)) && DoneInv(Run(acts)) && WakeInv(Run(acts))
  {
    if acts != [] {
      var s := Run(acts[..|acts| - 1]);
      RunKeepsAll(acts[..|acts| - 1]);
      StepKeepsPlaces(s, acts[|acts| - 1]);
      StepKeepsSignal(s, acts[|acts| - 1]);
      StepKeepsDone(s, acts[|acts| - 1]);
      StepKeepsWake(s, acts[|acts| - 1]);
    }
  }

  /** sessionsDone is closed only when the server is closing and no session is registered,
      and Close waits only for sessions it has cancelled. */
  lemma DoneMeansDrained(acts: seq<Action>)
    ensures Run(acts).sessionsDone ==> Run(acts).closing && Run(acts).sessions == {}
    ensures Run(acts).closer.Waiting? ==> Run(acts).sessions <= Run(acts).snapshot
  {
    RunKeepsAll(acts);
  }

  lemma {:induction false} RunAppend(acts: seq<Action>, a: Action)
    ensures Run(acts + [a]) == Step(Run(acts), a)
  {
    assert (acts + [a])[..|acts|] == acts;
  }

  lemma LookThenSignal(acts: seq<Action>, t: nat)
    requires At(Run(acts), t, Removed(true)) && Run(acts).closing
    ensures Run(acts + [UnregisterLook(t), Signal(t)]).sessionsDone
  {
    RunAppend(acts, UnregisterLook(t));
    RunAppend(acts + [UnregisterLook(t)], Signal(t));
    assert acts + [UnregisterLook(t), Signal(t)] == (acts + [UnregisterLook(t)]) + [Signal(t)];
  }

  /** No lost wakeup: whenever the server is closing, no session is registered and none is
      between its check and its insert, sessionsDone is closed, or becomes closed by at most
      two steps that calls already under way are bound to take. */
  lemma NoLostWakeup(acts: seq<Action>) returns (more: seq<Action>)
    requires Run(acts).closing && Run(acts).sessions == {} && NoneChecked(Run(acts))
    ensures |more| <= 2 && Run(acts + more).sessionsDone
    ensures forall a <- more :: a.CloseSnapshot? || a.UnregisterLook? || a.Signal?
  {
    RunKeepsAll(acts);
    var s := Run(acts);
    if s.sessionsDone {
      more := [];
      assert acts + more == acts;
    } else if t :| t in s.calls && s.calls[t].Removed? {
      more := [UnregisterLook(t), Signal(t)];
      LookThenSignal(acts, t);
    } else if s.closer.Started? {
      assert s.sessMu.None?;
      more := [CloseSnapshot];
      RunAppend(acts, CloseSnapshot);
    } else {
      var t :| t in s.calls && s.calls[t].Signalling?;
      more := [Signal(t)];
      RunAppend(acts, Signal(t));
    }
  }

  // ---------------------------------------------------------------- in every run

  ghost predicate Drained(s: Server) {
    s.closing && s.sessions == {} && NoneChecked(s)
  }

  lemma StepKeepsDrained(s: Server, a: Action)
    requires PlacesInv(s) && Drained(s)
    ensures Drained(Step(s, a))
  {
  }

  /** What the last call out still has to do. */
  function Wakeup(t: nat): seq<Action> {
    [UnregisterLook(t), Signal(t)]
  }

  ghost predicate Waking(s: Server, t: nat, n: nat) {
    || s.sessionsDone
    || (n == 0 && At(s, t, Removed(true)))
    || (n <= 1 && At(s, t, Signalling))
  }

  lemma StepKeepsWaking(s: Server, a: Action, t: nat, n: nat)
    requires Drained(s) && Waking(s, t, n)
    ensures Waking(Step(s, a), t, n) && (n < 2 && a == Wakeup(t)[n] ==> Waking(Step(s, a), t, n + 1))
  {
  }

  /** Close has its look at the session set before it, and nobody holds the lock. */
  ghost predicate Snapping(s: Server, n: nat) {
    s.sessionsDone || (n == 0 && s.closer.Started? && s.sessMu.None?)
  }

  lemma StepKeepsSnapping(s: Server, a: Action, n: nat)
    requires PlacesInv(s) && Drained(s) && Snapping(s, n)
    ensures Snapping(Step(s, a), n) && (n == 0 && a == CloseSnapshot ==> Snapping(Step(s, a), 1))
  {
    assert forall t :: At(s, t, Exiting) ==> t in s.sessions;
  }

  lemma {:induction false} RunKeepsWaking(acts: seq<Action>, more: seq<Action>, t: nat)
    requires Drained(Run(acts)) && Waking(Run(acts), t, 0)
    ensures Drained(Run(acts + more)) && Waking(Run(acts + more), t, Matched(more, Wakeup(t)))
  {
    if more == [] {
      assert acts + more == acts;
    } else {
      var front, a := more[..|more| - 1], more[|more| - 1];
      assert (acts + more)[..|acts + more| - 1] == acts + front;
      RunKeepsWaking(acts, front, t);
      RunKeepsAll(acts + front);
      StepKeepsDrained(Run(acts + front), a);
      StepKeepsWaking(Run(acts + front), a, t, Matched(front, Wakeup(t)));
    }
  }

  lemma {:induction false} RunKeepsSnapping(acts: seq<Action>, more: seq<Action>)
    requires Drained(Run(acts)) && Snapping(Run(acts), 0)
    ensures Drained(Run(acts + more)) && Snapping(Run(acts + more), Matched(more, [CloseSnapshot]))
  {
    if more == [] {
      assert acts + more == acts;
    } else {
      var front, a := more[..|more| - 1], more[|more| - 1];
      assert (acts + more)[..|acts + more| - 1] == acts + front;
      RunKeepsSnapping(acts, front);
      RunKeepsAll(acts + front);
      StepKeepsDrained(Run(acts + front), a);
      StepKeepsSnapping(Run(acts + front), a, Matched(front, [CloseSnapshot]));
    }
  }

  /** No lost wakeup, in every run: once the server is closing and drained, any continuation
      that gives the calls under way and Close their turns, whatever else happens in between,
      ends with sessionsDone closed. */
  lemma EveryRunWakes(acts: seq<Action>, more: seq<Action>)
    requires Drained(Run(acts)) && Contains(more, [CloseSnapshot])
    requires forall t <- Run(acts).calls :: Contains(more, Wakeup(t))
    ensures Run(acts + more).sessionsDone
  {
    RunKeepsAll(acts);
    var s := Run(acts);
    if t :| t in s.calls && s.calls[t].Removed? {
      RunKeepsWaking(acts, more, t);
    } else if s.closer.Started? || s.sessionsDone {
      RunKeepsSnapping(acts, more);
    } else {
      var t :| t in s.calls && s.calls[t].Signalling?;
      RunKeepsWaking(acts, more, t);
    }
  }

  /** After the first Close returns no resume entry exists, then or at any later point. */
  lemma NoResumeAfterClose(acts: seq<Action>)
    requires Run(acts).closer.Done?
    ensures Run(acts).resumes == {}
  {
    RunKeepsAll(acts);
  }

  // ---------------------------------------------------------------- what the server does

  /** A call registers its session iff the server is not closing when it looks; from there on
      nothing keeps it out. */
  lemma RegistersIffOpen(acts: seq<Action>, t: nat)
    requires At(Run(acts), t, Handshaking) && Run(acts).sessMu.None?
    ensures t in Run(acts + [RegisterCheck(t)] + [RegisterInsert(t)]).sessions <==> !Run(acts).closing
  {
    RunKeepsAll(acts);
    RunAppend(acts, RegisterCheck(t));
    RunAppend(acts + [RegisterCheck(t)], RegisterInsert(t));
  }

  /** A session that ends without session.close leaves a resume entry iff the server is not
      closing when its call looks. */
  lemma StashesIffOpen(acts: seq<Action>, t: nat, id: string)
    requires At(Run(acts), t, Deciding) && id !in Run(acts).resumes
    ensures id in Run(acts + [LookBeforeStash(t)] + [Stash(t, id)]).resumes <==> !Run(acts).closing
  {
    RunAppend(acts, LookBeforeStash(t));
    RunAppend(acts + [LookBeforeStash(t)], Stash(t, id));
  }

  const FINISH: seq<Action> := [CloseWait, CloseClear]

  predicate Finishing(s: Server, n: nat) {
    && s.sessionsDone && (s.closer.Waiting? || s.closer.Clearing? || s.closer.Done?)
    && (n >= 1 ==> !s.closer.Waiting?) && (n >= 2 ==> s.closer.Done?)
  }

  lemma StepKeepsFinishing(s: Server, a: Action, n: nat)
    requires Finishing(s, n)
    ensures Finishing(Step(s, a), n) && (n < 2 && a == FINISH[n] ==> Finishing(Step(s, a), n + 1))
  {
  }

  lemma {:induction false} FinishingGoesOn(acts: seq<Action>, more: seq<Action>)
    requires Finishing(Run(acts), 0)
    ensures Finishing(Run(acts + more), Matched(more, FINISH))
  {
    if more == [] {
      assert acts + more == acts;
    } else {
      var front, a := more[..|more| - 1], more[|more| - 1];
      assert acts + more == (acts + front) + [a];
      FinishingGoesOn(acts, front);
      RunAppend(acts + front, a);
      StepKeepsFinishing(Run(acts + front), a, Matched(front, FINISH));
    }
  }

  /** Close returns once sessionsDone is closed, in every run that gives it its turns. */
  lemma EveryCloseReturns(acts: seq<Action>, more: seq<Action>)
    requires Run(acts).sessionsDone && Run(acts).closer.Waiting? && Contains(more, FINISH)
    ensures Run(acts + more).closer.Done?
  {
    FinishingGoesOn(acts, more);
  }
}
