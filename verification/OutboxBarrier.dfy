/**
  The close barrier of a session outbox (server/session.go: enqueue, closeOutbox,
  maybeEmitBackPressure). Any number of senders and closers take turns, one mutex-protected
  section, channel operation or WaitGroup operation at a time. A WaitGroup's Done that
  reaches zero releases the waiter in a second operation, the waiter returns in a third, and
  the group panics if anyone registers in between.
 */
module OutboxBarrier {
  import opened Base

  /** A sender: registered and selecting; past the select; past its back_pressure attempt;
      its Done reached zero and must still release the waiter; returned. */
  datatype Pc = Selecting | Selected | Pressed | Releasing | Returned

  /** The one closer that set outboxClosed: about to Wait; parked in Wait; released but not
      returned from it; about to close the channel; done; or down with the group's panic. */
  datatype Closer = Open | Called | Parked | Woken | Ready | Closed | Crashed

  /** `sendWG` holds the registrations not yet matched by Done; its size is the counter.
      `panicked` records misuse of the channel, `misused` of the WaitGroup. */
  datatype Gate = Gate(
    outboxClosed: bool, sendWG: set<nat>, cancelled: bool,
    room: nat, channelClosed: bool, closes: nat, panicked: bool, misused: bool,
    senders: map<nat, Pc>, closer: Closer)

  function Start(room: nat): Gate {
    Gate(false, {}, false, room, false, 0, false, false, map[], Open)
  }

  datatype Action =
    | Enter(i: nat)           // under sendMu: check outboxClosed, register
    | SendOn(i: nat)          // select takes the channel case
    | GiveUp(i: nat)          // select takes the ctx.Done case
    | BackPressure(i: nat)    // under sendMu: check outboxClosed, non-blocking send
    | Leave(i: nat)           // sendWG.Done: count down
    | Release(i: nat)         // the Done that reached zero wakes the waiter
    | Drain                   // the writer takes one envelope
    | Cancel
    | BeginClose              // under sendMu: set outboxClosed once
    | Wait                    // sendWG.Wait: return at once, or park
    | Return                  // the released Wait returns
    | CloseChannel

  /** A send on the outbox channel: the runtime panics if it is closed. */
  function Send(g: Gate): Gate {
    if g.channelClosed then g.(panicked := true)
    else if g.room > 0 then g.(room := g.room - 1)
    else g
  }

  predicate At(g: Gate, i: nat, pc: Pc) {
    i in g.senders && g.senders[i] == pc
  }

  function Move(g: Gate, i: nat, pc: Pc): Gate {
    g.(senders := g.senders[i := pc])
  }

  /** One step; an action that is not enabled leaves the state as it is. */
  function Step(g: Gate, a: Action): Gate {
    match a
    case Enter(i) =>
      if i in g.senders then g
      else if g.outboxClosed then Move(g, i, Returned)
      else
        Move(g, i, Selecting).(
          sendWG := g.sendWG + {i}, misused := g.misused || (g.sendWG == {} && g.closer.Parked?))
    case SendOn(i) =>
      if At(g, i, Selecting) && (g.room > 0 || g.channelClosed) then Move(Send(g), i, Selected) else g
    case GiveUp(i) =>
      if At(g, i, Selecting) && g.cancelled then Move(g, i, Selected) else g
    case BackPressure(i) =>
      if At(g, i, Selected) then Move(if g.outboxClosed then g else Send(g), i, Pressed) else g
    case Leave(i) =>
      if At(g, i, Selected) || At(g, i, Pressed) then
        var left := g.sendWG - {i};
        Move(g, i, if left == {} && g.closer.Parked? then Releasing else Returned).(sendWG := left)
      else g
    case Release(i) =>
      if At(g, i, Releasing) then
        Move(g, i, Returned).(
          misused := g.misused || g.sendWG != {}, closer := if g.closer.Parked? then Woken else g.closer)
      else g
    case Drain => g.(room := g.room + 1)
    case Cancel => g.(cancelled := true)
    case BeginClose =>
      if g.outboxClosed then g else g.(outboxClosed := true, closer := Called)
    case Wait =>
      if g.closer.Called? then g.(closer := if g.sendWG == {} then Ready else Parked) else g
    case Return =>
      if !g.closer.Woken? then g
      else if g.sendWG != {} then g.(closer := Crashed, misused := true)
      else g.(closer := Ready)
    case CloseChannel =>
      if g.closer.Ready? then
        g.(closer := Closed, channelClosed := true, closes := g.closes + 1, panicked := g.panicked || g.channelClosed)
      else g
  }

  function Run(g: Gate, acts: seq<Action>): Gate {
    if acts == [] then g else Step(Run(g, acts[..|acts| - 1]), acts[|acts| - 1])
  }

  predicate Registered(pc: Pc) {
    !pc.Returned? && !pc.Releasing?
  }

  ghost predicate Inv(g: Gate) {
    && (forall i :: i in g.sendWG <==> i in g.senders && Registered(g.senders[i]))
    && g.outboxClosed == !g.closer.Open?
    && (g.closer.Woken? || g.closer.Ready? || g.closer.Closed? ==> g.sendWG == {})
    && g.channelClosed == g.closer.Closed? && g.closes == (if g.channelClosed then 1 else 0)
    && !g.closer.Crashed? && !g.panicked && !g.misused
  }

  /** A release is due exactly when the count is down and the closer still parked. */
  ghost predicate ReleaseInv(g: Gate) {
    && (forall i :: At(g, i, Releasing) ==> g.sendWG == {} && g.closer.Parked?)
    && (forall i, u :: At(g, i, Releasing) && At(g, u, Releasing) ==> i == u)
    && (g.closer.Parked? && g.sendWG == {} ==> exists i :: At(g, i, Releasing))
  }

  lemma StepKeepsInv(g: Gate, a: Action)
    requires Inv(g) && ReleaseInv(g)
    ensures Inv(Step(g, a))
  {
    if a.Release? {
      assert At(g, a.i, Releasing) ==> g.sendWG == {};
    }
  }

  lemma StepKeepsRelease(g: Gate, a: Action)
    requires Inv(g) && ReleaseInv(g)
    ensures ReleaseInv(Step(g, a))
  {
    var g' := Step(g, a);
    forall i
      ensures At(g', i, Releasing) ==> At(g, i, Releasing) || (a == Leave(i) && g'.sendWG == {} && g.closer.Parked?)
    {
    }
    if g'.closer.Parked? && g'.sendWG == {} {
      if a.Leave? && g.sendWG != {} {
        assert At(g', a.i, Releasing);
      } else {
        assert g.closer.Parked? && g.sendWG == {};
        var i :| At(g, i, Releasing);
        assert At(g', i, Releasing);
      }
    }
  }

  lemma {:induction false} RunKeepsInv(g: Gate, acts: seq<Action>)
    requires Inv(g) && ReleaseInv(g)
    ensures Inv(Run(g, acts)) && ReleaseInv(Run(g, acts))
  {
    if acts != [] {
      RunKeepsInv(g, acts[..|acts| - 1]);
      StepKeepsInv(Run(g, acts[..|acts| - 1]), acts[|acts| - 1]);
      StepKeepsRelease(Run(g, acts[..|acts| - 1]), acts[|acts| - 1]);
    }
  }

  /** In every interleaving nothing is sent on the closed outbox, it is closed at most once,
      and the WaitGroup is never misused: nobody registers once outboxClosed is set, and only
      then does anyone wait. Once it is closed no sender is at its select, and none will try a
      back_pressure send. */
  lemma OutboxNeverPanics(room: nat, acts: seq<Action>)
    ensures var g := Run(Start(room), acts); !g.panicked && !g.misused && g.closes <= 1
    ensures var g := Run(Start(room), acts);
            g.channelClosed ==> g.outboxClosed && forall i <- g.senders :: g.senders[i].Returned?
  {
    RunKeepsInv(Start(room), acts);
    AllReturned(Run(Start(room), acts));
  }

  lemma AllReturned(g: Gate)
    requires Inv(g) && ReleaseInv(g)
    ensures g.channelClosed ==> g.outboxClosed && forall i <- g.senders :: g.senders[i].Returned?
  {
    if g.channelClosed {
      forall i | i in g.senders ensures g.senders[i].Returned? {
        assert i !in g.sendWG && !At(g, i, Releasing);
      }
    }
  }

  // ---------------------------------------------------------------- progress of the closer

  /** How many steps a sender is from returning. */
  function Distance(g: Gate, i: nat): nat {
    if i !in g.senders then 0
    else match g.senders[i]
      case Selecting => 4
      case Selected => 3
      case Pressed => 2
      case Releasing => 1
      case Returned => 0
  }

  predicate Of(a: Action, i: nat) {
    a == SendOn(i) || a == GiveUp(i) || a == BackPressure(i) || a == Leave(i) || a == Release(i)
  }

  /** Once outboxClosed is set nobody joins the wait, no action of anyone moves a sender
      back, and a sender's own steps bring it closer to returning. */
  lemma ClosingOnlyAdvances(g: Gate, a: Action, i: nat)
    requires g.outboxClosed
    ensures Step(g, a).outboxClosed && Step(g, a).sendWG <= g.sendWG
    ensures Distance(Step(g, a), i) <= Distance(g, i)
    ensures Of(a, i) && Step(g, a) != g ==> Distance(Step(g, a), i) < Distance(g, i)
  {
    if Of(a, i) {
      OwnStepAdvances(g, a, i);
    } else {
      OtherStepKeeps(g, a, i);
    }
  }

  lemma OtherStepKeeps(g: Gate, a: Action, i: nat)
    requires g.outboxClosed && !Of(a, i)
    ensures Distance(Step(g, a), i) == Distance(g, i)
  {
  }

  lemma OwnStepAdvances(g: Gate, a: Action, i: nat)
    requires Of(a, i)
    ensures Step(g, a) == g || Distance(Step(g, a), i) < Distance(g, i)
  {
  }

  /** What a sender does when left alone after cancellation; a turn it has no use for passes. */
  function Exit(i: nat): seq<Action> {
    [GiveUp(i), Leave(i), Release(i)]
  }

  /** How near returning a sender is after `n` of these turns. */
  function Bound(n: nat): nat {
    if n == 0 then 4 else if n == 1 then 3 else if n == 2 then 1 else 0
  }

  lemma ExitTurn(g: Gate, i: nat, n: nat)
    requires g.cancelled && n < 3 && Distance(g, i) <= Bound(n)
    ensures Distance(Step(g, Exit(i)[n]), i) <= Bound(n + 1)
  {
  }

  lemma {:induction false} TurnsBring(g: Gate, acts: seq<Action>, i: nat)
    requires g.cancelled && g.outboxClosed
    ensures Run(g, acts).cancelled && Run(g, acts).outboxClosed
    ensures Distance(Run(g, acts), i) <= Bound(Matched(acts, Exit(i))) && Distance(Run(g, acts), i) <= Distance(g, i)
  {
    if acts != [] {
      var front, a := acts[..|acts| - 1], acts[|acts| - 1];
      TurnsBring(g, front, i);
      ClosingOnlyAdvances(Run(g, front), a, i);
      var n := Matched(front, Exit(i));
      if n < 3 && a == Exit(i)[n] {
        ExitTurn(Run(g, front), i, n);
      }
    }
  }

  /** After cancellation, every run that gives each registered sender its three turns, whatever
      else happens in between, empties the wait. */
  lemma EveryFairRunDrains(g: Gate, acts: seq<Action>)
    requires Inv(g) && ReleaseInv(g) && g.outboxClosed && g.cancelled
    requires forall i <- g.sendWG :: Contains(acts, Exit(i))
    ensures Run(g, acts).sendWG == {}
  {
    RunKeepsInv(g, acts);
    forall i ensures i !in Run(g, acts).sendWG {
      TurnsBring(g, acts, i);
    }
  }

  lemma AllBack(g: Gate)
    requires Inv(g) && ReleaseInv(g) && forall i :: Distance(g, i) == 0
    ensures g.sendWG == {} && !g.closer.Parked?
  {
    forall i ensures i !in g.sendWG && !At(g, i, Releasing) {
      assert Distance(g, i) == 0;
    }
  }

  /** What the closer does once nobody is registered. */
  const CLOSE: seq<Action> := [Wait, Return, CloseChannel]

  /** How far it has come after `n` of these turns. */
  predicate Along(g: Gate, n: nat) {
    && g.outboxClosed && g.sendWG == {} && !g.closer.Open? && !g.closer.Parked? && !g.closer.Crashed?
    && (n >= 1 ==> !g.closer.Called?) && (n >= 2 ==> !g.closer.Woken?) && (n >= 3 ==> g.closer.Closed?)
  }

  lemma StepKeepsAlong(g: Gate, a: Action, n: nat)
    requires Along(g, n)
    ensures Along(Step(g, a), n) && (n < 3 && a == CLOSE[n] ==> Along(Step(g, a), n + 1))
  {
  }

  lemma {:induction false} RunOn(g: Gate, acts: seq<Action>, front: seq<Action>, a: Action)
    ensures Run(g, acts + (front + [a])) == Step(Run(g, acts + front), a)
  {
    assert (acts + (front + [a]))[..|acts| + |front|] == acts + front;
  }

  lemma {:induction false} CloserComes(g: Gate, acts: seq<Action>, more: seq<Action>)
    requires Along(Run(g, acts), 0)
    ensures Along(Run(g, acts + more), Matched(more, CLOSE))
  {
    if more == [] {
      assert acts + more == acts;
    } else {
      var front, a := more[..|more| - 1], more[|more| - 1];
      CloserComes(g, acts, front);
      assert more == front + [a];
      RunOn(g, acts, front, a);
      StepKeepsAlong(Run(g, acts + front), a, Matched(front, CLOSE));
    }
  }

  /** And every run that gives each sender its turns and then the closer its own, whatever else
      happens in between, ends with the channel closed: registered senders cannot block the
      closer, whatever the transport does. */
  lemma EveryFairRunCloses(g: Gate, acts: seq<Action>, more: seq<Action>)
    requires Inv(g) && ReleaseInv(g) && g.outboxClosed && g.cancelled
    requires (forall i <- g.senders :: Contains(acts, Exit(i))) && Contains(more, CLOSE)
    ensures Run(g, acts + more).channelClosed
  {
    RunKeepsInv(g, acts);
    forall i ensures Distance(Run(g, acts), i) == 0 {
      TurnsBring(g, acts, i);
    }
    TurnsBring(g, acts, 0);
    AllBack(Run(g, acts));
    CloserComes(g, acts, more);
    RunKeepsInv(g, acts + more);
  }

  /** After cancellation no sender can be held up by the transport or by anyone else: one of
      its own steps is always enabled. */
  lemma SenderCanMove(g: Gate, i: nat) returns (a: Action)
    requires g.cancelled && i in g.senders && !g.senders[i].Returned?
    ensures Of(a, i) && Step(g, a) != g
  {
    match g.senders[i] {
      case Selecting => a := GiveUp(i);
      case Releasing => a := Release(i);
      case _ => a := Leave(i);
    }
    assert Step(g, a).senders[i] != g.senders[i];
  }

  // ---------------------------------------------------------------- while the outbox is open

  /** Until the session is cancelled, a sender leaves its select only by sending, and only while
      the writer leaves room. */
  lemma OnlySendingLeaves(g: Gate, a: Action, i: nat)
    requires Inv(g) && At(g, i, Selecting) && !g.cancelled && !At(Step(g, a), i, Selecting)
    ensures a == SendOn(i) && g.room > 0 && Step(g, a).room == g.room - 1 && !Step(g, a).panicked
  {
  }

  /** What a sender does from end to end. */
  function Sending(i: nat): seq<Action> {
    [Enter(i), SendOn(i), Leave(i)]
  }

  /** An open outbox with room takes the envelope of any newcomer; a closing one turns it away
      without counting it in. */
  lemma OpenTakesClosedRefuses(g: Gate, i: nat)
    requires Inv(g) && i !in g.senders && g.room > 0
    ensures var g' := Run(g, Sending(i));
            At(g', i, Returned) && g'.sendWG == g.sendWG && g'.room == if g.outboxClosed then g.room else g.room - 1
  {
    var all := Sending(i);
    assert all[..2] == [Enter(i), SendOn(i)] && all[..2][..1] == [Enter(i)] && [Enter(i)][..0] == [];
    assert Run(g, [Enter(i)]) == Step(g, Enter(i));
    assert Run(g, all[..2]) == Step(Step(g, Enter(i)), SendOn(i));
    assert Run(g, all) == Step(Step(Step(g, Enter(i)), SendOn(i)), Leave(i));
    assert i !in g.sendWG;
  }
}
