/**
  The close barrier of a client JobHandle (client/handle.go: pushEvent, deliver,
  deliverChunk, finish). Unlike the outbox, a sender registers before it looks at the done
  flag, and may arrive while the closer is still on its way out of Wait.
 */
module HandleBarrier {
  import opened Base

  /** Senders: registered but not yet past isDone; selecting on eventsCh; selecting on
      chunksCh; about to call Done; about to release the waiter; gone. */
  datatype Pc = Entered | OnEvents | OnChunks | Leaving | Releasing | Gone

  /** The finisher that closed doneCh: about to Wait; parked in Wait; released but not
      returned from it; past Wait; past close(eventsCh); returned; or down with the group's
      panic. */
  datatype Closer = Open | Called | Parked | Woken | Closing | HalfClosed | Finished | Crashed

  /** `panicked` records misuse of a channel, `misused` of the WaitGroup; `onLoop` says that the
      finisher is the read loop itself, which also makes all deliveries. */
  datatype Handle = Handle(
    settled: bool, doneClosed: bool, deliverWG: set<nat>,
    eventsClosed: bool, chunksClosed: bool, panicked: bool, misused: bool,
    senders: map<nat, Pc>, finishers: set<nat>, closer: Closer, onLoop: bool)

  const START := Handle(false, false, {}, false, false, false, false, map[], {}, Open, false)

  datatype Action =
    | Enter(i: nat)                         // deliverWG.Add(1)
    | CheckDone(i: nat)
    | SendEvent(i: nat, isChunk: bool)      // select takes the eventsCh case
    | SendChunk(i: nat)
    | Abandon(i: nat)                       // doneCh, client context, or delivery timeout
    | Leave(i: nat)                         // deliverWG.Done: count down
    | Release(i: nat)                       // the Done that reached zero wakes the waiter
    | Finish(j: nat, outcome: bool, onLoop: bool) // under mu; `outcome`: a result or an error is given
    | Wait
    | Return
    | CloseEvents
    | CloseChunks

  predicate At(h: Handle, i: nat, pc: Pc) {
    i in h.senders && h.senders[i] == pc
  }

  predicate OfCloser(a: Action) {
    a.Finish? || a.Wait? || a.Return? || a.CloseEvents? || a.CloseChunks?
  }

  function SenderStep(h: Handle, a: Action): Handle
    requires !OfCloser(a)
  {
    match a
    case Enter(i) =>
      if i in h.senders then h
      else
        h.(senders := h.senders[i := Entered], deliverWG := h.deliverWG + {i},
           misused := h.misused || (h.deliverWG == {} && h.closer.Parked?))
    case CheckDone(i) =>
      if At(h, i, Entered) then h.(senders := h.senders[i := if h.doneClosed then Leaving else OnEvents]) else h
    case SendEvent(i, isChunk) =>
      if At(h, i, OnEvents) then
        h.(senders := h.senders[i := if isChunk then OnChunks else Leaving], panicked := h.panicked || h.eventsClosed)
      else h
    case SendChunk(i) =>
      if At(h, i, OnChunks) then h.(senders := h.senders[i := Leaving], panicked := h.panicked || h.chunksClosed) else h
    case Abandon(i) =>
      if At(h, i, OnEvents) || At(h, i, OnChunks) then h.(senders := h.senders[i := Leaving]) else h
    case Leave(i) =>
      if At(h, i, Leaving) then
        var left := h.deliverWG - {i};
        h.(senders := h.senders[i := if left == {} && h.closer.Parked? then Releasing else Gone], deliverWG := left)
      else h
    case Release(i) =>
      if At(h, i, Releasing) then
        h.(senders := h.senders[i := Gone], misused := h.misused || h.deliverWG != {},
           closer := if h.closer.Parked? then Woken else h.closer)
      else h
  }

  /** A second close of doneCh stops the finisher that attempts it. */
  function CloserStep(h: Handle, a: Action): Handle
    requires OfCloser(a)
  {
    match a
    case Finish(j, outcome, onLoop) =>
      if h.settled || j in h.finishers then h
      else if h.doneClosed then h.(settled := outcome, panicked := true, finishers := h.finishers + {j})
      else
        h.(settled := outcome, doneClosed := true, finishers := h.finishers + {j}, closer := Called, onLoop := onLoop)
    case Wait =>
      if h.closer.Called? then h.(closer := if h.deliverWG == {} then Closing else Parked) else h
    case Return =>
      if !h.closer.Woken? then h
      else if h.deliverWG != {} then h.(closer := Crashed, misused := true)
      else h.(closer := Closing)
    case CloseEvents =>
      if h.closer.Closing? then h.(closer := HalfClosed, panicked := h.panicked || h.eventsClosed, eventsClosed := true)
      else h
    case CloseChunks =>
      if h.closer.HalfClosed? then
        h.(closer := Finished, panicked := h.panicked || h.chunksClosed, chunksClosed := true)
      else h
  }

  /** One step; an action whose turn has not come changes nothing. */
  function Step(h: Handle, a: Action): Handle {
    if OfCloser(a) then CloserStep(h, a) else SenderStep(h, a)
  }

  function Run(acts: seq<Action>): Handle {
    if acts == [] then START else Step(Run(acts[..|acts| - 1]), acts[|acts| - 1])
  }

  // ---------------------------------------------------------------- the channels

  predicate PastWait(c: Closer) {
    c.Closing? || c.HalfClosed? || c.Finished?
  }

  ghost predicate Inv(h: Handle) {
    && (forall i :: i in h.deliverWG <==> i in h.senders && h.senders[i] != Gone && h.senders[i] != Releasing)
    && h.doneClosed == !h.closer.Open? && (h.settled ==> h.doneClosed)
    && (PastWait(h.closer) ==> forall i :: i in h.senders ==> h.senders[i] != OnEvents && h.senders[i] != OnChunks)
    && (h.eventsClosed <==> h.closer.HalfClosed? || h.closer.Finished?)
    && (h.chunksClosed <==> h.closer.Finished?)
    && !h.panicked
  }

  /** A second finisher gets past the guard because the first left neither result nor
      error behind. */
  predicate Clash(h: Handle, a: Action) {
    a.Finish? && h.doneClosed && !h.settled && a.j !in h.finishers
  }

  lemma CloserKeepsInv(h: Handle, a: Action)
    requires Inv(h) && OfCloser(a) && !Clash(h, a)
    ensures Inv(CloserStep(h, a))
  {
  }

  lemma SenderKeepsInv(h: Handle, a: Action)
    requires Inv(h) && !OfCloser(a)
    ensures Inv(SenderStep(h, a))
  {
  }

  lemma StepKeepsInv(h: Handle, a: Action)
    requires Inv(h) && !Clash(h, a)
    ensures Inv(Step(h, a))
  {
    if OfCloser(a) {
      CloserKeepsInv(h, a);
    } else {
      SenderKeepsInv(h, a);
    }
  }

  /** The first call of finish in a run. */
  function First(acts: seq<Action>): (first: Option<Action>)
    ensures first.Some? ==> first.value.Finish? && first.value in acts
    ensures first.None? ==> forall a <- acts :: !a.Finish?
  {
    if acts == [] then None
    else
      var earlier := First(acts[..|acts| - 1]);
      var last := acts[|acts| - 1];
      if earlier.Some? then earlier else if last.Finish? then Some(last) else None
  }

  ghost predicate EmptyThenOther(acts: seq<Action>) {
    First(acts).Some? && !First(acts).value.outcome && exists a <- acts :: a.Finish? && a.j != First(acts).value.j
  }

  ghost predicate Shape(h: Handle, first: Option<Action>)
    requires first.Some? ==> first.value.Finish?
  {
    && Inv(h)
    && h.finishers == (if first.Some? then {first.value.j} else {})
    && h.doneClosed == first.Some? && h.settled == (first.Some? && first.value.outcome)
  }

  function NextFirst(first: Option<Action>, a: Action): Option<Action> {
    if first.Some? then first else if a.Finish? then Some(a) else None
  }

  lemma StepShape(h: Handle, first: Option<Action>, a: Action)
    requires first.Some? ==> first.value.Finish?
    requires Shape(h, first)
    ensures Clash(h, a) <==> first.Some? && !first.value.outcome && a.Finish? && a.j != first.value.j
    ensures !Clash(h, a) ==> Shape(Step(h, a), NextFirst(first, a))
  {
    if !Clash(h, a) {
      StepKeepsInv(h, a);
    }
  }

  lemma CloserPanicStays(h: Handle, a: Action)
    requires OfCloser(a) && (h.panicked || Clash(h, a))
    ensures CloserStep(h, a).panicked
  {
  }

  lemma SenderPanicStays(h: Handle, a: Action)
    requires !OfCloser(a) && h.panicked
    ensures SenderStep(h, a).panicked
  {
  }

  lemma PanicStays(h: Handle, a: Action)
    requires h.panicked || Clash(h, a)
    ensures Step(h, a).panicked
  {
    if OfCloser(a) {
      CloserPanicStays(h, a);
    } else {
      SenderPanicStays(h, a);
    }
  }

  lemma EmptySnoc(front: seq<Action>, a: Action)
    ensures First(front + [a]) == NextFirst(First(front), a)
    ensures EmptyThenOther(front + [a]) <==>
              || EmptyThenOther(front)
              || (First(front).Some? && !First(front).value.outcome && a.Finish? && a.j != First(front).value.j)
  {
    var acts := front + [a];
    assert acts[..|acts| - 1] == front;
    assert forall x :: x in acts <==> x in front || x == a;
  }

  lemma {:induction false} RunShape(acts: seq<Action>)
    ensures Run(acts).panicked <==> EmptyThenOther(acts)
    ensures !EmptyThenOther(acts) ==> Shape(Run(acts), First(acts))
  {
    if acts != [] {
      var front, a := acts[..|acts| - 1], acts[|acts| - 1];
      RunShape(front);
      assert acts == front + [a];
      EmptySnoc(front, a);
      if !EmptyThenOther(front) {
        StepShape(Run(front), First(front), a);
      }
      if EmptyThenOther(acts) {
        PanicStays(Run(front), a);
      }
    }
  }

  /** Over every interleaving of deliveries and finishers, a channel of the handle is sent on
      after its close, or closed twice, iff the first finish had neither result nor error
      and a second finish follows. */
  lemma ChannelsMisusedIff(acts: seq<Action>)
    ensures Run(acts).panicked <==> EmptyThenOther(acts)
  {
    RunShape(acts);
  }

  /** Every finisher passes a result or an error, as every caller does. */
  ghost predicate Settling(acts: seq<Action>) {
    forall a <- acts :: a.Finish? ==> a.outcome
  }

  /** Then no channel is misused; the done channel is closed iff the handle is settled, and the
      value channels are closed only after it, with no delivery still selecting on them. */
  lemma ChannelsNeverMisused(acts: seq<Action>)
    requires Settling(acts)
    ensures !Run(acts).panicked && Run(acts).settled == Run(acts).doneClosed
    ensures Run(acts).eventsClosed || Run(acts).chunksClosed ==>
              Run(acts).doneClosed && forall i <- Run(acts).senders ::
                Run(acts).senders[i] != OnEvents && Run(acts).senders[i] != OnChunks
  {
    RunShape(acts);
  }

  // ---------------------------------------------------------------- the WaitGroup

  ghost predicate ReleaseInv(h: Handle) {
    && (forall i :: At(h, i, Releasing) ==> h.deliverWG == {} && h.closer.Parked?)
    && (forall i, u :: At(h, i, Releasing) && At(h, u, Releasing) ==> i == u)
    && !h.closer.Crashed?
  }

  lemma StepKeepsRelease(h: Handle, a: Action)
    requires Inv(h) && ReleaseInv(h) && !Step(h, a).misused
    ensures ReleaseInv(Step(h, a))
  {
    var h' := Step(h, a);
    forall i
      ensures At(h', i, Releasing) ==> At(h, i, Releasing) || (a == Leave(i) && h'.deliverWG == {} && h.closer.Parked?)
    {
    }
  }

  lemma CloserMisuseStays(h: Handle, a: Action)
    requires OfCloser(a) && (h.misused)
    ensures CloserStep(h, a).misused
  {
  }

  lemma SenderMisuseStays(h: Handle, a: Action)
    requires !OfCloser(a) && h.misused
    ensures SenderStep(h, a).misused
  {
  }

  lemma MisuseStays(h: Handle, a: Action)
    requires h.misused
    ensures Step(h, a).misused
  {
    if OfCloser(a) {
      CloserMisuseStays(h, a);
    } else {
      SenderMisuseStays(h, a);
    }
  }

  lemma {:induction false} RunKeepsRelease(acts: seq<Action>)
    requires Settling(acts) && !Run(acts).misused
    ensures Inv(Run(acts)) && ReleaseInv(Run(acts))
  {
    RunShape(acts);
    if acts != [] {
      var front, a := acts[..|acts| - 1], acts[|acts| - 1];
      RunShape(front);
      if Run(front).misused {
        MisuseStays(Run(front), a);
      } else {
        RunKeepsRelease(front);
        StepKeepsRelease(Run(front), a);
      }
    }
  }

  lemma {:induction false} RunAppend(acts: seq<Action>, a: Action)
    ensures Run(acts + [a]) == Step(Run(acts), a)
  {
    assert (acts + [a])[..|acts|] == acts;
  }

  /** Past Wait the group can no longer be misused. */
  ghost predicate Safe(h: Handle) {
    PastWait(h.closer) && h.settled && !h.misused && forall i :: !At(h, i, Releasing)
  }

  lemma StepKeepsSafe(h: Handle, a: Action)
    requires Safe(h)
    ensures Safe(Step(h, a))
  {
    forall i ensures !At(Step(h, a), i, Releasing) {
      assert !At(h, i, Releasing);
    }
    if a.Release? {
      assert !At(h, a.i, Releasing);
    }
  }

  lemma {:induction false} RunKeepsSafe(acts: seq<Action>, more: seq<Action>)
    requires Safe(Run(acts))
    ensures Safe(Run(acts + more))
  {
    if more == [] {
      assert acts + more == acts;
    } else {
      var front, a := more[..|more| - 1], more[|more| - 1];
      RunKeepsSafe(acts, front);
      assert acts + more == (acts + front) + [a];
      RunAppend(acts + front, a);
      StepKeepsSafe(Run(acts + front), a);
    }
  }

  // ---------------------------------------------------------------- one read loop

  predicate AllGone(h: Handle) {
    forall i <- h.senders :: h.senders[i] == Gone
  }

  /** The read loop is inside finish. */
  predicate LoopBusy(h: Handle) {
    h.onLoop && !h.closer.Finished?
  }

  /** What the one read loop allows: the next delivery starts after the last one is over and
      after a finish of its own, and it finishes the handle itself only between deliveries. */
  predicate Allowed(h: Handle, a: Action) {
    && (a.Enter? ==> AllGone(h) && !LoopBusy(h))
    && (a.Finish? && a.onLoop ==> AllGone(h))
  }

  ghost predicate Serial(acts: seq<Action>) {
    acts != [] ==> Serial(acts[..|acts| - 1]) && Allowed(Run(acts[..|acts| - 1]), acts[|acts| - 1])
  }

  lemma SerialAppend(acts: seq<Action>, a: Action)
    requires Serial(acts) && Allowed(Run(acts), a)
    ensures Serial(acts + [a])
  {
    assert (acts + [a])[..|acts|] == acts;
  }

  lemma {:induction false} SerialPrefix(acts: seq<Action>, more: seq<Action>)
    requires Serial(acts + more)
    ensures Serial(acts)
  {
    if more == [] {
      assert acts + more == acts;
    } else {
      assert (acts + more)[..|acts + more| - 1] == acts + more[..|more| - 1];
      SerialPrefix(acts, more[..|more| - 1]);
    }
  }

  /** A finish on the read loop finds nobody registered, so its Wait never parks. */
  ghost predicate LoopInv(h: Handle) {
    h.onLoop ==> !h.closer.Open? && !h.closer.Parked? && !h.closer.Woken? && !h.closer.Crashed?
                 && (h.closer.Called? ==> AllGone(h))
  }

  lemma StepKeepsLoop(h: Handle, a: Action)
    requires Inv(h) && LoopInv(h) && Allowed(h, a) && !Clash(h, a)
    ensures LoopInv(Step(h, a))
  {
    if h.onLoop && h.closer.Called? && a.Wait? {
      assert h.deliverWG == {};
    }
  }

  lemma {:induction false} RunKeepsLoop(acts: seq<Action>)
    requires Settling(acts) && Serial(acts)
    ensures LoopInv(Run(acts))
  {
    if acts != [] {
      var front, a := acts[..|acts| - 1], acts[|acts| - 1];
      RunKeepsLoop(front);
      RunShape(front);
      RunShape(acts);
      assert a in acts;
      StepKeepsLoop(Run(front), a);
    }
  }

  // ---------------------------------------------------------------- when the group can be misused

  /** Some continuation the read loop allows panics. */
  ghost predicate CanMisuse(acts: seq<Action>) {
    exists more :: Settling(more) && Serial(acts + more) && Run(acts + more).misused
  }

  /** One step on the way to a misuse. */
  lemma Prefix(acts: seq<Action>, a: Action)
    requires (a.Finish? ==> a.outcome) && CanMisuse(acts + [a])
    ensures CanMisuse(acts)
  {
    var more :| Settling(more) && Serial(acts + [a] + more) && Run(acts + [a] + more).misused;
    assert acts + [a] + more == acts + ([a] + more);
    assert Settling([a] + more);
  }

  lemma Already(acts: seq<Action>)
    requires Serial(acts) && Run(acts).misused
    ensures CanMisuse(acts)
  {
    assert acts + [] == acts && Settling([]);
  }

  lemma Newcomer(h: Handle) returns (i: nat)
    ensures i !in h.senders
  {
    i := Beyond(h.senders.Keys);
  }

  lemma {:induction false} Beyond(s: set<nat>) returns (n: nat)
    ensures forall x <- s :: x < n
  {
    if x :| x in s {
      var m := Beyond(s - {x});
      n := if m > x then m else x + 1;
      assert forall y <- s :: y == x || y in s - {x};
    } else {
      n := 0;
    }
  }

  /** The state is sound, its finisher has an outcome and runs beside the read loop. */
  ghost predicate Beside(acts: seq<Action>) {
    && Serial(acts) && Inv(Run(acts)) && ReleaseInv(Run(acts))
    && Run(acts).settled && !Run(acts).onLoop && !Run(acts).misused
  }

  /** A step other than a registration or a finish, taken on the way. */
  lemma {:induction false} BesideStep(acts: seq<Action>, a: Action)
    requires Beside(acts) && !a.Enter? && !a.Finish? && !Step(Run(acts), a).misused
    ensures Beside(acts + [a]) && Run(acts + [a]) == Step(Run(acts), a)
  {
    RunAppend(acts, a);
    SerialAppend(acts, a);
    StepKeepsInv(Run(acts), a);
    StepKeepsRelease(Run(acts), a);
  }

  /** The woken Wait finds the group in use, by the delivery that came in after the release. */
  lemma WokenCanMisuse(acts: seq<Action>)
    requires Beside(acts) && Run(acts).closer.Woken?
    ensures CanMisuse(acts)
  {
    var h := Run(acts);
    if h.deliverWG != {} {
      RunAppend(acts, Return);
      SerialAppend(acts, Return);
      Already(acts + [Return]);
    } else {
      var i := Newcomer(h);
      NobodyLeft(h);
      RunAppend(acts, Enter(i));
      SerialAppend(acts, Enter(i));
      RunAppend(acts + [Enter(i)], Return);
      SerialAppend(acts + [Enter(i)], Return);
      Already(acts + [Enter(i)] + [Return]);
      Prefix(acts + [Enter(i)], Return);
      Prefix(acts, Enter(i));
      return;
    }
    Prefix(acts, Return);
  }

  lemma NobodyLeft(h: Handle)
    requires Inv(h) && ReleaseInv(h) && h.deliverWG == {} && !h.closer.Parked?
    ensures AllGone(h)
  {
    forall i <- h.senders ensures h.senders[i] == Gone {
      assert !At(h, i, Releasing);
      assert i !in h.deliverWG;
    }
  }

  lemma ReleaseWakes(h: Handle, i: nat)
    requires ReleaseInv(h) && At(h, i, Releasing)
    ensures Step(h, Release(i)).misused == h.misused && Step(h, Release(i)).closer.Woken?
  {
  }

  lemma {:induction false} ReleasingCanMisuse(acts: seq<Action>, i: nat)
    requires Beside(acts) && At(Run(acts), i, Releasing)
    ensures CanMisuse(acts)
  {
    ReleaseWakes(Run(acts), i);
    BesideStep(acts, Release(i));
    WokenCanMisuse(acts + [Release(i)]);
    Prefix(acts, Release(i));
  }

  /** With the closer parked, let the delivery go; its Done releases the closer, and the next
      delivery comes in before Wait has returned. */
  lemma {:induction false} ParkedCanMisuse(acts: seq<Action>, i: nat)
    requires Beside(acts) && Run(acts).closer.Parked? && i in Run(acts).deliverWG
    ensures CanMisuse(acts)
    decreases |Run(acts).deliverWG|
  {
    var all := LeavesByItself(acts, i);
    if At(Run(all), i, Releasing) {
      ReleasingCanMisuse(all, i);
    } else {
      var u :| u in Run(all).deliverWG;
      ParkedCanMisuse(all, u);
    }
    Prefix(acts + [CheckDone(i)] + [Abandon(i)], Leave(i));
    Prefix(acts + [CheckDone(i)], Abandon(i));
    Prefix(acts, CheckDone(i));
  }

  lemma LeavesByItself(acts: seq<Action>, i: nat) returns (all: seq<Action>)
    requires Beside(acts) && Run(acts).closer.Parked? && i in Run(acts).deliverWG
    ensures all == acts + [CheckDone(i)] + [Abandon(i)] + [Leave(i)] && Beside(all)
    ensures Run(all).closer.Parked? && Run(all).deliverWG == Run(acts).deliverWG - {i}
    ensures Run(all).deliverWG == {} ==> At(Run(all), i, Releasing)
  {
    BesideStep(acts, CheckDone(i));
    BesideStep(acts + [CheckDone(i)], Abandon(i));
    assert At(Run(acts + [CheckDone(i)] + [Abandon(i)]), i, Leaving);
    all := acts + [CheckDone(i)] + [Abandon(i)] + [Leave(i)];
    BesideStep(acts + [CheckDone(i)] + [Abandon(i)], Leave(i));
  }

  lemma CalledCanMisuse(acts: seq<Action>, i: nat)
    requires Beside(acts) && Run(acts).closer.Called? && i in Run(acts).deliverWG
    ensures CanMisuse(acts)
  {
    BesideStep(acts, Wait);
    ParkedCanMisuse(acts + [Wait], i);
    Prefix(acts, Wait);
  }

  /** A finisher is about to wait, and the next delivery comes in first. */
  lemma EarlyCanMisuse(acts: seq<Action>)
    requires Beside(acts) && Run(acts).closer.Called?
    ensures CanMisuse(acts)
  {
    var h := Run(acts);
    if i :| i in h.deliverWG {
      CalledCanMisuse(acts, i);
    } else {
      NobodyLeft(h);
      var i := Newcomer(h);
      RunAppend(acts, Enter(i));
      SerialAppend(acts, Enter(i));
      StepKeepsInv(h, Enter(i));
      StepKeepsRelease(h, Enter(i));
      CalledCanMisuse(acts + [Enter(i)], i);
      Prefix(acts, Enter(i));
    }
  }

  lemma OpenCanMisuse(acts: seq<Action>)
    requires Serial(acts) && Inv(Run(acts)) && ReleaseInv(Run(acts)) && !Run(acts).misused
    requires Run(acts).closer.Open? && !Run(acts).onLoop
    ensures CanMisuse(acts)
  {
    var h := Run(acts);
    var j := Beyond(h.finishers);
    var a := Finish(j, true, false);
    RunAppend(acts, a);
    SerialAppend(acts, a);
    StepKeepsInv(h, a);
    StepKeepsRelease(h, a);
    EarlyCanMisuse(acts + [a]);
    Prefix(acts, a);
  }

  /** The WaitGroup panics on reuse before Wait has returned. From any state that deliveries on
      the one read loop and finishers with an outcome can reach, without a panic so far, some
      continuation gets there iff no finisher is past Wait and none is the read loop itself. */
  lemma MisusePossibleIff(acts: seq<Action>)
    requires Settling(acts) && Serial(acts) && !Run(acts).misused
    ensures CanMisuse(acts) <==> !PastWait(Run(acts).closer) && !Run(acts).onLoop
  {
    RunKeepsRelease(acts);
    RunKeepsLoop(acts);
    RunShape(acts);
    var h := Run(acts);
    if PastWait(h.closer) {
      assert Safe(h);
      forall more ensures !Run(acts + more).misused {
        RunKeepsSafe(acts, more);
      }
    } else if h.onLoop {
      forall more | Settling(more) && Serial(acts + more) ensures !Run(acts + more).misused {
        LoopStaysSafe(acts, more);
      }
    } else {
      match h.closer {
        case Open => OpenCanMisuse(acts);
        case Called => EarlyCanMisuse(acts);
        case Woken => WokenCanMisuse(acts);
        case Parked =>
          if i :| i in h.deliverWG {
            ParkedCanMisuse(acts, i);
          } else {
            ParkedHasReleaser(acts);
            var i :| At(h, i, Releasing);
            ReleasingCanMisuse(acts, i);
          }
      }
    }
  }

  /** A parked closer with nobody registered has a release coming. */
  lemma {:induction false} ParkedHasReleaser(acts: seq<Action>)
    requires Settling(acts) && !Run(acts).misused
    ensures Run(acts).closer.Parked? && Run(acts).deliverWG == {} ==> exists i :: At(Run(acts), i, Releasing)
  {
    if acts != [] {
      var front, a := acts[..|acts| - 1], acts[|acts| - 1];
      if Run(front).misused {
        MisuseStays(Run(front), a);
      }
      ParkedHasReleaser(front);
      RunKeepsRelease(front);
      StepKeepsReleaser(Run(front), a);
    }
  }

  ghost predicate HasReleaser(h: Handle) {
    h.closer.Parked? && h.deliverWG == {} ==> exists i :: At(h, i, Releasing)
  }

  lemma StepKeepsReleaser(h: Handle, a: Action)
    requires Inv(h) && HasReleaser(h)
    ensures HasReleaser(Step(h, a))
  {
    var h' := Step(h, a);
    if h'.closer.Parked? && h'.deliverWG == {} {
      if a.Leave? && h.deliverWG != {} {
        assert At(h', a.i, Releasing);
      } else {
        assert h.closer.Parked? && h.deliverWG == {};
        var i :| At(h, i, Releasing);
        assert At(h', i, Releasing);
      }
    }
  }

  /** The read loop in its own finish. */
  ghost predicate Alone(h: Handle) {
    h.onLoop && h.settled && !h.misused && h.deliverWG == {} && AllGone(h) && h.closer.Called?
  }

  lemma StepKeepsAlone(h: Handle, a: Action)
    requires (Alone(h) || Safe(h)) && Allowed(h, a)
    ensures Alone(Step(h, a)) || Safe(Step(h, a))
  {
    if Safe(h) {
      StepKeepsSafe(h, a);
    }
  }

  lemma {:induction false} LoopStaysSafe(acts: seq<Action>, more: seq<Action>)
    requires Settling(acts) && Serial(acts + more) && Run(acts).onLoop && !Run(acts).misused
    ensures Alone(Run(acts + more)) || Safe(Run(acts + more))
  {
    if more == [] {
      assert acts + more == acts;
      RunShape(acts);
      RunKeepsLoop(acts);
      RunKeepsRelease(acts);
    } else {
      var front, a := more[..|more| - 1], more[|more| - 1];
      assert (acts + more)[..|acts + more| - 1] == acts + front;
      LoopStaysSafe(acts, front);
      StepKeepsAlone(Run(acts + front), a);
    }
  }

  ghost predicate Path(acts: seq<Action>, h: Handle) {
    Serial(acts) && Run(acts) == h
  }

  lemma {:induction false} Extend(acts: seq<Action>, h: Handle, a: Action)
    requires Path(acts, h) && Allowed(h, a)
    ensures Path(acts + [a], Step(h, a))
  {
    SerialAppend(acts, a);
    RunAppend(acts, a);
  }

  /** `h` with the one delivery `i`. */
  function Busy(h: Handle, i: nat, pc: Pc): Handle {
    h.(senders := h.senders[i := pc], deliverWG := {i})
  }

  lemma TimeoutSteps(h: Handle, i: nat)
    requires Inv(h) && AllGone(h) && h.closer.Open? && !h.misused && i !in h.senders
    ensures Step(h, Enter(i)) == Busy(h, i, Entered)
    ensures Step(Busy(h, i, Entered), CheckDone(i)) == Busy(h, i, OnEvents)
    ensures Step(Busy(h, i, OnEvents), Abandon(i)) == Busy(h, i, Leaving)
  {
    assert h.deliverWG == {};
    assert h.senders[i := Entered][i := OnEvents] == h.senders[i := OnEvents];
    assert h.senders[i := OnEvents][i := Leaving] == h.senders[i := Leaving];
  }

  /** A delivery begins, times out and is still registered when the handle is failed from
      beside the read loop. */
  lemma {:induction false} TimeoutFails(acts: seq<Action>, h: Handle, i: nat, j: nat)
    requires Path(acts, h) && Inv(h) && AllGone(h) && h.closer.Open? && !h.onLoop && !h.misused && !h.settled
    requires i !in h.senders && j !in h.finishers
    ensures Path(acts + [Enter(i)] + [CheckDone(i)] + [Abandon(i)] + [Finish(j, true, false)],
                 Busy(h, i, Leaving).(settled := true, doneClosed := true, finishers := h.finishers + {j},
                                      closer := Called))
  {
    TimeoutSteps(h, i);
    Extend(acts, h, Enter(i));
    Extend(acts + [Enter(i)], Busy(h, i, Entered), CheckDone(i));
    Extend(acts + [Enter(i)] + [CheckDone(i)], Busy(h, i, OnEvents), Abandon(i));
    Extend(acts + [Enter(i)] + [CheckDone(i)] + [Abandon(i)], Busy(h, i, Leaving), Finish(j, true, false));
  }

  lemma EarlySteps(h: Handle, i: nat)
    requires h.closer.Called? && !h.misused && h.deliverWG == {i} && At(h, i, Leaving)
    ensures var parked := h.(closer := Parked);
            var down := parked.(senders := h.senders[i := Releasing], deliverWG := {});
            && Step(h, Wait) == parked && Step(parked, Leave(i)) == down
            && Step(down, Release(i)) == down.(senders := h.senders[i := Gone], closer := Woken)
  {
    assert {i} - {i} == {};
    assert h.senders[i := Releasing][i := Gone] == h.senders[i := Gone];
  }

  /** Its Done releases the closer, and the next delivery comes in before Wait has returned. */
  lemma {:induction false} EarlyNext(acts: seq<Action>, h: Handle, i: nat, u: nat)
    requires Path(acts, h) && h.closer.Called? && !h.onLoop && !h.misused && h.deliverWG == {i} && At(h, i, Leaving)
    requires (forall x <- h.senders :: x == i || h.senders[x] == Gone) && u !in h.senders
    ensures var all := acts + [Wait] + [Leave(i)] + [Release(i)] + [Enter(u)] + [Return];
            Serial(all) && Run(all).misused
  {
    EarlySteps(h, i);
    var h1 := h.(closer := Parked);
    var h2 := h1.(senders := h.senders[i := Releasing], deliverWG := {});
    var h3 := h2.(senders := h.senders[i := Gone], closer := Woken);
    Extend(acts, h, Wait);
    Extend(acts + [Wait], h1, Leave(i));
    Extend(acts + [Wait] + [Leave(i)], h2, Release(i));
    assert AllGone(h3);
    Extend(acts + [Wait] + [Leave(i)] + [Release(i)], h3, Enter(u));
    Extend(acts + [Wait] + [Leave(i)] + [Release(i)] + [Enter(u)], Step(h3, Enter(u)), Return);
  }

  /** The run of a delivery timeout, from any state with the handle unfinished and no delivery
      under way: it panics. */
  lemma TimeoutRunPanics(acts: seq<Action>, i: nat, u: nat, j: nat)
    requires Settling(acts) && Serial(acts) && Run(acts).closer.Open? && AllGone(Run(acts)) && !Run(acts).misused
    requires i != u && i !in Run(acts).senders && u !in Run(acts).senders
    ensures var failed := acts + [Enter(i)] + [CheckDone(i)] + [Abandon(i)] + [Finish(j, true, false)];
            var all := failed + [Wait] + [Leave(i)] + [Release(i)] + [Enter(u)] + [Return];
            Serial(all) && Run(all).misused
  {
    RunShape(acts);
    RunKeepsLoop(acts);
    var failed := acts + [Enter(i)] + [CheckDone(i)] + [Abandon(i)] + [Finish(j, true, false)];
    TimeoutFails(acts, Run(acts), i, j);
    EarlyNext(failed, Run(failed), i, u);
  }

  // ---------------------------------------------------------------- when it cannot

  /** No delivery registers between the close of the done channel and the return of Wait. */
  ghost predicate Quiet(acts: seq<Action>) {
    acts != [] ==>
      && Quiet(acts[..|acts| - 1])
      && (acts[|acts| - 1].Enter? ==>
            !Run(acts[..|acts| - 1]).doneClosed || PastWait(Run(acts[..|acts| - 1]).closer))
  }

  ghost predicate QuietInv(h: Handle) {
    ReleaseInv(h) && !h.misused && (h.closer.Woken? ==> h.deliverWG == {})
  }

  lemma StepKeepsQuiet(h: Handle, a: Action)
    requires Inv(h) && QuietInv(h) && (a.Enter? ==> !h.doneClosed || PastWait(h.closer))
    ensures QuietInv(Step(h, a))
  {
    if a.Release? {
      assert At(h, a.i, Releasing) ==> h.deliverWG == {};
    }
    assert !Step(h, a).misused;
    StepKeepsRelease(h, a);
  }

  /** A run in which no delivery registers between the close of the done channel and the return
      of Wait never panics at all. */
  lemma {:induction false} QuietNeverPanics(acts: seq<Action>)
    requires Settling(acts) && Quiet(acts)
    ensures !Run(acts).panicked && !Run(acts).misused && QuietInv(Run(acts))
  {
    ChannelsNeverMisused(acts);
    if acts != [] {
      QuietNeverPanics(acts[..|acts| - 1]);
      RunShape(acts[..|acts| - 1]);
      StepKeepsQuiet(Run(acts[..|acts| - 1]), acts[|acts| - 1]);
    }
  }

  /** So a handle that only the read loop finishes never panics. */
  lemma LoopFinishNeverPanics(acts: seq<Action>)
    requires Settling(acts) && Serial(acts) && forall a <- acts :: a.Finish? ==> a.onLoop
    ensures !Run(acts).panicked && !Run(acts).misused
  {
    LoopIsQuiet(acts);
    QuietNeverPanics(acts);
  }

  lemma SenderKeepsDone(h: Handle, a: Action)
    requires !OfCloser(a)
    ensures SenderStep(h, a).doneClosed == h.doneClosed && SenderStep(h, a).onLoop == h.onLoop
  {
    match a {
      case Enter(i) =>
      case CheckDone(i) =>
      case SendEvent(i, isChunk) =>
      case SendChunk(i) =>
      case Abandon(i) =>
      case Leave(i) =>
      case Release(i) =>
    }
  }

  lemma CloserLoop(h: Handle, a: Action)
    requires OfCloser(a) && (h.doneClosed ==> h.onLoop) && (a.Finish? ==> a.onLoop)
    ensures CloserStep(h, a).doneClosed ==> CloserStep(h, a).onLoop
  {
  }

  lemma LoopStep(h: Handle, a: Action)
    requires (h.doneClosed ==> h.onLoop) && (a.Finish? ==> a.onLoop)
    ensures Step(h, a).doneClosed ==> Step(h, a).onLoop
  {
    if OfCloser(a) {
      CloserLoop(h, a);
    } else {
      SenderKeepsDone(h, a);
    }
  }

  lemma {:induction false} LoopIsQuiet(acts: seq<Action>)
    requires Settling(acts) && Serial(acts) && forall a <- acts :: a.Finish? ==> a.onLoop
    ensures Quiet(acts) && (Run(acts).doneClosed ==> Run(acts).onLoop)
  {
    if acts != [] {
      var front, a := acts[..|acts| - 1], acts[|acts| - 1];
      LoopIsQuiet(front);
      assert a in acts;
      LoopStep(Run(front), a);
    }
  }

  // ---------------------------------------------------------------- what a handle does

  /** A delivery that has registered goes on to the events channel iff the done channel is still
      open; otherwise it is on its way out. */
  lemma LooksBeforeSending(acts: seq<Action>, i: nat)
    requires At(Run(acts), i, Entered)
    ensures At(Run(acts + [CheckDone(i)]), i, OnEvents) <==> !Run(acts).doneClosed
    ensures At(Run(acts + [CheckDone(i)]), i, Leaving) <==> Run(acts).doneClosed
  {
    RunAppend(acts, CheckDone(i));
  }

  /** Wait goes through at once iff nobody is registered. */
  lemma WaitsForDeliveries(acts: seq<Action>)
    requires Run(acts).closer.Called?
    ensures PastWait(Run(acts + [Wait]).closer) <==> Run(acts).deliverWG == {}
    ensures Run(acts + [Wait]).closer.Parked? <==> Run(acts).deliverWG != {}
  {
    RunAppend(acts, Wait);
  }

  const CLOSE: seq<Action> := [CloseEvents, CloseChunks]

  predicate ClosingAt(h: Handle, n: nat) {
    && PastWait(h.closer) && (h.closer.Finished? ==> h.eventsClosed && h.chunksClosed)
    && (n >= 1 ==> !h.closer.Closing?) && (n >= 2 ==> h.closer.Finished?)
    && (h.closer.HalfClosed? ==> h.eventsClosed)
  }

  lemma SenderKeepsClosing(h: Handle, a: Action, n: nat)
    requires ClosingAt(h, n) && !OfCloser(a)
    ensures ClosingAt(SenderStep(h, a), n)
  {
  }

  lemma CloserAdvances(h: Handle, a: Action, n: nat)
    requires ClosingAt(h, n) && OfCloser(a) && h.doneClosed
    ensures ClosingAt(CloserStep(h, a), n) && (n < 2 && a == CLOSE[n] ==> ClosingAt(CloserStep(h, a), n + 1))
  {
  }

  lemma {:induction false} ClosingGoesOn(acts: seq<Action>, more: seq<Action>)
    requires Settling(acts + more) && ClosingAt(Run(acts), 0)
    ensures ClosingAt(Run(acts + more), Matched(more, CLOSE))
  {
    if more == [] {
      assert acts + more == acts;
    } else {
      var front, a := more[..|more| - 1], more[|more| - 1];
      assert acts + more == (acts + front) + [a];
      assert Settling(acts + front);
      ClosingGoesOn(acts, front);
      RunAppend(acts + front, a);
      ChannelsNeverMisused(acts + front);
      RunShape(acts + front);
      if OfCloser(a) {
        CloserAdvances(Run(acts + front), a, Matched(front, CLOSE));
      } else {
        SenderKeepsClosing(Run(acts + front), a, Matched(front, CLOSE));
      }
    }
  }

  /** A finisher past Wait closes both channels, in every run that gives it its turns. */
  lemma EveryFinishCloses(acts: seq<Action>, more: seq<Action>)
    requires Settling(acts + more) && PastWait(Run(acts).closer) && Contains(more, CLOSE)
    ensures Run(acts + more).eventsClosed && Run(acts + more).chunksClosed
  {
    assert Settling(acts) by {
      assert forall a <- acts :: a in acts + more;
    }
    ChannelsNeverMisused(acts);
    RunShape(acts);
    ClosingGoesOn(acts, more);
  }
}
