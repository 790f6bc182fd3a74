/**
  The client's sequence counters (client/client.go: readLoop, maybeAck,
  startAutoAckTicker). The read loop and the ack ticker share two atomics and interleave at
  every load and compare-and-swap; numbers are uint64.
 */
module Acks {
  import opened Base

  datatype Reader =
    | Idle
    | Checking(e: nat)                    // gap check due
    | Raising(e: nat)                     // about to load highSeq
    | Swapping(e: nat, cur: nat)          // about to compare-and-swap highSeq
    | Acking                              // about to load highSeq in maybeAck
    | AckHave(current: nat)               // about to load lastAck
    | AckSwap(current: nat, last: nat)    // about to compare-and-swap lastAck
    | Stopped

  datatype Ticker = TickIdle | TickHave(current: nat) | TickSwap(current: nat, last: nat)

  /** `acks` lists the values lastAck was set to; `underflowed` records an unsigned lag
      computed from a lastAck beyond the loaded highSeq. */
  datatype Client = Client(
    highSeq: nat, lastAck: nat, reader: Reader, ticker: Ticker,
    received: set<nat>, first: Option<nat>, acks: seq<nat>, underflowed: bool)

  const START := Client(0, 0, Idle, TickIdle, {}, None, [], false)

  /** `window` 0 disables auto-ack. */
  datatype Options = Options(detectSeqGaps: bool, window: nat)

  datatype Action =
    | Receive(e: nat)      // an envelope arrives; 0 when it carries no event_seq
    | Read                 // the read loop's next atomic operation
    | Tick                 // the ticker's next atomic operation

  function ReadStep(o: Options, c: Client): Client {
    match c.reader
    case Checking(e) =>
      if c.highSeq > 0 && e > (c.highSeq + 1) % U64 then c.(reader := Stopped) else c.(reader := Raising(e))
    case Raising(e) =>
      if e <= c.highSeq then c.(reader := Acking) else c.(reader := Swapping(e, c.highSeq))
    case Swapping(e, cur) =>
      if c.highSeq == cur then c.(highSeq := e, reader := Acking) else c.(reader := Raising(e))
    case Acking =>
      if o.window == 0 then c.(reader := Idle) else c.(reader := AckHave(c.highSeq))
    case AckHave(current) =>
      var lag := (current - c.lastAck) % U64;
      var c' := c.(underflowed := c.underflowed || c.lastAck > current);
      if lag < o.window then c'.(reader := Idle) else c'.(reader := AckSwap(current, c.lastAck))
    case AckSwap(current, last) =>
      if c.lastAck == last then c.(lastAck := current, acks := c.acks + [current], reader := Idle)
      else c.(reader := Idle)
    case _ => c
  }

  function TickStep(o: Options, c: Client): Client {
    match c.ticker
    case TickIdle => if o.window == 0 then c else c.(ticker := TickHave(c.highSeq))
    case TickHave(current) =>
      if current > c.lastAck then c.(ticker := TickSwap(current, c.lastAck)) else c.(ticker := TickIdle)
    case TickSwap(current, last) =>
      if c.lastAck == last then c.(lastAck := current, acks := c.acks + [current], ticker := TickIdle)
      else c.(ticker := TickIdle)
  }

  function Step(o: Options, c: Client, a: Action): Client {
    match a
    case Receive(e) =>
      if !c.reader.Idle? || e >= U64 then c
      else if e == 0 then c.(reader := Acking)
      else
        c.(received := c.received + {e}, first := if c.first.None? then Some(e) else c.first,
           reader := if o.detectSeqGaps then Checking(e) else Raising(e))
    case Read => ReadStep(o, c)
    case Tick => TickStep(o, c)
  }

  function Run(o: Options, acts: seq<Action>): Client {
    if acts == [] then START else Step(o, Run(o, acts[..|acts| - 1]), acts[|acts| - 1])
  }

  ghost predicate AckInv(o: Options, c: Client) {
    && c.lastAck <= c.highSeq < U64
    && !c.underflowed
    && (c.reader.Checking? || c.reader.Raising? || c.reader.Swapping? ==> 0 < c.reader.e < U64)
    && (c.reader.Swapping? ==> c.reader.cur == c.highSeq < c.reader.e)
    && (c.reader.AckHave? ==> c.reader.current == c.highSeq && o.window > 0)
    && (c.reader.AckSwap? ==> c.reader.last < c.reader.current == c.highSeq)
    && (c.reader.AckSwap? ==> c.reader.current - c.reader.last >= o.window > 0)
    && (c.ticker.TickHave? ==> c.ticker.current <= c.highSeq)
    && (c.ticker.TickSwap? ==> c.ticker.last < c.ticker.current <= c.highSeq)
    && c.lastAck == (if c.acks == [] then 0 else c.acks[|c.acks| - 1])
    && (forall i, j :: 0 <= i < j < |c.acks| ==> c.acks[i] < c.acks[j])
  }

  /** With gap detection, everything from the first number seen up to highSeq has arrived. */
  ghost predicate GapInv(c: Client) {
    && (c.reader.Checking? || c.reader.Raising? || c.reader.Swapping? ==>
          c.reader.e in c.received && c.first.Some? && (c.highSeq == 0 ==> c.first.value == c.reader.e))
    && (c.reader.Raising? || c.reader.Swapping? ==> c.highSeq == 0 || c.reader.e <= c.highSeq + 1)
    && (c.first.None? ==> c.highSeq == 0)
    && (c.first.Some? && c.highSeq == 0 ==> c.reader.Checking? || c.reader.Raising? || c.reader.Swapping?)
    && (c.first.Some? && c.highSeq > 0 ==>
          c.first.value <= c.highSeq && forall n :: c.first.value <= n <= c.highSeq ==> n in c.received)
  }

  lemma ReadKeepsAckInv(o: Options, c: Client)
    requires AckInv(o, c)
    ensures AckInv(o, ReadStep(o, c))
  {
  }

  lemma TickKeepsAckInv(o: Options, c: Client)
    requires AckInv(o, c)
    ensures AckInv(o, TickStep(o, c))
  {
  }

  lemma StepKeepsAckInv(o: Options, c: Client, a: Action)
    requires AckInv(o, c)
    ensures AckInv(o, Step(o, c, a))
  {
    match a {
      case Read => ReadKeepsAckInv(o, c);
      case Tick => TickKeepsAckInv(o, c);
      case _ =>
    }
  }

  lemma StepKeepsGapInv(o: Options, c: Client, a: Action)
    requires o.detectSeqGaps && AckInv(o, c) && GapInv(c)
    ensures GapInv(Step(o, c, a))
  {
  }

  lemma {:induction false} RunKeepsInv(o: Options, acts: seq<Action>)
    ensures AckInv(o, Run(o, acts))
    ensures o.detectSeqGaps ==> GapInv(Run(o, acts))
  {
    if acts != [] {
      RunKeepsInv(o, acts[..|acts| - 1]);
      StepKeepsAckInv(o, Run(o, acts[..|acts| - 1]), acts[|acts| - 1]);
      if o.detectSeqGaps {
        StepKeepsGapInv(o, Run(o, acts[..|acts| - 1]), acts[|acts| - 1]);
      }
    }
  }

  /** In every interleaving lastAck never passes highSeq, the unsigned lag never underflows,
      and each successful auto-ack acknowledges strictly more than the one before. */
  lemma AcksAdvance(o: Options, acts: seq<Action>)
    ensures var c := Run(o, acts);
            && c.lastAck <= c.highSeq && !c.underflowed && (c.reader.AckHave? ==> c.lastAck <= c.reader.current)
            && forall i, j :: 0 <= i < j < |c.acks| ==> c.acks[i] < c.acks[j]
  {
    RunKeepsInv(o, acts);
  }

  /** With gap detection on, a run has received every number from the first one it saw to
      the high-water mark it would resume from. */
  lemma NoUndetectedGap(o: Options, acts: seq<Action>, n: nat)
    requires o.detectSeqGaps && Run(o, acts).highSeq > 0
    requires Run(o, acts).first.Some? && Run(o, acts).first.value <= n <= Run(o, acts).highSeq
    ensures n in Run(o, acts).received
  {
    RunKeepsInv(o, acts);
  }

  // ---------------------------------------------------------------- and does move on

  predicate InHand(r: Reader, n: nat) {
    (r.Checking? || r.Raising? || r.Swapping?) && r.e == n
  }

  /** The number after the mark is missing and a later one has come; or the mark is the largest
      number there is. */
  ghost predicate Skipped(c: Client) {
    c.highSeq == U64 - 1 || (c.highSeq + 1 !in c.received && exists n <- c.received :: n > c.highSeq + 1)
  }

  /** What is received lies within the mark, or is the number being worked on. */
  ghost predicate ReceivedInv(o: Options, c: Client) {
    && (forall n <- c.received :: n <= c.highSeq || InHand(c.reader, n) || c.reader.Stopped?)
    && (c.reader.Checking? || c.reader.Raising? || c.reader.Swapping? ==> c.reader.e in c.received)
    && (c.reader.Checking? || c.reader.Stopped? ==> o.detectSeqGaps)
    && (c.reader.Stopped? ==> c.highSeq > 0 && Skipped(c))
  }

  lemma StepKeepsReceived(o: Options, c: Client, a: Action)
    requires AckInv(o, c) && ReceivedInv(o, c)
    ensures ReceivedInv(o, Step(o, c, a))
  {
  }

  lemma {:induction false} RunKeepsReceived(o: Options, acts: seq<Action>)
    ensures ReceivedInv(o, Run(o, acts))
  {
    if acts != [] {
      RunKeepsInv(o, acts[..|acts| - 1]);
      RunKeepsReceived(o, acts[..|acts| - 1]);
      StepKeepsReceived(o, Run(o, acts[..|acts| - 1]), acts[|acts| - 1]);
    }
  }

  /** The reader stops only when asked to watch for gaps, and only when the number after its mark
      has not come but a later one has, or there is no number after its mark. */
  lemma StopsOnlyOnGap(o: Options, acts: seq<Action>)
    requires Run(o, acts).reader.Stopped?
    ensures o.detectSeqGaps && Run(o, acts).highSeq > 0 && Skipped(Run(o, acts))
  {
    RunKeepsReceived(o, acts);
  }

  const THREE_READS: seq<Action> := [Read, Read, Read]

  lemma {:induction false} RunOn(o: Options, acts: seq<Action>, more: seq<Action>)
    requires more != []
    ensures Run(o, acts + more) == Step(o, Run(o, acts + more[..|more| - 1]), more[|more| - 1])
  {
    assert (acts + more)[..|acts + more| - 1] == acts + more[..|more| - 1];
  }

  /** How far the reader has come with `e` after `n` of its turns. */
  ghost predicate Rising(c: Client, e: nat, n: nat) {
    || c.highSeq >= e || c.reader.Stopped?
    || (n == 0 && c.reader == Checking(e))
    || (n <= 1 && c.reader == Raising(e))
    || (n <= 2 && c.reader == Swapping(e, c.highSeq))
  }

  lemma StepKeepsRising(o: Options, c: Client, a: Action, e: nat, n: nat)
    requires AckInv(o, c) && Rising(c, e, n)
    ensures Rising(Step(o, c, a), e, n) && (n < 3 && a == Read ==> Rising(Step(o, c, a), e, n + 1))
  {
  }

  lemma {:induction false} RisingGoesOn(o: Options, acts: seq<Action>, more: seq<Action>, e: nat)
    requires Rising(Run(o, acts), e, 0)
    ensures Rising(Run(o, acts + more), e, Matched(more, THREE_READS))
  {
    if more == [] {
      assert acts + more == acts;
    } else {
      var front, a := more[..|more| - 1], more[|more| - 1];
      RisingGoesOn(o, acts, front, e);
      RunKeepsInv(o, acts + front);
      RunOn(o, acts, more);
      StepKeepsRising(o, Run(o, acts + front), a, e, Matched(front, THREE_READS));
    }
  }

  /** A number that arrives raises the mark to itself at least, in every run that gives the reader
      three turns, unless the reader stops at a gap. */
  lemma EveryNumberCounts(o: Options, acts: seq<Action>, e: nat, more: seq<Action>)
    requires Run(o, acts).reader.Idle? && 0 < e < U64 && Contains(more, THREE_READS)
    ensures var c := Run(o, acts + [Receive(e)] + more); c.highSeq >= e || c.reader.Stopped?
  {
    assert (acts + [Receive(e)])[..|acts|] == acts;
    RisingGoesOn(o, acts + [Receive(e)], more, e);
  }

  /** How far an ack that is due at `last` has come after `n` of the reader's turns. */
  ghost predicate Due(o: Options, c: Client, last: nat, n: nat) {
    || c.lastAck > last
    || (c.lastAck == last && c.highSeq - last >= o.window
        && ((n == 0 && c.reader.Acking?) || (n <= 1 && c.reader.AckHave?)
            || (n <= 2 && c.reader == AckSwap(c.highSeq, last))))
  }

  lemma StepKeepsDue(o: Options, c: Client, a: Action, last: nat, n: nat)
    requires AckInv(o, c) && o.window > 0 && Due(o, c, last, n)
    ensures Due(o, Step(o, c, a), last, n) && (n < 3 && a == Read ==> Due(o, Step(o, c, a), last, n + 1))
  {
  }

  lemma {:induction false} DueGoesOn(o: Options, acts: seq<Action>, more: seq<Action>, last: nat)
    requires o.window > 0 && Due(o, Run(o, acts), last, 0)
    ensures Due(o, Run(o, acts + more), last, Matched(more, THREE_READS))
  {
    if more == [] {
      assert acts + more == acts;
    } else {
      var front, a := more[..|more| - 1], more[|more| - 1];
      DueGoesOn(o, acts, front, last);
      RunKeepsInv(o, acts + front);
      RunOn(o, acts, more);
      StepKeepsDue(o, Run(o, acts + front), a, last, Matched(front, THREE_READS));
    }
  }

  /** A lag of at least the window leads to an ack: when the reader has dealt with a number and
      the mark is that far ahead, every run that gives it three turns acknowledges more, itself
      or through the ticker. */
  lemma EveryLagIsAcked(o: Options, acts: seq<Action>, more: seq<Action>)
    requires o.window > 0 && Run(o, acts).reader.Acking? && Contains(more, THREE_READS)
    requires Run(o, acts).highSeq - Run(o, acts).lastAck >= o.window
    ensures Run(o, acts + more).lastAck > Run(o, acts).lastAck
  {
    DueGoesOn(o, acts, more, Run(o, acts).lastAck);
  }

  lemma ReadAcks(o: Options, c: Client)
    requires AckInv(o, c) && ReadStep(o, c).lastAck != c.lastAck
    ensures c.highSeq - c.lastAck >= o.window > 0 && ReadStep(o, c).lastAck == c.highSeq
  {
  }

  /** The reader itself acknowledges only a lag of at least the window, and then all of it. */
  lemma {:induction false} ReaderWaitsForWindow(o: Options, acts: seq<Action>)
    requires Step(o, Run(o, acts), Read).lastAck != Run(o, acts).lastAck
    ensures Run(o, acts).highSeq - Run(o, acts).lastAck >= o.window > 0
    ensures Step(o, Run(o, acts), Read).lastAck == Run(o, acts).highSeq
  {
    RunKeepsInv(o, acts);
    ReadAcks(o, Run(o, acts));
  }

  const THREE_TICKS: seq<Action> := [Tick, Tick, Tick]

  ghost predicate TickDue(c: Client, last: nat, n: nat) {
    || c.lastAck > last
    || (c.lastAck == last && c.highSeq > last
        && ((n == 0 && c.ticker.TickIdle?) || (n <= 1 && c.ticker.TickHave? && c.ticker.current > last)
            || (n <= 2 && c.ticker.TickSwap? && c.ticker.last == last)))
  }

  lemma StepKeepsTickDue(o: Options, c: Client, a: Action, last: nat, n: nat)
    requires AckInv(o, c) && o.window > 0 && TickDue(c, last, n)
    ensures TickDue(Step(o, c, a), last, n) && (n < 3 && a == Tick ==> TickDue(Step(o, c, a), last, n + 1))
  {
  }

  lemma {:induction false} TickGoesOn(o: Options, acts: seq<Action>, more: seq<Action>, last: nat)
    requires o.window > 0 && TickDue(Run(o, acts), last, 0)
    ensures TickDue(Run(o, acts + more), last, Matched(more, THREE_TICKS))
  {
    if more == [] {
      assert acts + more == acts;
    } else {
      var front, a := more[..|more| - 1], more[|more| - 1];
      TickGoesOn(o, acts, front, last);
      RunKeepsInv(o, acts + front);
      RunOn(o, acts, more);
      StepKeepsTickDue(o, Run(o, acts + front), a, last, Matched(front, THREE_TICKS));
    }
  }

  /** And any lag at all is acknowledged when the ticker gets its turns. */
  lemma EveryTickAcks(o: Options, acts: seq<Action>, more: seq<Action>)
    requires o.window > 0 && Run(o, acts).ticker.TickIdle? && Contains(more, THREE_TICKS)
    requires Run(o, acts).highSeq > Run(o, acts).lastAck
    ensures Run(o, acts + more).lastAck > Run(o, acts).lastAck
  {
    TickGoesOn(o, acts, more, Run(o, acts).lastAck);
  }
}
