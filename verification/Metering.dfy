/**
  Overlapping calls of Metric (server/jobcontext.go: Metric, maybeEmitRemaining, emitEvent;
  internal/lease/validate.go: Report). The cost is reported under one lock, the emission
  decided under another, and the event gets its number after that, so calls may overtake each
  other twice.
 */
module Metering {
  import opened Base
  import opened Budget

  datatype Pending = Pending(currency: string, remaining: real)

  /** Calls are `pending` until they have decided and `queued` until their event has its
      number. `last` is what maybeEmitRemaining remembers, `numbered` the balance in the event
      with the highest number, `decided` the balance the latest decision was made on,
      `carried` the balance each call got back, and `emitted` the events decided on. */
  datatype Overlap = Overlap(
    counters: Counters, last: Counters, pending: map<nat, Pending>, queued: map<nat, Pending>,
    numbered: Counters, decided: Counters, carried: map<nat, real>, emitted: seq<Remaining>)

  datatype Move =
    | ReportBy(t: nat, currency: string, value: real)
    | DecideBy(t: nat)
    | EmitBy(t: nat)
    | OtherMove(op: Op)

  ghost function Decided(g: Grant, o: Overlap, t: nat): Overlap
    requires t in o.pending && o.pending[t].currency in g.initial
  {
    var c, r := o.pending[t].currency, o.pending[t].remaining;
    if ShouldEmit(g.initial[c], o.last, c, r) then
      o.(pending := o.pending - {t}, decided := o.decided[c := r], last := o.last[c := r],
         queued := o.queued[t := o.pending[t]], emitted := o.emitted + [Remaining(c, r)])
    else o.(pending := o.pending - {t}, decided := o.decided[c := r])
  }

  ghost function Advance(g: Grant, o: Overlap, a: Move): Overlap {
    match a
    case OtherMove(op) => o.(counters := Exec(g, o.counters, op).counters)
    case ReportBy(t, c, value) =>
      if t in o.carried || c !in g.initial || value < 0.0 then o
      else
        var e := Exec(g, o.counters, Report(c, value));
        o.(counters := e.counters, pending := o.pending[t := Pending(c, e.balance)],
           carried := o.carried[t := e.balance])
    case DecideBy(t) =>
      if t !in o.pending || o.pending[t].currency !in g.initial then o else Decided(g, o, t)
    case EmitBy(t) =>
      if t !in o.queued then o
      else o.(queued := o.queued - {t}, numbered := o.numbered[o.queued[t].currency := o.queued[t].remaining])
  }

  ghost function Race(g: Grant, acts: seq<Move>): Overlap {
    if acts == [] then Overlap(g.initial, map[], map[], map[], map[], map[], map[], [])
    else Advance(g, Race(g, acts[..|acts| - 1]), acts[|acts| - 1])
  }

  function OpOf(o: Overlap, a: Move): Option<Op> {
    match a
    case OtherMove(op) => Some(op)
    case ReportBy(t, c, value) => if t in o.carried then None else Some(Report(c, value))
    case _ => None
  }

  /** The lease operations of a race: each call reports once. */
  ghost function RaceOps(g: Grant, acts: seq<Move>): seq<Op> {
    if acts == [] then []
    else
      var front := acts[..|acts| - 1];
      var ops, op := RaceOps(g, front), OpOf(Race(g, front), acts[|acts| - 1]);
      if op.Some? then ops + [op.value] else ops
  }

  lemma MoveCounts(g: Grant, o: Overlap, a: Move)
    ensures Advance(g, o, a).counters
         == if OpOf(o, a).None? then o.counters else Exec(g, o.counters, OpOf(o, a).value).counters
  {
  }

  /** However metrics overlap with each other and with debits, the counters are those of the
      operations in their order, so conservation holds. */
  lemma {:induction false} OverlapCounts(g: Grant, acts: seq<Move>)
    ensures Race(g, acts).counters == After(g, RaceOps(g, acts))
  {
    if acts != [] {
      var front, a := acts[..|acts| - 1], acts[|acts| - 1];
      var o := Race(g, front);
      OverlapCounts(g, front);
      MoveCounts(g, o, a);
      if OpOf(o, a).Some? {
        AfterSnoc(g, RaceOps(g, front), OpOf(o, a).value);
      }
    }
  }

  ghost predicate NearDecided(g: Grant, o: Overlap, c: string) {
    c in o.decided ==> c in g.initial && c in o.last && Near(g.initial[c], o.last[c], o.decided[c])
  }

  /** However metrics overlap, the remembered balance is within 5% of the one the latest
      decision was made on. */
  lemma {:induction false} OverlapStaysNear(g: Grant, acts: seq<Move>, c: string)
    requires c in g.initial ==> g.initial[c] >= 0.0
    ensures NearDecided(g, Race(g, acts), c)
  {
    if acts != [] {
      var o, a := Race(g, acts[..|acts| - 1]), acts[|acts| - 1];
      OverlapStaysNear(g, acts[..|acts| - 1], c);
      if a.DecideBy? && a.t in o.pending && o.pending[a.t].currency == c && c in g.initial
         && !ShouldEmit(g.initial[c], o.last, c, o.pending[a.t].remaining)
      {
        DecisionIsNear(g.initial[c], o.last, c, o.pending[a.t].remaining);
      }
    }
  }

  // ---------------------------------------------------------------- schedules

  /** A schedule says in which order calls, all in one currency, report, decide and number
      their events. A call that decides not to emit lets its last turn pass. */
  datatype Turn = Reports(t: nat) | Decides(t: nat) | Emits(t: nat)

  function MoveOf(turn: Turn, c: string, values: nat -> real): Move {
    match turn
    case Reports(t) => ReportBy(t, c, values(t))
    case Decides(t) => DecideBy(t)
    case Emits(t) => EmitBy(t)
  }

  /** Who has reported, decided and had the turn to number an event, in order. */
  datatype Book = Book(rs: seq<nat>, ds: seq<nat>, es: seq<nat>)

  function Entered(b: Book, turn: Turn): Book {
    match turn
    case Reports(t) => b.(rs := b.rs + [t])
    case Decides(t) => b.(ds := b.ds + [t])
    case Emits(t) => b.(es := b.es + [t])
  }

  /** Each call reports once, decides at most once after that, and then has at most one turn to
      number its event. */
  predicate Fits(b: Book, turn: Turn) {
    match turn
    case Reports(t) => t !in b.rs
    case Decides(t) => t in b.rs && t !in b.ds
    case Emits(t) => t in b.ds && t !in b.es
  }

  function BookOf(sched: seq<Turn>): Book {
    if sched == [] then Book([], [], []) else Entered(BookOf(sched[..|sched| - 1]), sched[|sched| - 1])
  }

  predicate Proper(sched: seq<Turn>) {
    sched != [] ==> Proper(sched[..|sched| - 1]) && Fits(BookOf(sched[..|sched| - 1]), sched[|sched| - 1])
  }

  ghost function Played(g: Grant, sched: seq<Turn>, c: string, values: nat -> real): Overlap {
    if sched == [] then Race(g, [])
    else Advance(g, Played(g, sched[..|sched| - 1], c, values), MoveOf(sched[|sched| - 1], c, values))
  }

  /** The moves of a schedule, so that whatever holds of every race holds of it. */
  function Play(sched: seq<Turn>, c: string, values: nat -> real): (acts: seq<Move>)
    ensures |acts| == |sched|
  {
    seq(|sched|, i requires 0 <= i < |sched| => MoveOf(sched[i], c, values))
  }

  lemma {:induction false} PlayedIsRace(g: Grant, sched: seq<Turn>, c: string, values: nat -> real)
    ensures Played(g, sched, c, values) == Race(g, Play(sched, c, values))
  {
    if sched != [] {
      PlayedIsRace(g, sched[..|sched| - 1], c, values);
      var acts := Play(sched, c, values);
      assert acts[..|acts| - 1] == Play(sched[..|sched| - 1], c, values);
    }
  }

  lemma PlayedNear(g: Grant, sched: seq<Turn>, c: string, values: nat -> real)
    requires c in g.initial && g.initial[c] >= 0.0
    ensures NearDecided(g, Played(g, sched, c, values), c)
  {
    PlayedIsRace(g, sched, c, values);
    OverlapStaysNear(g, Play(sched, c, values), c);
  }

  ghost predicate Costs(values: nat -> real) {
    forall t :: values(t) >= 0.0
  }

  ghost predicate Nested(b: Book) {
    (forall t <- b.es :: t in b.ds) && (forall t <- b.ds :: t in b.rs)
  }

  predicate Distinct(s: seq<nat>) {
    forall i, j :: 0 <= i < j < |s| ==> s[i] != s[j]
  }

  lemma {:induction false} BookIsSound(sched: seq<Turn>)
    requires Proper(sched)
    ensures Nested(BookOf(sched)) && Distinct(BookOf(sched).rs) && Distinct(BookOf(sched).es)
  {
    if sched != [] {
      BookIsSound(sched[..|sched| - 1]);
    }
  }

  // ---------------------------------------------------------------- what the turns fix

  ghost predicate Carried(o: Overlap, b: Book, c: string) {
    && c in o.counters && (forall t :: t in o.carried <==> t in b.rs)
    && (forall t :: t in o.pending <==> t in b.rs && t !in b.ds)
    && (forall t <- o.pending :: o.pending[t].currency == c && t in o.carried && o.pending[t].remaining == o.carried[t])
  }

  ghost predicate Queued(o: Overlap, b: Book, c: string) {
    && (forall t <- o.queued :: o.queued[t].currency == c && t in o.carried && o.queued[t].remaining == o.carried[t])
    && (forall t <- o.queued :: t in b.ds && t !in b.es)
    && (c in o.numbered ==> exists t <- b.es :: t in o.carried && o.numbered[c] == o.carried[t])
  }

  ghost predicate Remembered(o: Overlap, b: Book, c: string) {
    && (b.ds == [] ==> c !in o.last && c !in o.decided)
    && (b.ds != [] ==> c in o.last && c in o.decided && b.ds[|b.ds| - 1] in o.carried
                       && o.decided[c] == o.carried[b.ds[|b.ds| - 1]])
    && (c in o.last ==> exists t <- b.ds :: t in o.carried && o.last[c] == o.carried[t])
    && (c in o.last <==> o.emitted != [])
  }

  /** Later reporters carry less, and the latest carries what is left. */
  ghost predicate Descends(g: Grant, o: Overlap, rs: seq<nat>, c: string)
    requires c in g.initial
  {
    && c in o.counters && (forall t <- rs :: t in o.carried && o.carried[t] <= g.initial[c])
    && (forall i, j :: 0 <= i < j < |rs| ==> o.carried[rs[i]] >= o.carried[rs[j]])
    && o.counters[c] == if rs == [] then g.initial[c] else o.carried[rs[|rs| - 1]]
  }

  ghost predicate Follows(g: Grant, o: Overlap, b: Book, c: string)
    requires c in g.initial
  {
    Nested(b) && Carried(o, b, c) && Queued(o, b, c) && Remembered(o, b, c) && Descends(g, o, b.rs, c)
  }

  lemma ReportKeepsCarried(g: Grant, o: Overlap, b: Book, c: string, t: nat, v: real)
    requires c in g.initial && v >= 0.0 && Nested(b) && Carried(o, b, c) && t !in b.rs
    ensures Carried(Advance(g, o, ReportBy(t, c, v)), b.(rs := b.rs + [t]), c)
  {
  }

  lemma ReportKeepsRest(g: Grant, o: Overlap, b: Book, c: string, t: nat, v: real)
    requires c in g.initial && v >= 0.0 && Follows(g, o, b, c) && t !in b.rs
    ensures var o' := Advance(g, o, ReportBy(t, c, v)); Queued(o', b, c) && Remembered(o', b, c)
  {
    var o' := Advance(g, o, ReportBy(t, c, v));
    assert forall x <- o.carried :: x != t && o'.carried[x] == o.carried[x];
    if c in o.last {
      var x :| x in b.ds && x in o.carried && o.last[c] == o.carried[x];
      assert o'.carried[x] == o.carried[x];
    }
    if c in o.numbered {
      var x :| x in b.es && x in o.carried && o.numbered[c] == o.carried[x];
      assert o'.carried[x] == o.carried[x];
    }
  }

  lemma ReportDescends(g: Grant, o: Overlap, b: Book, c: string, t: nat, v: real)
    requires c in g.initial && v >= 0.0 && Carried(o, b, c) && Descends(g, o, b.rs, c) && t !in b.rs
    ensures Descends(g, Advance(g, o, ReportBy(t, c, v)), b.rs + [t], c)
  {
    var o' := Advance(g, o, ReportBy(t, c, v));
    assert o'.counters[c] == o.counters[c] - v == o'.carried[t];
    assert forall x <- b.rs :: o'.carried[x] == o.carried[x];
    forall i | 0 <= i < |b.rs| ensures o.carried[b.rs[i]] >= o.counters[c] {
      CarriedAtLeast(g, o, b.rs, c, b.rs[i]);
    }
  }

  lemma CarriedAtLeast(g: Grant, o: Overlap, rs: seq<nat>, c: string, t: nat)
    requires c in g.initial && Descends(g, o, rs, c) && t in rs
    ensures o.carried[t] >= o.counters[c]
  {
    var i :| 0 <= i < |rs| && rs[i] == t;
  }

  lemma DecisionFrame(g: Grant, o: Overlap, t: nat)
    requires t in o.pending && o.pending[t].currency in g.initial
    ensures Decided(g, o, t).carried == o.carried && Decided(g, o, t).counters == o.counters
    ensures Decided(g, o, t).numbered == o.numbered
  {
  }

  lemma DecisionKeepsCarried(g: Grant, o: Overlap, b: Book, c: string, t: nat)
    requires c in g.initial && Carried(o, b, c) && t in b.rs && t !in b.ds
    ensures t in o.pending && o.pending[t] == Pending(c, o.carried[t])
    ensures Carried(Decided(g, o, t), b.(ds := b.ds + [t]), c)
  {
    DecisionFrame(g, o, t);
  }

  lemma DecisionKeepsQueued(g: Grant, o: Overlap, b: Book, c: string, t: nat)
    requires c in g.initial && Carried(o, b, c) && Queued(o, b, c) && Nested(b) && t in b.rs && t !in b.ds
    ensures t in o.pending && o.pending[t].currency == c && Queued(Decided(g, o, t), b.(ds := b.ds + [t]), c)
  {
    DecisionFrame(g, o, t);
    if c in o.numbered {
      var x :| x in b.es && x in o.carried && o.numbered[c] == o.carried[x];
    }
  }

  lemma DecisionKeepsRemembered(g: Grant, o: Overlap, b: Book, c: string, t: nat)
    requires c in g.initial && Carried(o, b, c) && Remembered(o, b, c) && t in b.rs && t !in b.ds
    ensures t in o.pending && o.pending[t].currency == c && Remembered(Decided(g, o, t), b.(ds := b.ds + [t]), c)
  {
    DecisionFrame(g, o, t);
    var ds := b.ds + [t];
    assert ds[|ds| - 1] == t && t in ds;
    if c in o.last {
      var x :| x in b.ds && x in o.carried && o.last[c] == o.carried[x];
      assert x in ds;
    }
  }

  lemma DecisionKeepsDescent(g: Grant, o: Overlap, rs: seq<nat>, c: string, t: nat)
    requires c in g.initial && Descends(g, o, rs, c) && t in o.pending && o.pending[t].currency in g.initial
    ensures Descends(g, Decided(g, o, t), rs, c)
  {
    DecisionFrame(g, o, t);
  }

  lemma DecisionKeepsNested(b: Book, t: nat)
    requires Nested(b) && t in b.rs
    ensures Nested(b.(ds := b.ds + [t]))
  {
  }

  lemma DecisionKeeps(g: Grant, o: Overlap, b: Book, c: string, t: nat)
    requires c in g.initial && Follows(g, o, b, c) && t in b.rs && t !in b.ds
    ensures t in o.pending && o.pending[t] == Pending(c, o.carried[t])
    ensures Follows(g, Decided(g, o, t), b.(ds := b.ds + [t]), c)
  {
    DecisionKeepsCarried(g, o, b, c, t);
    DecisionKeepsQueued(g, o, b, c, t);
    DecisionKeepsRemembered(g, o, b, c, t);
    DecisionKeepsDescent(g, o, b.rs, c, t);
    DecisionKeepsNested(b, t);
  }

  lemma EmissionKeepsQueued(g: Grant, o: Overlap, b: Book, c: string, t: nat)
    requires Queued(o, b, c) && t in b.ds && t !in b.es
    ensures Queued(Advance(g, o, EmitBy(t)), b.(es := b.es + [t]), c)
  {
    var es := b.es + [t];
    assert t in es;
    if c in o.numbered {
      var x :| x in b.es && x in o.carried && o.numbered[c] == o.carried[x];
      assert x in es;
    }
  }

  lemma EmissionKeeps(g: Grant, o: Overlap, b: Book, c: string, t: nat)
    requires c in g.initial && Follows(g, o, b, c) && t in b.ds && t !in b.es
    ensures Follows(g, Advance(g, o, EmitBy(t)), b.(es := b.es + [t]), c)
  {
    EmissionKeepsQueued(g, o, b, c, t);
    EmissionKeepsOthers(g, o, b, c, t);
  }

  lemma EmissionKeepsOthers(g: Grant, o: Overlap, b: Book, c: string, t: nat)
    requires c in g.initial && Carried(o, b, c) && Remembered(o, b, c) && Descends(g, o, b.rs, c)
    ensures var o' := Advance(g, o, EmitBy(t)); Carried(o', b, c) && Remembered(o', b, c) && Descends(g, o', b.rs, c)
  {
  }

  lemma TurnKeeps(g: Grant, o: Overlap, b: Book, turn: Turn, c: string, values: nat -> real)
    requires c in g.initial && Costs(values) && Fits(b, turn) && Follows(g, o, b, c)
    ensures Follows(g, Advance(g, o, MoveOf(turn, c, values)), Entered(b, turn), c)
  {
    match turn {
      case Reports(t) =>
        ReportKeepsCarried(g, o, b, c, t, values(t));
        ReportKeepsRest(g, o, b, c, t, values(t));
        ReportDescends(g, o, b, c, t, values(t));
      case Decides(t) => DecisionKeeps(g, o, b, c, t);
      case Emits(t) => EmissionKeeps(g, o, b, c, t);
    }
  }

  lemma {:induction false} PlayFollows(g: Grant, sched: seq<Turn>, c: string, values: nat -> real)
    requires c in g.initial && Proper(sched) && Costs(values)
    ensures Follows(g, Played(g, sched, c, values), BookOf(sched), c)
  {
    if sched != [] {
      var front := sched[..|sched| - 1];
      PlayFollows(g, front, c, values);
      TurnKeeps(g, Played(g, front, c, values), BookOf(front), sched[|sched| - 1], c, values);
    }
  }

  // ---------------------------------------------------------------- the remembered balance

  /** The remembered balance is within 5% of the true one. */
  ghost predicate Accurate(g: Grant, o: Overlap, c: string)
    requires c in g.initial
  {
    c in o.last && c in o.counters && Near(g.initial[c], o.last[c], o.counters[c])
  }

  function Half(g: Grant, c: string, u: nat): nat -> real
    requires c in g.initial
  {
    var half := g.initial[c] / 2.0;
    t => if t == u then half else 0.0
  }

  predicate LastOrAbsent(rs: seq<nat>, u: nat) {
    u in rs ==> rs[|rs| - 1] == u
  }

  ghost predicate HalfSpent(g: Grant, o: Overlap, rs: seq<nat>, c: string, u: nat)
    requires c in g.initial
  {
    && c in o.counters && o.counters[c] == (if u in rs then g.initial[c] / 2.0 else g.initial[c])
    && forall t <- o.carried :: o.carried[t] == if t == u then g.initial[c] / 2.0 else g.initial[c]
  }

  lemma ReportKeepsHalf(g: Grant, o: Overlap, b: Book, c: string, t: nat, u: nat)
    requires c in g.initial && g.initial[c] >= 0.0 && Carried(o, b, c) && HalfSpent(g, o, b.rs, c, u)
    requires t !in b.rs && u !in b.rs
    ensures HalfSpent(g, Advance(g, o, ReportBy(t, c, Half(g, c, u)(t))), b.rs + [t], c, u)
  {
    var o' := Advance(g, o, ReportBy(t, c, Half(g, c, u)(t)));
    assert o'.carried == o.carried[t := o.counters[c] - Half(g, c, u)(t)];
    assert o'.counters[c] == o.counters[c] - Half(g, c, u)(t);
  }

  lemma TurnKeepsHalf(g: Grant, o: Overlap, b: Book, turn: Turn, c: string, u: nat)
    requires c in g.initial && g.initial[c] >= 0.0 && Fits(b, turn) && Carried(o, b, c)
    requires HalfSpent(g, o, b.rs, c, u) && (turn.Reports? ==> u !in b.rs)
    ensures HalfSpent(g, Advance(g, o, MoveOf(turn, c, Half(g, c, u))), Entered(b, turn).rs, c, u)
  {
    match turn {
      case Reports(t) => ReportKeepsHalf(g, o, b, c, t, u);
      case Decides(t) => DecisionFrame(g, o, t);
      case Emits(t) =>
    }
  }

  /** Only `u` costs anything, half the budget, and it reports last or not at all. */
  lemma {:induction false} PlayHalf(g: Grant, sched: seq<Turn>, c: string, u: nat)
    requires c in g.initial && g.initial[c] >= 0.0 && Proper(sched) && LastOrAbsent(BookOf(sched).rs, u)
    ensures HalfSpent(g, Played(g, sched, c, Half(g, c, u)), BookOf(sched).rs, c, u)
  {
    if sched != [] {
      var front, turn := sched[..|sched| - 1], sched[|sched| - 1];
      ReporterBefore(BookOf(front), turn, u);
      PlayHalf(g, front, c, u);
      PlayFollows(g, front, c, Half(g, c, u));
      TurnKeepsHalf(g, Played(g, front, c, Half(g, c, u)), BookOf(front), turn, c, u);
    }
  }

  lemma ReporterBefore(b: Book, turn: Turn, u: nat)
    requires Fits(b, turn) && LastOrAbsent(Entered(b, turn).rs, u)
    ensures LastOrAbsent(b.rs, u) && (turn.Reports? ==> u !in b.rs)
  {
    assert (b.rs + [turn.t])[|b.rs|] == turn.t;
    assert u in b.rs ==> u in b.rs + [turn.t];
  }

  predicate SameLast(b: Book) {
    b.rs != [] && b.ds != [] && b.ds[|b.ds| - 1] == b.rs[|b.rs| - 1]
  }

  lemma LastDecidedIsTrue(g: Grant, o: Overlap, b: Book, c: string)
    requires c in g.initial && Follows(g, o, b, c) && NearDecided(g, o, c) && SameLast(b)
    ensures Accurate(g, o, c)
  {
  }

  lemma SameLastIsAccurate(g: Grant, sched: seq<Turn>, c: string, values: nat -> real)
    requires c in g.initial && g.initial[c] >= 0.0 && Proper(sched) && Costs(values) && SameLast(BookOf(sched))
    ensures Accurate(g, Played(g, sched, c, values), c)
  {
    PlayFollows(g, sched, c, values);
    PlayedNear(g, sched, c, values);
    LastDecidedIsTrue(g, Played(g, sched, c, values), BookOf(sched), c);
  }

  /** A schedule leaves an accurate balance remembered, whatever the calls cost, iff the call
      that decided last is the one that reported last. */
  lemma AccurateIff(g: Grant, sched: seq<Turn>, c: string)
    requires c in g.initial && g.initial[c] > 0.0 && Proper(sched) && BookOf(sched).rs != []
    ensures (forall values: nat -> real :: Costs(values) ==> Accurate(g, Played(g, sched, c, values), c))
       <==> SameLast(BookOf(sched))
  {
    if SameLast(BookOf(sched)) {
      forall values: nat -> real | Costs(values) ensures Accurate(g, Played(g, sched, c, values), c) {
        SameLastIsAccurate(g, sched, c, values);
      }
    } else {
      OvertakenIsStale(g, sched, c);
    }
  }

  lemma OvertakenIsStale(g: Grant, sched: seq<Turn>, c: string)
    requires c in g.initial && g.initial[c] > 0.0 && Proper(sched) && BookOf(sched).rs != [] && !SameLast(BookOf(sched))
    ensures var values := Half(g, c, BookOf(sched).rs[|BookOf(sched).rs| - 1]);
            Costs(values) && !Accurate(g, Played(g, sched, c, values), c)
  {
    var u := BookOf(sched).rs[|BookOf(sched).rs| - 1];
    PlayFollows(g, sched, c, Half(g, c, u));
    PlayHalf(g, sched, c, u);
    PlayedNear(g, sched, c, Half(g, c, u));
  }
}
