/**
  The events of overlapping calls of Metric (server/jobcontext.go: maybeEmitRemaining,
  emitEvent): which balance the highest number shows, and how many events there are.
 */
module Numbering {
  import opened Base
  import opened Budget
  import opened Metering

  // ---------------------------------------------------------------- the numbered balance

  /** The balance in the event with the highest number is within 5% of the true one. */
  ghost predicate Current(g: Grant, o: Overlap, c: string)
    requires c in g.initial
  {
    c in o.numbered && c in o.counters && Near(g.initial[c], o.numbered[c], o.counters[c])
  }

  function Lowest(emitted: seq<Remaining>): real
    requires emitted != []
  {
    var e := emitted[|emitted| - 1];
    if |emitted| == 1 || e.balance < Lowest(emitted[..|emitted| - 1]) then e.balance
    else Lowest(emitted[..|emitted| - 1])
  }

  lemma LowestSnoc(emitted: seq<Remaining>, e: Remaining)
    ensures Lowest(emitted + [e]) == if emitted == [] || e.balance < Lowest(emitted) then e.balance else Lowest(emitted)
  {
    assert (emitted + [e])[..|emitted|] == emitted;
  }

  /** The lowest balance decided on for emission: not below the true one, not above the
      remembered one, and near the true one once the latest reporter has decided. */
  ghost predicate LowInv(g: Grant, o: Overlap, b: Book, c: string)
    requires c in g.initial
  {
    o.emitted != [] && c in o.last && c in o.counters ==>
      && o.counters[c] <= Lowest(o.emitted) <= o.last[c]
      && (b.rs != [] && b.rs[|b.rs| - 1] in b.ds ==> Near(g.initial[c], Lowest(o.emitted), o.counters[c]))
  }

  lemma NearBetween(initial: real, x: real, y: real, z: real)
    requires Near(initial, x, z) && z <= y <= x
    ensures Near(initial, y, z)
  {
  }

  /** The latest reporter carries the true balance. */
  lemma LatestCarries(g: Grant, o: Overlap, b: Book, c: string, t: nat)
    requires c in g.initial && Descends(g, o, b.rs, c) && t in b.rs
    ensures o.carried[t] >= o.counters[c] && (b.rs[|b.rs| - 1] == t ==> o.carried[t] == o.counters[c])
  {
    CarriedAtLeast(g, o, b.rs, c, t);
  }

  lemma EmittingKeepsLow(g: Grant, o: Overlap, b: Book, c: string, t: nat, r: real)
    requires c in g.initial && LowInv(g, o, b, c) && (c in o.last <==> o.emitted != []) && c in o.counters && b.rs != []
    requires r >= o.counters[c] && (b.rs[|b.rs| - 1] == t ==> r == o.counters[c]) && (b.ds != [] ==> o.emitted != [])
    ensures LowInv(g, o.(last := o.last[c := r], emitted := o.emitted + [Remaining(c, r)]), b.(ds := b.ds + [t]), c)
  {
    LowestSnoc(o.emitted, Remaining(c, r));
    var u := b.rs[|b.rs| - 1];
    if u in b.ds && o.emitted != [] {
      NearBetween(g.initial[c], Lowest(o.emitted), Lowest(o.emitted + [Remaining(c, r)]), o.counters[c]);
    }
    assert u in b.ds + [t] <==> u in b.ds || u == t;
  }

  lemma SilentKeepsLow(g: Grant, o: Overlap, b: Book, c: string, t: nat, r: real)
    requires c in g.initial && g.initial[c] >= 0.0 && LowInv(g, o, b, c) && c in o.counters && b.rs != []
    requires !ShouldEmit(g.initial[c], o.last, c, r) && (b.rs[|b.rs| - 1] == t ==> r == o.counters[c])
    ensures LowInv(g, o, b.(ds := b.ds + [t]), c)
  {
    DecisionIsNear(g.initial[c], o.last, c, r);
    var u := b.rs[|b.rs| - 1];
    assert u in b.ds + [t] <==> u in b.ds || u == t;
    if u == t && o.emitted != [] {
      NearBetween(g.initial[c], o.last[c], Lowest(o.emitted), o.counters[c]);
    }
  }

  predicate SameForLow(o: Overlap, p: Overlap) {
    o.emitted == p.emitted && o.last == p.last && o.counters == p.counters
  }

  lemma DecisionKeepsLow(g: Grant, o: Overlap, b: Book, c: string, t: nat)
    requires c in g.initial && g.initial[c] >= 0.0
    requires Follows(g, o, b, c) && LowInv(g, o, b, c) && t in b.rs && t !in b.ds
    ensures t in o.pending && o.pending[t].currency in g.initial
    ensures LowInv(g, Decided(g, o, t), b.(ds := b.ds + [t]), c)
  {
    var r := o.carried[t];
    LatestCarries(g, o, b, c, t);
    if ShouldEmit(g.initial[c], o.last, c, r) {
      EmittingKeepsLow(g, o, b, c, t, r);
      assert SameForLow(Decided(g, o, t), o.(last := o.last[c := r], emitted := o.emitted + [Remaining(c, r)]));
    } else {
      SilentKeepsLow(g, o, b, c, t, r);
      assert SameForLow(Decided(g, o, t), o);
    }
  }

  lemma ReportKeepsLow(g: Grant, o: Overlap, b: Book, c: string, t: nat, v: real)
    requires c in g.initial && v >= 0.0 && Follows(g, o, b, c) && LowInv(g, o, b, c) && t !in b.rs
    ensures LowInv(g, Advance(g, o, ReportBy(t, c, v)), b.(rs := b.rs + [t]), c)
  {
    assert (b.rs + [t])[|b.rs|] == t && t !in b.ds;
  }

  lemma TurnKeepsLow(g: Grant, o: Overlap, b: Book, turn: Turn, c: string, values: nat -> real)
    requires c in g.initial && g.initial[c] >= 0.0 && Costs(values) && Fits(b, turn)
    requires Follows(g, o, b, c) && LowInv(g, o, b, c)
    ensures LowInv(g, Advance(g, o, MoveOf(turn, c, values)), Entered(b, turn), c)
  {
    match turn {
      case Reports(t) => ReportKeepsLow(g, o, b, c, t, values(t));
      case Decides(t) => DecisionKeepsLow(g, o, b, c, t);
      case Emits(t) =>
    }
  }

  lemma {:induction false} PlayLow(g: Grant, sched: seq<Turn>, c: string, values: nat -> real)
    requires c in g.initial && g.initial[c] >= 0.0 && Proper(sched) && Costs(values)
    ensures LowInv(g, Played(g, sched, c, values), BookOf(sched), c)
  {
    if sched != [] {
      var front := sched[..|sched| - 1];
      PlayLow(g, front, c, values);
      PlayFollows(g, front, c, values);
      TurnKeepsLow(g, Played(g, front, c, values), BookOf(front), sched[|sched| - 1], c, values);
    }
  }

  /** The lowest balance has the highest number or is still queued. */
  ghost predicate LowComes(o: Overlap, c: string) {
    && (forall t <- o.queued :: o.emitted != [] && o.queued[t].remaining >= Lowest(o.emitted))
    && (o.emitted != [] ==>
          || (c in o.numbered && o.numbered[c] == Lowest(o.emitted))
          || exists t <- o.queued :: o.queued[t].remaining == Lowest(o.emitted))
  }

  lemma PrefixShrinks(a: seq<nat>, r: seq<nat>, t: nat)
    requires a <= r + [t] && t !in a
    ensures a <= r
  {
    assert (r + [t])[|r|] == t;
    assert |a| == |r| + 1 ==> a == r + [t];
  }

  /** Events numbered in report order bring the balance down. */
  lemma NumberGoesDown(g: Grant, o: Overlap, b: Book, c: string, t: nat)
    requires c in g.initial && Follows(g, o, b, c) && b.es + [t] <= b.rs && c in o.numbered
    ensures t in o.carried && o.carried[t] <= o.numbered[c]
  {
    assert (b.es + [t])[|b.es|] == t == b.rs[|b.es|];
    var x :| x in b.es && x in o.carried && o.numbered[c] == o.carried[x];
    var i :| 0 <= i < |b.es| && b.es[i] == x;
    assert (b.es + [t])[i] == x == b.rs[i];
  }

  lemma EmittingKeepsComing(o: Overlap, c: string, t: nat, p: Pending)
    requires LowComes(o, c) && t !in o.queued && p.currency == c
    ensures LowComes(o.(queued := o.queued[t := p], emitted := o.emitted + [Remaining(c, p.remaining)]), c)
  {
    var o' := o.(queued := o.queued[t := p], emitted := o.emitted + [Remaining(c, p.remaining)]);
    LowestSnoc(o.emitted, Remaining(c, p.remaining));
    assert t in o'.queued && o'.queued[t] == p;
    if o.emitted != [] {
      if x :| x in o.queued && o.queued[x].remaining == Lowest(o.emitted) {
        assert x in o'.queued && o'.queued[x] == o.queued[x];
      }
    }
  }

  predicate SameForComing(o: Overlap, p: Overlap) {
    o.emitted == p.emitted && o.queued == p.queued && o.numbered == p.numbered
  }

  lemma DecisionKeepsComing(g: Grant, o: Overlap, c: string, t: nat)
    requires c in g.initial && t in o.pending && o.pending[t].currency == c && LowComes(o, c) && t !in o.queued
    ensures LowComes(Decided(g, o, t), c)
  {
    var p := o.pending[t];
    if ShouldEmit(g.initial[c], o.last, c, p.remaining) {
      EmittingKeepsComing(o, c, t, p);
      assert SameForComing(Decided(g, o, t),
                           o.(queued := o.queued[t := p], emitted := o.emitted + [Remaining(c, p.remaining)]));
    } else {
      assert SameForComing(Decided(g, o, t), o);
    }
  }

  lemma EmissionKeepsComing(g: Grant, o: Overlap, c: string, t: nat)
    requires LowComes(o, c) && (t in o.queued ==> o.queued[t].currency == c)
    requires t in o.queued && c in o.numbered ==> o.queued[t].remaining <= o.numbered[c]
    ensures LowComes(Advance(g, o, EmitBy(t)), c)
  {
    var o' := Advance(g, o, EmitBy(t));
    if o.emitted != [] {
      if x :| x in o.queued && o.queued[x].remaining == Lowest(o.emitted) {
        assert x != t ==> x in o'.queued && o'.queued[x] == o.queued[x];
      }
    }
  }

  lemma TurnKeepsComing(g: Grant, o: Overlap, b: Book, turn: Turn, c: string, values: nat -> real)
    requires c in g.initial && Fits(b, turn) && Follows(g, o, b, c) && LowComes(o, c)
    requires Entered(b, turn).es <= Entered(b, turn).rs
    ensures LowComes(Advance(g, o, MoveOf(turn, c, values)), c)
  {
    match turn {
      case Reports(t) =>
      case Decides(t) => DecisionKeepsComing(g, o, c, t);
      case Emits(t) =>
        if c in o.numbered {
          NumberGoesDown(g, o, b, c, t);
        }
        EmissionKeepsComing(g, o, c, t);
    }
  }

  lemma OrderedBefore(b: Book, turn: Turn)
    requires Nested(b) && Fits(b, turn)
    ensures Entered(b, turn).es <= Entered(b, turn).rs ==> b.es <= b.rs
    ensures Entered(b, turn).ds <= Entered(b, turn).rs ==> b.ds <= b.rs
  {
    if turn.Reports? {
      if b.es <= b.rs + [turn.t] {
        PrefixShrinks(b.es, b.rs, turn.t);
      }
      if b.ds <= b.rs + [turn.t] {
        PrefixShrinks(b.ds, b.rs, turn.t);
      }
    }
  }

  lemma {:induction false} PlayLowComes(g: Grant, sched: seq<Turn>, c: string, values: nat -> real)
    requires c in g.initial && Proper(sched) && Costs(values) && BookOf(sched).es <= BookOf(sched).rs
    ensures LowComes(Played(g, sched, c, values), c)
  {
    if sched != [] {
      var front, turn := sched[..|sched| - 1], sched[|sched| - 1];
      PlayFollows(g, front, c, values);
      OrderedBefore(BookOf(front), turn);
      PlayLowComes(g, front, c, values);
      TurnKeepsComing(g, Played(g, front, c, values), BookOf(front), turn, c, values);
    }
  }

  /** If every call gets its number, in the order of the reports, the last number shows a
      balance within 5% of the true one, whatever the calls cost and however they decide. */
  lemma InReportOrderIsCurrent(g: Grant, sched: seq<Turn>, c: string, values: nat -> real)
    requires c in g.initial && g.initial[c] >= 0.0 && Proper(sched) && Costs(values)
    requires BookOf(sched).rs != [] && BookOf(sched).es == BookOf(sched).rs
    ensures Current(g, Played(g, sched, c, values), c)
  {
    var o, b := Played(g, sched, c, values), BookOf(sched);
    PlayFollows(g, sched, c, values);
    PlayLow(g, sched, c, values);
    PlayLowComes(g, sched, c, values);
    assert b.rs[|b.rs| - 1] in b.es && b.rs[|b.rs| - 1] in b.ds;
    forall t ensures t !in o.queued {
      assert t in b.ds ==> t in b.rs;
    }
  }

  // ---------------------------------------------------------------- when the number misleads

  /** Every decision has led to an event. */
  ghost predicate AllEmit(o: Overlap, b: Book, c: string) {
    && (b.ds != [] ==> b.ds[|b.ds| - 1] in o.carried && c in o.last && o.last[c] == o.carried[b.ds[|b.ds| - 1]])
    && (forall t <- b.ds :: t in o.queued || t in b.es)
    && (b.es != [] ==> b.es[|b.es| - 1] in o.carried && c in o.numbered && o.numbered[c] == o.carried[b.es[|b.es| - 1]])
  }

  lemma FarApart(g: Grant, o: Overlap, b: Book, c: string, p: nat, q: nat, t: nat)
    requires c in g.initial && g.initial[c] > 0.0 && Carried(o, b, c) && Nested(b) && AllEmit(o, b, c)
    requires t in b.rs && t !in b.ds && p != q && HalfSpent(g, o, b.rs, c, q) && forall x <- b.rs :: x == p || x == q
    requires b.ds == [] ==> c !in o.last
    ensures ShouldEmit(g.initial[c], o.last, c, o.carried[t])
  {
    ScaleBack(g.initial[c] / 2.0, g.initial[c]);
    if b.ds != [] {
      var x := b.ds[|b.ds| - 1];
      assert x in b.ds && x in b.rs && x != t;
      assert Abs(o.last[c] - o.carried[t]) == g.initial[c] / 2.0;
    }
  }

  lemma EmittingKeeps(g: Grant, o: Overlap, b: Book, c: string, t: nat)
    requires c in g.initial && t in o.pending && t in o.carried && o.pending[t] == Pending(c, o.carried[t])
    requires AllEmit(o, b, c) && ShouldEmit(g.initial[c], o.last, c, o.carried[t])
    ensures AllEmit(Decided(g, o, t), b.(ds := b.ds + [t]), c)
  {
    var ds := b.ds + [t];
    assert ds[|ds| - 1] == t;
    assert forall x :: x in ds <==> x in b.ds || x == t;
  }

  lemma EmissionNumbers(g: Grant, o: Overlap, b: Book, c: string, t: nat)
    requires c in g.initial && Follows(g, o, b, c) && AllEmit(o, b, c) && t in b.ds && t !in b.es
    ensures AllEmit(Advance(g, o, EmitBy(t)), b.(es := b.es + [t]), c)
  {
    assert t in o.queued;
    assert (b.es + [t])[|b.es|] == t;
  }

  lemma TurnKeepsAllEmit(g: Grant, o: Overlap, b: Book, turn: Turn, c: string, p: nat, q: nat)
    requires c in g.initial && g.initial[c] > 0.0 && Fits(b, turn) && Follows(g, o, b, c) && AllEmit(o, b, c)
    requires p != q && HalfSpent(g, o, b.rs, c, q) && forall x <- b.rs :: x == p || x == q
    ensures AllEmit(Advance(g, o, MoveOf(turn, c, Half(g, c, q))), Entered(b, turn), c)
  {
    match turn {
      case Reports(t) => ReportKeepsAllEmit(g, o, b, c, t, Half(g, c, q)(t));
      case Decides(t) =>
        FarApart(g, o, b, c, p, q, t);
        EmittingKeeps(g, o, b, c, t);
      case Emits(t) => EmissionNumbers(g, o, b, c, t);
    }
  }

  lemma {:induction false} PlayAllEmit(g: Grant, sched: seq<Turn>, c: string, p: nat, q: nat)
    requires c in g.initial && g.initial[c] > 0.0 && Proper(sched) && p != q && BookOf(sched).rs <= [p, q]
    ensures AllEmit(Played(g, sched, c, Half(g, c, q)), BookOf(sched), c)
  {
    if sched != [] {
      var front, turn := sched[..|sched| - 1], sched[|sched| - 1];
      assert BookOf(front).rs <= Entered(BookOf(front), turn).rs;
      OneOfTwo(BookOf(front).rs, p, q);
      PlayAllEmit(g, front, c, p, q);
      PlayFollows(g, front, c, Half(g, c, q));
      PlayHalf(g, front, c, q);
      TurnKeepsAllEmit(g, Played(g, front, c, Half(g, c, q)), BookOf(front), turn, c, p, q);
    }
  }

  lemma ReportKeepsAllEmit(g: Grant, o: Overlap, b: Book, c: string, t: nat, v: real)
    requires c in g.initial && v >= 0.0 && Follows(g, o, b, c) && AllEmit(o, b, c) && t !in b.rs
    ensures AllEmit(Advance(g, o, ReportBy(t, c, v)), b.(rs := b.rs + [t]), c)
  {
    var o' := Advance(g, o, ReportBy(t, c, v));
    assert forall x <- o.carried :: x != t && o'.carried[x] == o.carried[x];
  }

  lemma OneOfTwo(rs: seq<nat>, p: nat, q: nat)
    requires rs <= [p, q] && p != q
    ensures (forall t <- rs :: t == p || t == q) && LastOrAbsent(rs, q)
  {
    assert rs == [] || rs == [p] || rs == [p, q];
  }

  /** Two calls whose events are numbered in the opposite order of their reports can mislead,
      in whatever order they decide. */
  lemma SwappedIsStale(g: Grant, sched: seq<Turn>, c: string, p: nat, q: nat)
    requires c in g.initial && g.initial[c] > 0.0 && Proper(sched) && p != q
    requires BookOf(sched).rs == [p, q] && BookOf(sched).es == [q, p]
    ensures Costs(Half(g, c, q)) && !Current(g, Played(g, sched, c, Half(g, c, q)), c)
  {
    PlayAllEmit(g, sched, c, p, q);
    PlayHalf(g, sched, c, q);
    assert BookOf(sched).es[1] == p && q in BookOf(sched).rs;
  }

  lemma TurnSnoc(sched: seq<Turn>, turn: Turn)
    ensures BookOf(sched + [turn]) == Entered(BookOf(sched), turn)
    ensures Proper(sched + [turn]) <==> Proper(sched) && Fits(BookOf(sched), turn)
  {
    assert (sched + [turn])[..|sched|] == sched;
  }

  /** Deciding in report order is not enough: here the remembered balance is accurate for all
      costs, and the one with the highest number is not. */
  lemma RememberedIsNotNumbered(g: Grant, c: string)
    requires c in g.initial && g.initial[c] > 0.0
    ensures var sched := [Reports(1)] + [Decides(1)] + [Reports(2)] + [Decides(2)] + [Emits(2)] + [Emits(1)];
            && (forall values: nat -> real :: Costs(values) ==> Accurate(g, Played(g, sched, c, values), c))
            && !Current(g, Played(g, sched, c, Half(g, c, 2)), c)
  {
    var s1 := [Reports(1)];
    assert s1 == [] + [Reports(1)];
    TurnSnoc([], Reports(1));
    TurnSnoc(s1, Decides(1));
    TurnSnoc(s1 + [Decides(1)], Reports(2));
    TurnSnoc(s1 + [Decides(1)] + [Reports(2)], Decides(2));
    TurnSnoc(s1 + [Decides(1)] + [Reports(2)] + [Decides(2)], Emits(2));
    TurnSnoc(s1 + [Decides(1)] + [Reports(2)] + [Decides(2)] + [Emits(2)], Emits(1));
    var sched := s1 + [Decides(1)] + [Reports(2)] + [Decides(2)] + [Emits(2)] + [Emits(1)];
    assert BookOf(sched) == Book([1, 2], [1, 2], [2, 1]) && Proper(sched);
    AccurateIff(g, sched, c);
    SwappedIsStale(g, sched, c, 1, 2);
  }

  // ---------------------------------------------------------------- exactly when it does not

  /** The schedule of those calls that take part. */
  function Only(sched: seq<Turn>, kept: set<nat>): seq<Turn> {
    if sched == [] then []
    else
      var last := sched[|sched| - 1];
      if last.t in kept then Only(sched[..|sched| - 1], kept) + [last] else Only(sched[..|sched| - 1], kept)
  }

  function Keep(s: seq<nat>, kept: set<nat>): seq<nat> {
    if s == [] then []
    else if s[|s| - 1] in kept then Keep(s[..|s| - 1], kept) + [s[|s| - 1]]
    else Keep(s[..|s| - 1], kept)
  }

  lemma KeepSnoc(s: seq<nat>, x: nat, kept: set<nat>)
    ensures Keep(s + [x], kept) == if x in kept then Keep(s, kept) + [x] else Keep(s, kept)
  {
    assert (s + [x])[..|s|] == s;
  }

  lemma {:induction false} KeepElements(s: seq<nat>, kept: set<nat>)
    ensures forall x :: x in Keep(s, kept) <==> x in s && x in kept
  {
    if s != [] {
      KeepElements(s[..|s| - 1], kept);
      assert s == s[..|s| - 1] + [s[|s| - 1]];
    }
  }

  function KeepBook(b: Book, kept: set<nat>): Book {
    Book(Keep(b.rs, kept), Keep(b.ds, kept), Keep(b.es, kept))
  }

  lemma EnteredKept(b: Book, turn: Turn, kept: set<nat>)
    ensures KeepBook(Entered(b, turn), kept)
         == if turn.t in kept then Entered(KeepBook(b, kept), turn) else KeepBook(b, kept)
  {
    KeepSnoc(b.rs, turn.t, kept);
    KeepSnoc(b.ds, turn.t, kept);
    KeepSnoc(b.es, turn.t, kept);
  }

  lemma FitsKept(b: Book, turn: Turn, kept: set<nat>)
    requires Fits(b, turn) && turn.t in kept
    ensures Fits(KeepBook(b, kept), turn)
  {
    KeepElements(b.rs, kept);
    KeepElements(b.ds, kept);
    KeepElements(b.es, kept);
  }

  lemma {:induction false} OnlyBook(sched: seq<Turn>, kept: set<nat>)
    requires Proper(sched)
    ensures BookOf(Only(sched, kept)) == KeepBook(BookOf(sched), kept) && Proper(Only(sched, kept))
  {
    if sched != [] {
      var front, turn := sched[..|sched| - 1], sched[|sched| - 1];
      OnlyBook(front, kept);
      EnteredKept(BookOf(front), turn, kept);
      if turn.t in kept {
        FitsKept(BookOf(front), turn, kept);
        TurnSnoc(Only(front, kept), turn);
      }
    }
  }

  lemma {:induction false} KeepNone(s: seq<nat>, kept: set<nat>)
    requires forall x <- s :: x !in kept
    ensures Keep(s, kept) == []
  {
    if s != [] {
      KeepNone(s[..|s| - 1], kept);
    }
  }

  lemma {:induction false} KeepOne(s: seq<nat>, kept: set<nat>, i: nat)
    requires Distinct(s) && i < |s| && s[i] in kept && forall x <- s :: x in kept ==> x == s[i]
    ensures Keep(s, kept) == [s[i]]
  {
    var front := s[..|s| - 1];
    if i < |front| {
      KeepOne(front, kept, i);
    } else {
      KeepNone(front, kept);
    }
  }

  lemma {:induction false} KeepPair(s: seq<nat>, i: nat, j: nat)
    requires Distinct(s) && i < j < |s|
    ensures Keep(s, {s[i], s[j]}) == [s[i], s[j]]
  {
    var front := s[..|s| - 1];
    if j < |front| {
      KeepPair(front, i, j);
    } else {
      KeepOne(front, {s[i], s[j]}, i);
    }
  }

  /** Whoever takes part and whatever it costs, the highest number shows a current balance. */
  ghost predicate AlwaysCurrent(g: Grant, sched: seq<Turn>, c: string)
    requires c in g.initial
  {
    forall kept: set<nat>, values: nat -> real :: Costs(values) && BookOf(Only(sched, kept)).rs != [] ==>
      Current(g, Played(g, Only(sched, kept), c, values), c)
  }

  lemma Misled(g: Grant, sched: seq<Turn>, c: string, kept: set<nat>, values: nat -> real)
    requires c in g.initial && Costs(values) && BookOf(Only(sched, kept)).rs != []
    requires !Current(g, Played(g, Only(sched, kept), c, values), c)
    ensures !AlwaysCurrent(g, sched, c)
  {
  }

  lemma UnnumberedIsMissing(g: Grant, sched: seq<Turn>, c: string, t: nat)
    requires c in g.initial && g.initial[c] >= 0.0 && Proper(sched) && t in BookOf(sched).rs && t !in BookOf(sched).es
    ensures !AlwaysCurrent(g, sched, c)
  {
    OnlyBook(sched, {t});
    KeepElements(BookOf(sched).rs, {t});
    KeepNone(BookOf(sched).es, {t});
    assert t in BookOf(Only(sched, {t})).rs && BookOf(Only(sched, {t})).es == [];
    PlayFollows(g, Only(sched, {t}), c, Half(g, c, t));
    Misled(g, sched, c, {t}, Half(g, c, t));
  }

  lemma SwappedMisleads(g: Grant, sched: seq<Turn>, c: string)
    requires c in g.initial && g.initial[c] > 0.0 && Proper(sched) && BookOf(sched).es != BookOf(sched).rs
    requires forall t :: t in BookOf(sched).rs <==> t in BookOf(sched).es
    ensures !AlwaysCurrent(g, sched, c)
  {
    BookIsSound(sched);
    var p, q := Disagree(BookOf(sched).rs, BookOf(sched).es);
    OnlyBook(sched, {p, q});
    SwappedIsStale(g, Only(sched, {p, q}), c, p, q);
    Misled(g, sched, c, {p, q}, Half(g, c, q));
  }

  lemma OrderedNeverMisleads(g: Grant, sched: seq<Turn>, c: string)
    requires c in g.initial && g.initial[c] > 0.0 && Proper(sched) && BookOf(sched).es == BookOf(sched).rs
    ensures AlwaysCurrent(g, sched, c)
  {
    forall kept: set<nat>, values: nat -> real | Costs(values) && BookOf(Only(sched, kept)).rs != []
      ensures Current(g, Played(g, Only(sched, kept), c, values), c)
    {
      OnlyBook(sched, kept);
      InReportOrderIsCurrent(g, Only(sched, kept), c, values);
    }
  }

  lemma {:induction false} FirstDifference(rs: seq<nat>, es: seq<nat>) returns (k: nat)
    requires rs != es
    ensures k <= |rs| && k <= |es| && rs[..k] == es[..k]
    ensures (k == |rs| < |es|) || (k == |es| < |rs|) || (k < |rs| && k < |es| && rs[k] != es[k])
  {
    if rs == [] || es == [] || rs[0] != es[0] {
      k := 0;
    } else {
      assert rs == [rs[0]] + rs[1..] && es == [es[0]] + es[1..];
      var n := FirstDifference(rs[1..], es[1..]);
      k := n + 1;
      assert rs[..k] == [rs[0]] + rs[1..][..n] && es[..k] == [es[0]] + es[1..][..n];
    }
  }

  /** An element behind a common start lies behind it in both orders. */
  lemma LiesBehind(s: seq<nat>, r: seq<nat>, k: nat, x: nat) returns (j: nat)
    requires Distinct(r) && k <= |s| && k < |r| && s[..k] == r[..k] && x in s && x == r[k]
    ensures k <= j < |s| && s[j] == x
  {
    j :| 0 <= j < |s| && s[j] == x;
    assert forall i :: 0 <= i < k ==> s[i] == s[..k][i] == r[..k][i] == r[i];
  }

  /** Two orders of the same calls that differ disagree about some pair. */
  lemma Disagree(rs: seq<nat>, es: seq<nat>) returns (p: nat, q: nat)
    requires Distinct(rs) && Distinct(es) && rs != es && forall t :: t in rs <==> t in es
    ensures p != q && Keep(rs, {p, q}) == [p, q] && Keep(es, {p, q}) == [q, p]
  {
    var k := FirstDifference(rs, es);
    if k < |es| {
      var j := LiesBehind(rs, es, k, es[k]);
      if k < |rs| {
        var i := LiesBehind(es, rs, k, rs[k]);
        p, q := rs[k], es[k];
        KeepPair(rs, k, j);
        KeepPair(es, k, i);
        assert {p, q} == {q, p};
      }
    } else {
      var i := LiesBehind(es, rs, k, rs[k]);
    }
  }

  /** The balance with the highest number is within 5% of the true one, whichever calls take
      part and whatever they cost, iff every call gets its number and the numbers are given in
      the order of the reports. */
  lemma AlwaysCurrentIff(g: Grant, sched: seq<Turn>, c: string)
    requires c in g.initial && g.initial[c] > 0.0 && Proper(sched)
    ensures AlwaysCurrent(g, sched, c) <==> BookOf(sched).es == BookOf(sched).rs
  {
    var b := BookOf(sched);
    BookIsSound(sched);
    if b.es == b.rs {
      OrderedNeverMisleads(g, sched, c);
    } else if t :| t in b.rs && t !in b.es {
      UnnumberedIsMissing(g, sched, c, t);
    } else {
      assert forall t <- b.es :: t in b.ds && t in b.rs;
      SwappedMisleads(g, sched, c);
    }
  }

  // ---------------------------------------------------------------- how many events

  /** With `k` positive events behind it, the remembered balance has come down by a twentieth
      of the budget for each but the first. */
  predicate Paid(initial: real, last: real, k: nat) {
    k > 0 && last > 0.0 ==> last <= initial - 0.05 * initial * (k - 1) as real
  }

  ghost predicate CountInv(g: Grant, o: Overlap, c: string)
    requires c in g.initial
  {
    var k := Positives(o.emitted, c);
    k <= 20 && (k > 0 ==> c in o.last) && (c in o.last ==> Paid(g.initial[c], o.last[c], k))
  }

  lemma PaysAgain(initial: real, last: Counters, c: string, r: real, k: nat)
    requires r <= initial && (c in last ==> r <= last[c] && Paid(initial, last[c], k))
    requires k <= 20 && (k > 0 ==> c in last)
    requires ShouldEmit(initial, last, c, r)
    ensures r > 0.0 ==> k < 20 && Paid(initial, r, k + 1)
  {
    if r > 0.0 && c in last {
      EmissionDrop(initial, last[c], r, k);
    }
  }

  lemma DecisionKeepsCount(g: Grant, o: Overlap, c: string, t: nat)
    requires c in g.initial && t in o.pending && o.pending[t].currency == c && CountInv(g, o, c)
    requires var r := o.pending[t].remaining; r <= g.initial[c] && (c in o.last ==> r <= o.last[c])
    ensures CountInv(g, Decided(g, o, t), c)
  {
    var r := o.pending[t].remaining;
    if ShouldEmit(g.initial[c], o.last, c, r) {
      PositivesSnoc(o.emitted, Remaining(c, r), c);
      PaysAgain(g.initial[c], o.last, c, r, Positives(o.emitted, c));
    }
  }

  lemma BelowRemembered(g: Grant, o: Overlap, b: Book, c: string, t: nat)
    requires c in g.initial && Follows(g, o, b, c) && b.ds + [t] <= b.rs && c in o.last
    ensures t in o.carried && o.carried[t] <= o.last[c]
  {
    assert (b.ds + [t])[|b.ds|] == t == b.rs[|b.ds|];
    var x :| x in b.ds && x in o.carried && o.last[c] == o.carried[x];
    var i :| 0 <= i < |b.ds| && b.ds[i] == x;
    assert (b.ds + [t])[i] == x == b.rs[i];
  }

  lemma TurnKeepsCount(g: Grant, o: Overlap, b: Book, turn: Turn, c: string, values: nat -> real)
    requires c in g.initial && Fits(b, turn) && Follows(g, o, b, c) && CountInv(g, o, c)
    requires Entered(b, turn).ds <= Entered(b, turn).rs
    ensures CountInv(g, Advance(g, o, MoveOf(turn, c, values)), c)
  {
    match turn {
      case Reports(t) =>
      case Decides(t) =>
        if c in o.last {
          BelowRemembered(g, o, b, c, t);
        }
        DecisionKeepsCount(g, o, c, t);
      case Emits(t) =>
    }
  }

  /** If calls decide in the order of their reports, however many there are, at most 20 events
      show a positive balance. */
  lemma {:induction false} AtMostTwenty(g: Grant, sched: seq<Turn>, c: string, values: nat -> real)
    requires c in g.initial && Proper(sched) && Costs(values) && BookOf(sched).ds <= BookOf(sched).rs
    ensures CountInv(g, Played(g, sched, c, values), c) && Positives(Played(g, sched, c, values).emitted, c) <= 20
  {
    if sched != [] {
      var front, turn := sched[..|sched| - 1], sched[|sched| - 1];
      PlayFollows(g, front, c, values);
      OrderedBefore(BookOf(front), turn);
      AtMostTwenty(g, front, c, values);
      TurnKeepsCount(g, Played(g, front, c, values), BookOf(front), turn, c, values);
    }
  }

  // ---------------------------------------------------------------- and without that order

  lemma RaceSnoc(g: Grant, acts: seq<Move>, a: Move)
    ensures Race(g, acts + [a]) == Advance(g, Race(g, acts), a)
  {
    assert (acts + [a])[..|acts|] == acts;
  }

  /** Calls 1 to k carry the whole budget and have yet to decide, while half of it is spent and
      remembered; the numbers n + 1 to n + k are free. */
  ghost predicate Primed(g: Grant, o: Overlap, c: string, n: nat, k: nat)
    requires c in g.initial
  {
    && c in o.counters && o.counters[c] == g.initial[c] / 2.0 && c in o.last && o.last[c] == g.initial[c] / 2.0
    && (forall j: nat :: 1 <= j <= k ==> j in o.pending && o.pending[j] == Pending(c, g.initial[c]))
    && (forall j: nat :: n < j <= n + k ==> j !in o.carried)
  }

  /** A decision on a balance far from the remembered one. */
  lemma FarDecision(g: Grant, o: Overlap, c: string, t: nat, r: real)
    requires c in g.initial && g.initial[c] > 0.0 && t in o.pending && o.pending[t] == Pending(c, r) && r > 0.0
    requires c in o.last && Abs(o.last[c] - r) == g.initial[c] / 2.0
    ensures var o' := Advance(g, o, DecideBy(t));
            && c in o'.last && o'.last[c] == r && o'.counters == o.counters && o'.carried == o.carried
            && o'.pending == o.pending - {t} && Positives(o'.emitted, c) == Positives(o.emitted, c) + 1
  {
    ScaleBack(g.initial[c] / 2.0, g.initial[c]);
    PositivesSnoc(o.emitted, Remaining(c, r), c);
  }

  /** A stale decision raises the remembered balance, and a free report brings it down again. */
  lemma OneRound(g: Grant, o: Overlap, c: string, n: nat, k: nat)
    requires c in g.initial && g.initial[c] > 0.0 && 0 < k <= n && Primed(g, o, c, n, k)
    ensures var o' := Advance(g, Advance(g, Advance(g, o, DecideBy(k)), ReportBy(n + k, c, 0.0)), DecideBy(n + k));
            Primed(g, o', c, n, k - 1) && Positives(o'.emitted, c) == Positives(o.emitted, c) + 2
  {
    FarDecision(g, o, c, k, g.initial[c]);
    var o1 := Advance(g, o, DecideBy(k));
    var o2 := Advance(g, o1, ReportBy(n + k, c, 0.0));
    assert o2.pending == o1.pending[n + k := Pending(c, g.initial[c] / 2.0)];
    FarDecision(g, o2, c, n + k, g.initial[c] / 2.0);
  }

  lemma {:induction false} Rounds(g: Grant, acts: seq<Move>, c: string, n: nat, k: nat) returns (all: seq<Move>)
    requires c in g.initial && g.initial[c] > 0.0 && k <= n && Primed(g, Race(g, acts), c, n, k)
    ensures Positives(Race(g, all).emitted, c) == Positives(Race(g, acts).emitted, c) + 2 * k
    decreases k
  {
    if k == 0 {
      all := acts;
    } else {
      OneRound(g, Race(g, acts), c, n, k);
      RaceSnoc(g, acts, DecideBy(k));
      RaceSnoc(g, acts + [DecideBy(k)], ReportBy(n + k, c, 0.0));
      RaceSnoc(g, acts + [DecideBy(k)] + [ReportBy(n + k, c, 0.0)], DecideBy(n + k));
      all := Rounds(g, acts + [DecideBy(k)] + [ReportBy(n + k, c, 0.0)] + [DecideBy(n + k)], c, n, k - 1);
    }
  }

  /** `n` calls have reported no cost and not decided. */
  ghost predicate Waiting(g: Grant, o: Overlap, c: string, n: nat)
    requires c in g.initial
  {
    && c in o.counters && o.counters[c] == g.initial[c] && o.last == map[] && o.emitted == []
    && (forall j: nat :: 1 <= j <= n ==> j in o.pending && o.pending[j] == Pending(c, g.initial[c]))
    && (forall j <- o.carried :: 1 <= j <= n)
  }

  lemma {:induction false} ManyWait(g: Grant, c: string, n: nat) returns (acts: seq<Move>)
    requires c in g.initial
    ensures Waiting(g, Race(g, acts), c, n)
  {
    if n == 0 {
      acts := [];
    } else {
      acts := ManyWait(g, c, n - 1);
      RaceSnoc(g, acts, ReportBy(n, c, 0.0));
      acts := acts + [ReportBy(n, c, 0.0)];
    }
  }

  lemma PrimedByHalf(g: Grant, o: Overlap, c: string, n: nat)
    requires c in g.initial && g.initial[c] > 0.0 && Waiting(g, o, c, n)
    ensures Primed(g, Advance(g, Advance(g, o, ReportBy(0, c, g.initial[c] / 2.0)), DecideBy(0)), c, n, n)
  {
    var o1 := Advance(g, o, ReportBy(0, c, g.initial[c] / 2.0));
    assert 0 in o1.pending && o1.pending[0] == Pending(c, g.initial[c] / 2.0);
  }

  /** Without that order there is no bound: for every n, calls that report first and decide late
      can lead to n events with a positive balance. */
  lemma NoBoundOtherwise(g: Grant, c: string, n: nat) returns (acts: seq<Move>)
    requires c in g.initial && g.initial[c] > 0.0
    ensures Positives(Race(g, acts).emitted, c) >= n
  {
    acts := ManyWait(g, c, n);
    PrimedByHalf(g, Race(g, acts), c, n);
    RaceSnoc(g, acts, ReportBy(0, c, g.initial[c] / 2.0));
    RaceSnoc(g, acts + [ReportBy(0, c, g.initial[c] / 2.0)], DecideBy(0));
    acts := Rounds(g, acts + [ReportBy(0, c, g.initial[c] / 2.0)] + [DecideBy(0)], c, n, n);
  }
}
