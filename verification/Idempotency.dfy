/**
  Once-only submission (internal/idstore/idstore.go; server/session.go: handleJobSubmit,
  replayAccepted; server/server.go: sweepIdle). Parameters stand for their hash, which is
  assumed injective; a cached job.accepted stands for the job it names.
 */
module Idempotency {
  import opened Base

  const NUL: char := '\0'

  /** The composed store key. */
  function Key(principal: string, k: string): string {
    principal + [NUL] + k
  }

  /** Two principals can collide, for some keys, iff one is the other followed by a NUL and
      more; keys themselves may hold anything. */
  lemma KeysCollideIff(p: string, q: string)
    ensures (exists k, l :: Key(p, k) == Key(q, l)) <==> (p == q || p + [NUL] <= q || q + [NUL] <= p)
  {
    if k, l :| Key(p, k) == Key(q, l) {
      if |p| < |q| {
        assert (p + [NUL]) == Key(q, l)[..|p| + 1] == q[..|p| + 1];
      } else if |q| < |p| {
        assert (q + [NUL]) == Key(p, k)[..|q| + 1] == p[..|q| + 1];
      } else {
        assert p == Key(p, k)[..|p|] == q;
      }
    }
    if p == q {
      assert Key(p, "") == Key(q, "");
    } else if p + [NUL] <= q {
      assert Key(p, q[|p| + 1..] + [NUL]) == Key(q, "");
    } else if q + [NUL] <= p {
      assert Key(q, p[|q| + 1..] + [NUL]) == Key(p, "");
    }
  }

  lemma KeyInjective(p: string, k: string, q: string, l: string)
    requires NUL !in p && NUL !in q && Key(p, k) == Key(q, l)
    ensures p == q && k == l
  {
    KeysCollideIff(p, q);
    if p + [NUL] <= q {
      NulInside(p, q);
    } else if q + [NUL] <= p {
      NulInside(q, p);
    } else {
      assert k == Key(p, k)[|p| + 1..] == Key(q, l)[|q| + 1..] == l;
    }
  }

  lemma NulInside(p: string, q: string)
    requires p + [NUL] <= q
    ensures NUL in q
  {
    assert q[|p|] == (p + [NUL])[|p|];
  }

  datatype Entry = Entry(
    principal: string, key: string, job: nat, createdAt: int, params: string, accepted: Option<nat>)

  type Table = map<string, Entry>

  function Young(m: Table, cutoff: int): Table {
    map k | k in m && m[k].createdAt >= cutoff :: m[k]
  }

  function WithAccepted(m: Table, k: string, job: nat): Table {
    if k in m then m[k := m[k].(accepted := Some(job))] else m
  }

  /** idstore.Memory; a finished context turns every call into an error without effect. */
  class Memory {
    var m: Table
    const ttl: int

    constructor (ttl: int)
      ensures m == map[] && this.ttl == ttl
    {
      m, this.ttl := map[], ttl;
    }

    method PutIfAbsent(contextDone: bool, e: Entry) returns (stored: Option<Entry>, isNew: bool)
      modifies this
      ensures stored.None? <==> contextDone
      ensures isNew <==> !contextDone && Key(e.principal, e.key) !in old(m)
      ensures m == if isNew then old(m)[Key(e.principal, e.key) := e] else old(m)
      ensures !contextDone ==> Key(e.principal, e.key) in m && stored == Some(m[Key(e.principal, e.key)])
    {
      if contextDone {
        return None, false;
      }
      var k := Key(e.principal, e.key);
      if k in m {
        return Some(m[k]), false;
      }
      m := m[k := e];
      return Some(e), true;
    }

    method SetAccepted(contextDone: bool, principal: string, key: string, job: nat)
      modifies this
      ensures m == if contextDone then old(m) else WithAccepted(old(m), Key(principal, key), job)
      ensures m.Keys == old(m).Keys
      ensures forall k <- m :: m[k] == if contextDone || k != Key(principal, key) then old(m)[k]
                                       else old(m)[k].(accepted := Some(job))
    {
      if contextDone {
        return;
      }
      var k := Key(principal, key);
      if k in m {
        m := m[k := m[k].(accepted := Some(job))];
      }
    }

    method Sweep(contextDone: bool, cutoff: int) returns (n: nat)
      modifies this
      ensures m == if contextDone then old(m) else Young(old(m), cutoff)
      ensures forall k :: k in m <==> k in old(m) && (contextDone || old(m)[k].createdAt >= cutoff)
      ensures forall k <- m :: m[k] == old(m)[k]
      ensures n == |old(m)| - |m|
    {
      n := 0;
      if contextDone {
        return;
      }
      var todo := m.Keys;
      while todo != {}
        invariant todo <= old(m).Keys
        invariant m == map k | k in old(m) && (k in todo || old(m)[k].createdAt >= cutoff) :: old(m)[k]
        invariant n == |old(m)| - |m|
      {
        var k :| k in todo;
        if m[k].createdAt < cutoff {
          assert m.Keys == (m - {k}).Keys + {k};
          m := m - {k};
          n := n + 1;
        }
        todo := todo - {k};
      }
    }

    /** The janitor never removes an entry that has lived for at most the TTL. */
    method SweepIdle(contextDone: bool, now: int)
      modifies this
      ensures forall k :: k in old(m) && now - old(m)[k].createdAt <= ttl ==> k in m && m[k] == old(m)[k]
      ensures forall k :: k in m ==> k in old(m)
      ensures !contextDone ==> forall k :: k in m ==> now - m[k].createdAt <= ttl
    {
      var _ := Sweep(contextDone, now - ttl);
    }
  }

  // ---------------------------------------------------------------- racing submits

  /** A submit: before PutIfAbsent; owning the key; accepted and about to cache; cached and
      about to run; about to replay a cached acceptance; over. */
  datatype Pc = Begun | Owner | Announced | Cached | Replaying(job: nat) | Over

  datatype Submit = Submit(principal: string, key: string, params: string, job: nat, pc: Pc)

  /** `announced` and `runs` list, per composed key, the jobs named in job.accepted and the
      agent runs started since the key's present entry was stored. */
  datatype State = State(
    m: Table, submits: map<nat, Submit>, jobs: set<nat>,
    announced: map<string, set<nat>>, runs: map<string, seq<nat>>)

  const START := State(map[], map[], {}, map[], map[])

  datatype Action =
    | Begin(t: nat, principal: string, key: string, params: string, job: nat)
    | Put(t: nat, now: int)
    | Fail(t: nat)                      // store or credential error, undecodable or unbuildable acceptance
    | Announce(t: nat)
    | Cache(t: nat, stored: bool)
    | StartRun(t: nat)
    | Replay(t: nat)
    | Sweep(cutoff: int)

  function KeyOf(x: Submit): string {
    Key(x.principal, x.key)
  }

  function Goto(s: State, t: nat, pc: Pc): State
    requires t in s.submits
  {
    s.(submits := s.submits[t := s.submits[t].(pc := pc)])
  }

  function AnnouncedFor(s: State, k: string): set<nat> {
    if k in s.announced then s.announced[k] else {}
  }

  function RunsFor(s: State, k: string): seq<nat> {
    if k in s.runs then s.runs[k] else []
  }

  function DoPut(s: State, t: nat, now: int): State
    requires t in s.submits
  {
    var x := s.submits[t];
    var k := KeyOf(x);
    if k !in s.m then
      Goto(s, t, Owner).(m := s.m[k := Entry(x.principal, x.key, x.job, now, x.params, None)])
    else if s.m[k].params != x.params || s.m[k].accepted.None? then
      Goto(s, t, Over)
    else
      Goto(s, t, Replaying(s.m[k].accepted.value))
  }

  function DoSweep(s: State, cutoff: int): State {
    var kept := Young(s.m, cutoff);
    s.(m := kept, announced := s.announced - (s.m.Keys - kept.Keys), runs := s.runs - (s.m.Keys - kept.Keys))
  }

  function Step(s: State, a: Action): State {
    if a.Begin? then
      if a.t in s.submits || a.job in s.jobs then s
      else s.(submits := s.submits[a.t := Submit(a.principal, a.key, a.params, a.job, Begun)], jobs := s.jobs + {a.job})
    else if a.Sweep? then
      DoSweep(s, a.cutoff)
    else if a.t !in s.submits then
      s
    else
      Act(s, a)
  }

  /** A step of the submit `a.t`. */
  function Act(s: State, a: Action): State
    requires !a.Begin? && !a.Sweep? && a.t in s.submits
  {
    var x := s.submits[a.t];
    var k := KeyOf(x);
    match (a, x.pc)
    case (Put(t, now), Begun) => DoPut(s, t, now)
    case (Fail(t), Begun) => Goto(s, t, Over)
    case (Fail(t), Owner) => Goto(s, t, Over)
    case (Fail(t), Replaying(_)) => Goto(s, t, Over)
    case (Announce(t), Owner) => Goto(s, t, Announced).(announced := s.announced[k := AnnouncedFor(s, k) + {x.job}])
    case (Cache(t, stored), Announced) =>
      Goto(s, t, Cached).(m := if stored then WithAccepted(s.m, k, x.job) else s.m)
    case (StartRun(t), Cached) => Goto(s, t, Over).(runs := s.runs[k := RunsFor(s, k) + [x.job]])
    case (Replay(t), Replaying(j)) => Goto(s, t, Over).(announced := s.announced[k := AnnouncedFor(s, k) + {j}])
    case _ => s
  }

  function Run(acts: seq<Action>): State {
    if acts == [] then START else Step(Run(acts[..|acts| - 1]), acts[|acts| - 1])
  }

  predicate InFlight(x: Submit) {
    x.pc.Owner? || x.pc.Announced? || x.pc.Cached? || x.pc.Replaying?
  }

  // ---------------------------------------------------------------- what the key promises

  /** Every job announced or started under `k` since it was last swept is the one its entry
      names, and that one is started at most once. */
  ghost predicate Promise(s: State, k: string) {
    if k in s.m then AnnouncedFor(s, k) <= {s.m[k].job} && RunsFor(s, k) <= [s.m[k].job]
    else AnnouncedFor(s, k) == {} && RunsFor(s, k) == []
  }

  function JobServed(x: Submit): nat {
    if x.pc.Replaying? then x.pc.job else x.job
  }

  predicate Working(s: State, t: nat, k: string) {
    t in s.submits && KeyOf(s.submits[t]) == k && InFlight(s.submits[t])
  }

  /** `t` is still working for `k`, but the entry it stored or looked up is gone or has been
      replaced. */
  predicate StaleOn(s: State, t: nat, k: string) {
    Working(s, t, k) && (k !in s.m || s.m[k].job != JobServed(s.submits[t]))
  }

  ghost predicate Stale(s: State, k: string) {
    exists t :: StaleOn(s, t, k)
  }

  predicate Removes(s: State, a: Action, k: string) {
    a.Sweep? && k in s.m && s.m[k].createdAt < a.cutoff
  }

  /** No sweep removes `k` while a submit is working for it. */
  ghost predicate Quiet(s: State, a: Action, k: string) {
    Removes(s, a, k) ==> forall t :: !Working(s, t, k)
  }

  ghost predicate QuietRun(acts: seq<Action>, k: string) {
    acts != [] ==> QuietRun(acts[..|acts| - 1], k) && Quiet(Run(acts[..|acts| - 1]), acts[|acts| - 1], k)
  }

  // ---------------------------------------------------------------- what every run keeps

  /** A submit's own job is started, announced and cached only by the submit's own steps. */
  ghost predicate OwnSteps(s: State, t: nat, k: string)
    requires t in s.submits
  {
    var x := s.submits[t];
    && (x.pc.Begun? || x.pc.Owner? || x.pc.Announced? || x.pc.Cached? ==> x.job !in RunsFor(s, k))
    && (x.pc.Begun? || x.pc.Owner? ==> x.job !in AnnouncedFor(s, k))
    && (x.pc.Begun? || x.pc.Owner? || x.pc.Announced? ==> k in s.m ==> s.m[k].accepted != Some(x.job))
  }

  ghost predicate Apart(s: State, t: nat, u: nat)
    requires t in s.submits && u in s.submits
  {
    var x, y := s.submits[t], s.submits[u];
    && (x.job == y.job ==> t == u)
    && (x.pc.Begun? || x.pc.Owner? || x.pc.Announced? ==> y.pc != Replaying(x.job))
  }

  ghost predicate KnownJobs(s: State, k: string) {
    && (forall j <- RunsFor(s, k) :: j in s.jobs) && AnnouncedFor(s, k) <= s.jobs
    && (k in s.m ==> Key(s.m[k].principal, s.m[k].key) == k && s.m[k].job in s.jobs)
    && (k in s.m && s.m[k].accepted.Some? ==> s.m[k].accepted.value in s.jobs)
  }

  ghost predicate KnownSubmit(s: State, t: nat)
    requires t in s.submits
  {
    s.submits[t].job in s.jobs && (s.submits[t].pc.Replaying? ==> s.submits[t].pc.job in s.jobs)
  }

  predicate CachedOn(s: State, t: nat, k: string, job: nat) {
    t in s.submits && KeyOf(s.submits[t]) == k && s.submits[t].pc.Cached? && s.submits[t].job == job
  }

  /** An acceptance of another job, cached by a submit that outlived its entry, shows. */
  ghost predicate ForeignShows(s: State, k: string) {
    k in s.m && s.m[k].accepted.Some? && s.m[k].accepted.value != s.m[k].job ==>
      s.m[k].accepted.value in RunsFor(s, k) || exists t :: CachedOn(s, t, k, s.m[k].accepted.value)
  }

  ghost predicate Inv(s: State) {
    && (forall t, k :: t in s.submits ==> OwnSteps(s, t, k))
    && (forall t, u :: t in s.submits && u in s.submits ==> Apart(s, t, u))
    && (forall k :: KnownJobs(s, k) && ForeignShows(s, k))
    && (forall t :: t in s.submits ==> KnownSubmit(s, t))
  }

  /** `a` is a step of a submit under `k`, or a sweep that removes it. */
  predicate Concerns(s: State, a: Action, k: string) {
    Removes(s, a, k) || (!a.Begin? && !a.Sweep? && a.t in s.submits && KeyOf(s.submits[a.t]) == k)
  }

  predicate SameKey(s: State, s': State, k: string) {
    && (k in s.m <==> k in s'.m) && (k in s.m ==> s.m[k] == s'.m[k])
    && AnnouncedFor(s, k) == AnnouncedFor(s', k) && RunsFor(s, k) == RunsFor(s', k)
  }

  lemma ElsewhereSame(s: State, a: Action, k: string)
    requires !Concerns(s, a, k)
    ensures SameKey(s, Step(s, a), k)
  {
  }

  lemma OthersSame(s: State, a: Action, u: nat)
    ensures u in s.submits && (a.Begin? || a.Sweep? || a.t != u) ==>
              u in Step(s, a).submits && Step(s, a).submits[u] == s.submits[u]
    ensures u in Step(s, a).submits && u !in s.submits ==>
              a.Begin? && a.t == u && Step(s, a).submits[u].pc == Begun && Step(s, a).submits[u].job !in s.jobs
    ensures s.jobs <= Step(s, a).jobs
    ensures u in Step(s, a).submits && u !in s.submits ==> Step(s, a).submits[u].job in Step(s, a).jobs
    ensures u in s.submits ==>
              u in Step(s, a).submits && Step(s, a).submits[u].(pc := Over) == s.submits[u].(pc := Over)
  {
  }

  lemma NotYetRun(runs: seq<nat>, j: nat)
    requires runs <= [j] && j !in runs
    ensures runs == []
  {
    assert |runs| == 1 ==> runs == [j];
  }

  lemma OwnStepsHere(s: State, a: Action, t: nat, k: string)
    requires !a.Begin? && !a.Sweep? && a.t in s.submits && KeyOf(s.submits[a.t]) == k
    requires t in s.submits && OwnSteps(s, t, k) && Apart(s, t, a.t)
    ensures t in Act(s, a).submits && OwnSteps(Act(s, a), t, k)
  {
  }

  lemma StepKeepsOwnSteps(s: State, a: Action, t: nat, k: string)
    requires Inv(s) && t in Step(s, a).submits
    ensures OwnSteps(Step(s, a), t, k)
  {
    if t in s.submits && !a.Begin? && !a.Sweep? && Concerns(s, a, k) {
      OwnStepsHere(s, a, t, k);
    } else {
      OwnStepsElsewhere(s, a, t, k);
    }
  }

  lemma OwnStepsElsewhere(s: State, a: Action, t: nat, k: string)
    requires Inv(s) && t in Step(s, a).submits && (t !in s.submits || a.Begin? || a.Sweep? || !Concerns(s, a, k))
    ensures OwnSteps(Step(s, a), t, k)
  {
    OthersSame(s, a, t);
    assert KnownJobs(s, k) && (t in s.submits ==> OwnSteps(s, t, k));
    if !Concerns(s, a, k) {
      ElsewhereSame(s, a, k);
    }
  }

  lemma StepKeepsApart(s: State, a: Action, t: nat, u: nat)
    requires Inv(s) && t in Step(s, a).submits && u in Step(s, a).submits
    ensures Apart(Step(s, a), t, u)
  {
    OthersSame(s, a, t);
    OthersSame(s, a, u);
    if t in s.submits && u in s.submits {
      assert Apart(s, t, u) && Apart(s, u, t) && OwnSteps(s, t, KeyOf(s.submits[u]));
    }
    assert t in s.submits ==> KnownSubmit(s, t);
    assert u in s.submits ==> KnownSubmit(s, u);
  }

  lemma StepKeepsKnown(s: State, a: Action, k: string)
    requires Inv(s)
    ensures KnownJobs(Step(s, a), k)
  {
    assert KnownJobs(s, k);
    if !a.Begin? && !a.Sweep? && a.t in s.submits {
      assert KnownSubmit(s, a.t);
    }
  }

  lemma StepKeepsKnownSubmit(s: State, a: Action, t: nat)
    requires Inv(s) && t in Step(s, a).submits
    ensures KnownSubmit(Step(s, a), t)
  {
    if t in s.submits {
      assert KnownSubmit(s, t) && KnownJobs(s, KeyOf(s.submits[t]));
    }
  }

  lemma ForeignElsewhere(s: State, a: Action, k: string)
    requires ForeignShows(s, k) && !Concerns(s, a, k)
    ensures ForeignShows(Step(s, a), k)
  {
    ElsewhereSame(s, a, k);
    if k in s.m && s.m[k].accepted.Some? {
      if t :| CachedOn(s, t, k, s.m[k].accepted.value) {
        OthersSame(s, a, t);
        assert CachedOn(Step(s, a), t, k, s.m[k].accepted.value);
      }
    }
  }

  lemma ForeignHere(s: State, a: Action, k: string)
    requires ForeignShows(s, k) && !a.Begin? && !a.Sweep? && a.t in s.submits && KeyOf(s.submits[a.t]) == k
    ensures ForeignShows(Act(s, a), k)
  {
    var s' := Act(s, a);
    if a.Cache? && s.submits[a.t].pc.Announced? {
      assert CachedOn(s', a.t, k, s.submits[a.t].job);
    }
    if k in s.m && s.m[k].accepted.Some? {
      if t :| CachedOn(s, t, k, s.m[k].accepted.value) {
        assert CachedOn(s', t, k, s.m[k].accepted.value) || s.m[k].accepted.value in RunsFor(s', k);
      }
    }
  }

  lemma StepKeepsForeign(s: State, a: Action, k: string)
    requires ForeignShows(s, k)
    ensures ForeignShows(Step(s, a), k)
  {
    if !Concerns(s, a, k) {
      ForeignElsewhere(s, a, k);
    } else if !a.Sweep? {
      ForeignHere(s, a, k);
    }
  }

  lemma StepKeepsInv(s: State, a: Action)
    requires Inv(s)
    ensures Inv(Step(s, a))
  {
    var s' := Step(s, a);
    forall t, k | t in s'.submits ensures OwnSteps(s', t, k) {
      StepKeepsOwnSteps(s, a, t, k);
    }
    forall t, u | t in s'.submits && u in s'.submits ensures Apart(s', t, u) {
      StepKeepsApart(s, a, t, u);
    }
    forall k ensures KnownJobs(s', k) && ForeignShows(s', k) {
      StepKeepsKnown(s, a, k);
      StepKeepsForeign(s, a, k);
    }
    forall t | t in s'.submits ensures KnownSubmit(s', t) {
      StepKeepsKnownSubmit(s, a, t);
    }
  }

  lemma {:induction false} RunKeepsInv(acts: seq<Action>)
    ensures Inv(Run(acts))
  {
    if acts != [] {
      RunKeepsInv(acts[..|acts| - 1]);
      StepKeepsInv(Run(acts[..|acts| - 1]), acts[|acts| - 1]);
    }
  }

  // ---------------------------------------------------------------- once only

  /** What a retry would be told is what the entry names. */
  lemma CachedIsOwn(s: State, k: string)
    requires Inv(s) && Promise(s, k) && !Stale(s, k) && k in s.m && s.m[k].accepted.Some?
    ensures s.m[k].accepted.value == s.m[k].job
  {
    assert ForeignShows(s, k);
    if s.m[k].accepted.value != s.m[k].job && s.m[k].accepted.value !in RunsFor(s, k) {
      var t :| CachedOn(s, t, k, s.m[k].accepted.value);
      assert StaleOn(s, t, k);
    }
  }

  lemma StepKeepsPromise(s: State, a: Action, k: string)
    requires Inv(s) && Promise(s, k) && !Stale(s, k) && Quiet(s, a, k)
    ensures Promise(Step(s, a), k)
  {
    if !Concerns(s, a, k) {
      ElsewhereSame(s, a, k);
    } else if !a.Sweep? {
      assert OwnSteps(s, a.t, k) && !StaleOn(s, a.t, k);
      if s.submits[a.t].pc.Cached? {
        NotYetRun(RunsFor(s, k), s.submits[a.t].job);
      }
    }
  }

  lemma StepKeepsFresh(s: State, a: Action, k: string, u: nat)
    requires Inv(s) && Promise(s, k) && !Stale(s, k) && Quiet(s, a, k)
    ensures !StaleOn(Step(s, a), u, k)
  {
    OthersSame(s, a, u);
    assert !StaleOn(s, u, k);
    if !Concerns(s, a, k) {
      ElsewhereSame(s, a, k);
    } else if !a.Sweep? {
      if k in s.m && s.m[k].accepted.Some? {
        CachedIsOwn(s, k);
      }
    } else {
      assert !Working(s, u, k);
    }
  }

  lemma {:induction false} QuietRunKeeps(acts: seq<Action>, k: string)
    requires QuietRun(acts, k)
    ensures Inv(Run(acts)) && Promise(Run(acts), k) && !Stale(Run(acts), k)
  {
    RunKeepsInv(acts);
    if acts != [] {
      var s, a := Run(acts[..|acts| - 1]), acts[|acts| - 1];
      QuietRunKeeps(acts[..|acts| - 1], k);
      StepKeepsPromise(s, a, k);
      forall u ensures !StaleOn(Step(s, a), u, k) {
        StepKeepsFresh(s, a, k, u);
      }
    }
  }

  /** Section 7.2: as long as no sweep removes the key's entry under a submit that is working
      for it, whatever happens to other keys, any interleaving of submits starts at most one
      agent run per entry, and every job.accepted sent for the key names the entry's job. */
  lemma OncePerKey(acts: seq<Action>, principal: string, key: string)
    requires QuietRun(acts, Key(principal, key)) && Key(principal, key) in Run(acts).m
    ensures var s := Run(acts);
            var k := Key(principal, key);
            RunsFor(s, k) <= [s.m[k].job] && AnnouncedFor(s, k) <= {s.m[k].job}
  {
    QuietRunKeeps(acts, Key(principal, key));
  }

  /** With NUL-free principals an entry answers only for the pair that stored it. */
  lemma EntriesStayApart(acts: seq<Action>, principal: string, key: string)
    requires Key(principal, key) in Run(acts).m
    requires NUL !in principal && NUL !in Run(acts).m[Key(principal, key)].principal
    ensures Run(acts).m[Key(principal, key)].principal == principal && Run(acts).m[Key(principal, key)].key == key
  {
    RunKeepsInv(acts);
    var e := Run(acts).m[Key(principal, key)];
    assert KnownJobs(Run(acts), Key(principal, key));
    KeyInjective(e.principal, e.key, principal, key);
  }

  lemma {:induction false} RunAppend(acts: seq<Action>, a: Action)
    ensures Run(acts + [a]) == Step(Run(acts), a)
  {
    assert (acts + [a])[..|acts|] == acts;
  }

  // ---------------------------------------------------------------- how a submit is answered

  /** A submit that looks its key up finds it free and stores its own job and parameters; or is
      answered by replaying the cached acceptance iff it has the stored parameters and there is
      one; or is refused. Only the first kind changes the store. */
  lemma AnsweredIff(acts: seq<Action>, t: nat, now: int)
    requires t in Run(acts).submits && Run(acts).submits[t].pc.Begun?
    ensures var s, s' := Run(acts), Run(acts + [Put(t, now)]);
            var x := s.submits[t];
            var k := Key(x.principal, x.key);
            && t in s'.submits && s'.announced == s.announced && s'.runs == s.runs
            && (s'.submits[t].pc.Owner? <==> k !in s.m)
            && (k !in s.m ==> s'.m == s.m[k := Entry(x.principal, x.key, x.job, now, x.params, None)])
            && (k in s.m ==> s'.m == s.m)
            && (s'.submits[t].pc.Replaying? <==> k in s.m && s.m[k].params == x.params && s.m[k].accepted.Some?)
            && (s'.submits[t].pc.Replaying? ==> s.m[k].accepted == Some(s'.submits[t].pc.job))
            && (!s'.submits[t].pc.Owner? && !s'.submits[t].pc.Replaying? ==> s'.submits[t].pc.Over?)
  {
    RunAppend(acts, Put(t, now));
  }

  /** What an owner still has to do. */
  function Serving(t: nat, stored: bool): seq<Action> {
    [Announce(t), Cache(t, stored), StartRun(t)]
  }

  ghost predicate ServingAt(s: State, t: nat, k: string, n: nat) {
    && t in s.submits && KeyOf(s.submits[t]) == k
    && (s.submits[t].pc.Owner? || s.submits[t].pc.Announced? || s.submits[t].pc.Cached?
        || (s.submits[t].pc.Over? && s.submits[t].job in RunsFor(s, k)))
    && (!s.submits[t].pc.Owner? ==> s.submits[t].job in AnnouncedFor(s, k))
    && (n >= 1 ==> !s.submits[t].pc.Owner?) && (n >= 2 ==> !s.submits[t].pc.Announced?)
    && (n >= 3 ==> !s.submits[t].pc.Cached?)
  }

  lemma NothingForgotten(s: State, a: Action, k: string)
    requires !a.Sweep?
    ensures AnnouncedFor(s, k) <= AnnouncedFor(Step(s, a), k)
    ensures forall j <- RunsFor(s, k) :: j in RunsFor(Step(s, a), k)
  {
    if !Concerns(s, a, k) {
      ElsewhereSame(s, a, k);
    }
  }

  lemma OwnerMoves(s: State, a: Action, t: nat, k: string, stored: bool, n: nat)
    requires ServingAt(s, t, k, n) && a != Fail(t) && !a.Sweep? && !a.Begin? && a.t == t
    ensures ServingAt(Act(s, a), t, k, n)
    ensures n < 3 && a == Serving(t, stored)[n] ==> ServingAt(Act(s, a), t, k, n + 1)
  {
  }

  lemma StepKeepsServing(s: State, a: Action, t: nat, k: string, stored: bool, n: nat)
    requires ServingAt(s, t, k, n) && a != Fail(t) && !a.Sweep?
    ensures ServingAt(Step(s, a), t, k, n)
    ensures n < 3 && a == Serving(t, stored)[n] ==> ServingAt(Step(s, a), t, k, n + 1)
  {
    if !a.Begin? && a.t == t {
      OwnerMoves(s, a, t, k, stored, n);
    } else {
      OthersSame(s, a, t);
      NothingForgotten(s, a, k);
    }
  }

  lemma {:induction false} ServingGoesOn(acts: seq<Action>, more: seq<Action>, t: nat, k: string, stored: bool)
    requires ServingAt(Run(acts), t, k, 0) && SweepFree(more) && Fail(t) !in more
    ensures ServingAt(Run(acts + more), t, k, Matched(more, Serving(t, stored)))
  {
    if more == [] {
      assert acts + more == acts;
    } else {
      var front, a := more[..|more| - 1], more[|more| - 1];
      assert acts + more == (acts + front) + [a] && a in more;
      ServingGoesOn(acts, front, t, k, stored);
      RunAppend(acts + front, a);
      StepKeepsServing(Run(acts + front), a, t, k, stored, Matched(front, Serving(t, stored)));
    }
  }

  /** The owner of a key announces its job and starts it, in every run that gives it its turns
      and neither fails it nor sweeps. */
  lemma EveryOwnerRuns(acts: seq<Action>, more: seq<Action>, t: nat, stored: bool)
    requires t in Run(acts).submits && Run(acts).submits[t].pc.Owner?
    requires SweepFree(more) && Fail(t) !in more && Contains(more, Serving(t, stored))
    ensures var k := KeyOf(Run(acts).submits[t]);
            var job := Run(acts).submits[t].job;
            job in RunsFor(Run(acts + more), k) && job in AnnouncedFor(Run(acts + more), k)
  {
    ServingGoesOn(acts, more, t, KeyOf(Run(acts).submits[t]), stored);
    JobStays(acts, more, t);
  }

  lemma {:induction false} JobStays(acts: seq<Action>, more: seq<Action>, t: nat)
    requires t in Run(acts).submits
    ensures t in Run(acts + more).submits && Run(acts + more).submits[t].job == Run(acts).submits[t].job
  {
    if more == [] {
      assert acts + more == acts;
    } else {
      var front, a := more[..|more| - 1], more[|more| - 1];
      assert acts + more == (acts + front) + [a];
      JobStays(acts, front, t);
      RunAppend(acts + front, a);
      OthersSame(Run(acts + front), a, t);
    }
  }

  // ---------------------------------------------------------------- exactly when

  ghost predicate SweepFree(acts: seq<Action>) {
    forall a <- acts :: !a.Sweep?
  }

  lemma {:induction false} FreshStaysKept(acts: seq<Action>, k: string, more: seq<Action>)
    requires Promise(Run(acts), k) && !Stale(Run(acts), k) && SweepFree(more)
    ensures Promise(Run(acts + more), k) && !Stale(Run(acts + more), k)
  {
    if more == [] {
      assert acts + more == acts;
    } else {
      var front, a := more[..|more| - 1], more[|more| - 1];
      assert acts + more == (acts + front) + [a];
      assert a in more;
      FreshStaysKept(acts, k, front);
      RunKeepsInv(acts + front);
      RunAppend(acts + front, a);
      StepKeepsPromise(Run(acts + front), a, k);
      forall u ensures !StaleOn(Run(acts + more), u, k) {
        StepKeepsFresh(Run(acts + front), a, k, u);
      }
    }
  }

  lemma StartedBreaks(s: State, t: nat, k: string)
    requires StaleOn(s, t, k) && s.submits[t].pc.Cached?
    ensures !Promise(Step(s, StartRun(t)), k)
  {
    var runs := RunsFor(Step(s, StartRun(t)), k);
    assert runs[|runs| - 1] == s.submits[t].job;
    if k in s.m {
      EndsOtherwise(runs, s.m[k].job);
    }
  }

  lemma EndsOtherwise(runs: seq<nat>, j: nat)
    requires runs != [] && runs[|runs| - 1] != j
    ensures !(runs <= [j])
  {
    assert |runs| == 1 ==> runs == [runs[|runs| - 1]];
  }

  /** A stale submit breaks the promise by its own next steps: an owner announces, an
      announced or cached one starts its run, a retry replays an acceptance that no longer
      stands. */
  lemma StaleBreaks(acts: seq<Action>, t: nat, k: string) returns (more: seq<Action>)
    requires StaleOn(Run(acts), t, k)
    ensures SweepFree(more) && !Promise(Run(acts + more), k)
  {
    match Run(acts).submits[t].pc {
      case Owner =>
        more := [Announce(t)];
        RunAppend(acts, Announce(t));
      case Announced =>
        more := [Cache(t, false), StartRun(t)];
        RunAppend(acts, Cache(t, false));
        RunAppend(acts + [Cache(t, false)], StartRun(t));
        assert acts + more == acts + [Cache(t, false)] + [StartRun(t)];
        StartedBreaks(Run(acts + [Cache(t, false)]), t, k);
      case Cached =>
        more := [StartRun(t)];
        RunAppend(acts, StartRun(t));
        StartedBreaks(Run(acts), t, k);
      case Replaying(j) =>
        more := [Replay(t)];
        RunAppend(acts, Replay(t));
    }
  }

  /** From any reachable state: whatever submits do until the next sweep, the promise for `k`
      is kept iff it is kept now and no submit working for `k` serves an entry that is gone
      or replaced. */
  lemma PromiseHoldsIff(acts: seq<Action>, k: string)
    ensures (forall more :: SweepFree(more) ==> Promise(Run(acts + more), k))
       <==> Promise(Run(acts), k) && !Stale(Run(acts), k)
  {
    if forall more :: SweepFree(more) ==> Promise(Run(acts + more), k) {
      assert acts + [] == acts && SweepFree([]);
      if t :| StaleOn(Run(acts), t, k) {
        var more := StaleBreaks(acts, t, k);
      }
    }
    if Promise(Run(acts), k) && !Stale(Run(acts), k) {
      forall more | SweepFree(more) ensures Promise(Run(acts + more), k) {
        FreshStaysKept(acts, k, more);
      }
    }
  }

  lemma SweptState(s: State, cutoff: int, k: string)
    requires Promise(s, k) && !Stale(s, k)
    ensures Promise(DoSweep(s, cutoff), k)
    ensures Stale(DoSweep(s, cutoff), k) <==> Removes(s, Sweep(cutoff), k) && exists t :: Working(s, t, k)
  {
    var s' := DoSweep(s, cutoff);
    if Removes(s, Sweep(cutoff), k) {
      if t :| Working(s, t, k) {
        assert StaleOn(s', t, k);
      } else {
        forall t ensures !StaleOn(s', t, k) {
          assert !Working(s, t, k);
        }
      }
    } else {
      forall t ensures !StaleOn(s', t, k) {
        assert !StaleOn(s, t, k);
      }
    }
  }

  /** A sweep endangers the promise for `k` iff it removes the entry while a submit is working
      for it: an unfinished first submit, or a retry that looked the entry up just before its
      time ran out. */
  lemma SweepBreaksIff(acts: seq<Action>, cutoff: int, k: string)
    requires Promise(Run(acts), k) && !Stale(Run(acts), k)
    ensures (forall more :: SweepFree(more) ==> Promise(Run(acts + [Sweep(cutoff)] + more), k))
       <==> !(Removes(Run(acts), Sweep(cutoff), k) && exists t :: Working(Run(acts), t, k))
  {
    PromiseHoldsIff(acts + [Sweep(cutoff)], k);
    RunAppend(acts, Sweep(cutoff));
    SweptState(Run(acts), cutoff, k);
  }

  // ---------------------------------------------------------------- a failed submit

  /** A key is stored without a cached acceptance, and no submit is working for it. */
  ghost predicate Orphaned(s: State, k: string) {
    && k in s.m && s.m[k].accepted.None? && AnnouncedFor(s, k) == {} && RunsFor(s, k) == []
    && forall t :: !Working(s, t, k)
  }

  lemma StepKeepsOrphaned(s: State, a: Action, k: string)
    requires Orphaned(s, k) && !Removes(s, a, k)
    ensures Orphaned(Step(s, a), k) && Step(s, a).m[k] == s.m[k]
  {
    forall t ensures !Working(Step(s, a), t, k) {
      OthersSame(s, a, t);
      assert !Working(s, t, k);
    }
    if !Concerns(s, a, k) {
      ElsewhereSame(s, a, k);
    } else {
      assert !Working(s, a.t, k);
    }
  }

  lemma FailureOrphans(s: State, t: nat, k: string)
    requires Inv(s) && Promise(s, k) && !Stale(s, k) && Working(s, t, k) && s.submits[t].pc.Owner?
    ensures Orphaned(Step(s, Fail(t)), k) && Step(s, Fail(t)).m == s.m
  {
    assert OwnSteps(s, t, k) && !StaleOn(s, t, k);
    NotYetRun(RunsFor(s, k), s.submits[t].job);
    if s.m[k].accepted.Some? {
      CachedIsOwn(s, k);
    }
    forall u ensures !Working(Step(s, Fail(t)), u, k) {
      OthersSame(s, Fail(t), u);
      assert u in s.submits ==> Apart(s, t, u);
      assert !StaleOn(s, u, k);
    }
  }

  /** A submit that fails after storing its entry leaves the key unusable: until the entry is
      swept, no submit under it starts a run or is accepted, however often it is retried. */
  lemma {:induction false} FailedSubmitBlocksKey(acts: seq<Action>, t: nat, k: string, more: seq<Action>)
    requires QuietRun(acts, k) && Working(Run(acts), t, k) && Run(acts).submits[t].pc.Owner? && k in Run(acts).m
    requires forall a <- more :: !Removes(Run(acts), a, k)
    ensures var s := Run(acts + [Fail(t)] + more); Orphaned(s, k) && s.m[k] == Run(acts).m[k]
    decreases |more|
  {
    if more == [] {
      QuietRunKeeps(acts, k);
      RunAppend(acts, Fail(t));
      FailureOrphans(Run(acts), t, k);
      assert acts + [Fail(t)] + more == acts + [Fail(t)];
    } else {
      var front, a := more[..|more| - 1], more[|more| - 1];
      assert a in more;
      FailedSubmitBlocksKey(acts, t, k, front);
      assert acts + [Fail(t)] + more == (acts + [Fail(t)] + front) + [a];
      RunAppend(acts + [Fail(t)] + front, a);
      StepKeepsOrphaned(Run(acts + [Fail(t)] + front), a, k);
    }
  }

  // ---------------------------------------------------------------- a swept owner

  /** A submit still owning a key whose entry has been swept. */
  ghost predicate Outlived(s: State, k: string) {
    && s.m == map[] && s.submits == map[1 := Submit("p", "k", "x", 1, Owner)] && s.jobs == {1}
    && AnnouncedFor(s, k) == {}
  }

  lemma SweepUnderOwner(k: string) returns (acts: seq<Action>)
    requires k == Key("p", "k")
    ensures Outlived(Run(acts), k)
  {
    RunAppend([], Begin(1, "p", "k", "x", 1));
    acts := [] + [Begin(1, "p", "k", "x", 1)];
    RunAppend(acts, Put(1, 0));
    acts := acts + [Put(1, 0)];
    assert Run(acts).m.Keys == {k} && Run(acts).m[k].createdAt == 0;
    RunAppend(acts, Sweep(5));
    acts := acts + [Sweep(5)];
  }

  /** Such states are reached: a submit that outlives its entry announces its own job under a
      key that by then names another. */
  lemma OutlivedEntryBreaksOnce() returns (acts: seq<Action>, k: string)
    ensures k in Run(acts).m && AnnouncedFor(Run(acts), k) == {1} && Run(acts).m[k].job == 2
  {
    k := Key("p", "k");
    acts := SweepUnderOwner(k);
    RunAppend(acts, Begin(2, "p", "k", "x", 2));
    acts := acts + [Begin(2, "p", "k", "x", 2)];
    RunAppend(acts, Put(2, 9));
    acts := acts + [Put(2, 9)];
    RunAppend(acts, Announce(1));
    acts := acts + [Announce(1)];
  }
}
