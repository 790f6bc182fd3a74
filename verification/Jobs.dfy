/**
  The terminal transition of a job (server/job.go). The agent's return, lease expiry, the
  max-runtime timer and discard race through markTerminal; the winner revokes the job's
  credentials and then sends the one terminal envelope.
 */
module Jobs {
  import opened Base

  datatype Status = Pending | Running | Success | Error | Cancelled | TimedOut

  datatype Credential = Credential(id: string, value: string)

  function Ids(creds: seq<Credential>): (ids: seq<string>)
    ensures |ids| == |creds|
  {
    seq(|creds|, i requires 0 <= i < |creds| => creds[i].id)
  }

  // ---------------------------------------------------------------- one job

  /** `revoked` says that revokeOnce has fired, `handed` lists the ids passed to the
      provisioner's Revoke. */
  datatype JobState = JobState(
    status: Status, terminal: bool, creds: seq<Credential>,
    revoked: bool, handed: seq<string>, provisioner: bool)

  function NewJob(provisioner: bool): JobState {
    JobState(Pending, false, [], false, [], provisioner)
  }

  function WithStatus(j: JobState, s: Status): JobState {
    if j.terminal then j else j.(status := s)
  }

  function Marked(j: JobState, final: Status): JobState {
    if j.terminal then j else j.(terminal := true, status := final)
  }

  function Attached(j: JobState, more: seq<Credential>): JobState {
    j.(creds := j.creds + more)
  }

  /** The value of the first credential with that id is swapped. */
  function Rotated(creds: seq<Credential>, id: string, value: string): seq<Credential> {
    if creds == [] then []
    else if creds[0].id == id then [Credential(id, value)] + creds[1..]
    else [creds[0]] + Rotated(creds[1..], id, value)
  }

  function Revoked(j: JobState): JobState {
    if !j.provisioner || j.revoked then j else j.(revoked := true, handed := j.handed + Ids(j.creds))
  }

  lemma {:induction false} RotationKeepsIds(creds: seq<Credential>, id: string, value: string)
    ensures Ids(Rotated(creds, id, value)) == Ids(creds)
  {
    if creds != [] && creds[0].id != id {
      var rest := Rotated(creds[1..], id, value);
      RotationKeepsIds(creds[1..], id, value);
      assert Ids(creds) == [creds[0].id] + Ids(creds[1..]);
      assert Ids([creds[0]] + rest) == [creds[0].id] + Ids(rest);
    } else if creds != [] {
      assert creds == [creds[0]] + creds[1..];
      assert Ids([Credential(id, value)] + creds[1..]) == [id] + Ids(creds[1..]);
    }
  }

  lemma {:induction false} RotatedAt(creds: seq<Credential>, id: string, value: string, i: nat)
    requires i < |creds| && creds[i].id == id && forall k :: 0 <= k < i ==> creds[k].id != id
    ensures Rotated(creds, id, value) == creds[i := Credential(id, value)]
  {
    if i > 0 {
      RotatedAt(creds[1..], id, value, i - 1);
      assert creds[i := Credential(id, value)] == [creds[0]] + creds[1..][i - 1 := Credential(id, value)];
    }
  }

  lemma {:induction false} RotatedNowhere(creds: seq<Credential>, id: string, value: string)
    requires id !in Ids(creds)
    ensures Rotated(creds, id, value) == creds
  {
    if creds != [] {
      assert creds[0].id == Ids(creds)[0];
      assert Ids(creds)[1..] == Ids(creds[1..]);
      RotatedNowhere(creds[1..], id, value);
    }
  }

  /** The Job struct; `mu` guards the status, `credsMu` the credentials. */
  class Job {
    var statusV: Status
    var terminal: bool
    var creds: seq<Credential>
    var revoked: bool
    var handed: seq<string>
    const provisioner: bool

    function View(): JobState
      reads this
    {
      JobState(statusV, terminal, creds, revoked, handed, provisioner)
    }

    constructor (provisioner: bool)
      ensures View() == NewJob(provisioner)
    {
      statusV, terminal, creds, revoked, handed := Pending, false, [], false, [];
      this.provisioner := provisioner;
    }

    method SetStatus(s: Status)
      modifies this`statusV
      ensures View() == WithStatus(old(View()), s)
      ensures statusV == if terminal then old(statusV) else s
    {
      if !terminal {
        statusV := s;
      }
    }

    method MarkTerminal(final: Status) returns (won: bool)
      modifies this`statusV, this`terminal
      ensures View() == Marked(old(View()), final)
      ensures terminal && won == !old(terminal) && statusV == if won then final else old(statusV)
    {
      if terminal {
        return false;
      }
      terminal, statusV := true, final;
      won := true;
    }

    method AttachCredentials(more: seq<Credential>)
      modifies this`creds
      ensures creds == old(creds) + more
      ensures View() == Attached(old(View()), more)
    {
      creds := creds + more;
    }

    method ReplaceCredentialValue(id: string, value: string) returns (prior: string, ok: bool)
      modifies this`creds
      ensures View() == old(View()).(creds := Rotated(old(creds), id, value))
      ensures ok <==> id in Ids(old(creds))
      ensures ok ==> exists i :: 0 <= i < |old(creds)| && old(creds)[i] == Credential(id, prior)
                                 && creds == old(creds)[i := Credential(id, value)]
      ensures !ok ==> creds == old(creds)
      ensures Ids(creds) == Ids(old(creds))
    {
      RotationKeepsIds(creds, id, value);
      for i := 0 to |creds|
        invariant creds == old(creds)
        invariant forall k :: 0 <= k < i ==> creds[k].id != id
      {
        if creds[i].id == id {
          prior := creds[i].value;
          RotatedAt(creds, id, value, i);
          assert Ids(creds)[i] == id && creds[i] == Credential(id, prior);
          creds := creds[i := Credential(id, value)];
          return prior, true;
        }
      }
      RotatedNowhere(creds, id, value);
      return "", false;
    }

    method RevokeAll()
      modifies this`revoked, this`handed
      ensures View() == Revoked(old(View()))
      ensures handed == if provisioner && !old(revoked) then old(handed) + Ids(creds) else old(handed)
    {
      if !provisioner || revoked {
        return;
      }
      revoked := true;
      for i := 0 to |creds|
        invariant revoked && handed == old(handed) + Ids(creds)[..i]
      {
        handed := handed + [creds[i].id];
      }
    }
  }

  // ---------------------------------------------------------------- the race

  datatype Outcome = WasCancelled | Failed | Streamed | Inline(marshals: bool)

  datatype Kind = AgentReturn(outcome: Outcome) | LeaseExpiry | Timeout | Discard

  datatype Envelope = JobResult | JobError(final: Status)

  /** The status markTerminal stores. */
  function FinalStatus(k: Kind): Status {
    match k
    case AgentReturn(WasCancelled) => Cancelled
    case AgentReturn(Failed) => Error
    case AgentReturn(_) => Success
    case LeaseExpiry => Error
    case Timeout => TimedOut
    case Discard => Error
  }

  /** The terminal envelope; a result that does not marshal stores success but reports an
      error, and a discarded job reports nothing. */
  function Wire(k: Kind): seq<Envelope> {
    match k
    case AgentReturn(WasCancelled) => [JobError(Cancelled)]
    case AgentReturn(Failed) => [JobError(Error)]
    case AgentReturn(Streamed) => [JobResult]
    case AgentReturn(Inline(marshals)) => if marshals then [JobResult] else [JobError(Error)]
    case LeaseExpiry => [JobError(Error)]
    case Timeout => [JobError(TimedOut)]
    case Discard => []
  }

  /** A finisher that won is about to revoke, then about to send, then finished. */
  datatype Finisher = Won(kind: Kind) | Revoking(kind: Kind) | Finished | Lost

  datatype Winner = Winner(f: nat, kind: Kind)

  /** `winner` and `atMark` record the winning transition and the credential ids attached
      before it, `late` the ids attached after the revocation. */
  datatype Race = Race(
    job: JobState, sent: seq<Envelope>, finishers: map<nat, Finisher>,
    winner: Option<Winner>, atMark: seq<string>, late: seq<string>)

  function Start(provisioner: bool): Race {
    Race(NewJob(provisioner), [], map[], None, [], [])
  }

  datatype Action =
    | SetRunning
    | Attach(more: seq<Credential>)
    | Rotate(id: string, value: string)
    | Mark(f: nat, kind: Kind)
    | Revoke(f: nat)
    | Emit(f: nat)

  function Step(r: Race, a: Action): Race {
    match a
    case SetRunning => r.(job := WithStatus(r.job, Running))
    case Attach(more) =>
      r.(job := Attached(r.job, more), late := if r.job.revoked then r.late + Ids(more) else r.late)
    case Rotate(id, value) => r.(job := r.job.(creds := Rotated(r.job.creds, id, value)))
    case Mark(f, kind) =>
      if f in r.finishers then r
      else if r.job.terminal then r.(finishers := r.finishers[f := Lost])
      else
        r.(job := Marked(r.job, FinalStatus(kind)), winner := Some(Winner(f, kind)), atMark := Ids(r.job.creds),
           finishers := r.finishers[f := if kind.Discard? then Finished else Won(kind)])
    case Revoke(f) =>
      if f !in r.finishers || !r.finishers[f].Won? then r
      else r.(job := Revoked(r.job), finishers := r.finishers[f := Revoking(r.finishers[f].kind)])
    case Emit(f) =>
      if f !in r.finishers || !r.finishers[f].Revoking? then r
      else r.(sent := r.sent + Wire(r.finishers[f].kind), finishers := r.finishers[f := Finished])
  }

  function Run(provisioner: bool, acts: seq<Action>): Race {
    if acts == [] then Start(provisioner) else Step(Run(provisioner, acts[..|acts| - 1]), acts[|acts| - 1])
  }

  /** How far the winning finisher has come. */
  function Stage(r: Race): Option<Finisher> {
    if r.winner.Some? && r.winner.value.f in r.finishers then Some(r.finishers[r.winner.value.f]) else None
  }

  predicate Complete(r: Race) {
    Stage(r) == Some(Finished)
  }

  predicate Discarded(r: Race) {
    r.winner.Some? && r.winner.value.kind.Discard?
  }

  ghost predicate StageInv(r: Race) {
    && r.job.terminal == r.winner.Some? == Stage(r).Some?
    && (forall f :: f in r.finishers && (r.finishers[f].Won? || r.finishers[f].Revoking?) ==>
          r.winner == Some(Winner(f, r.finishers[f].kind)))
    && (r.winner.Some? ==> !Stage(r).value.Lost? && r.job.status == FinalStatus(r.winner.value.kind))
    && (Discarded(r) ==> Complete(r))
  }

  ghost predicate EffectInv(r: Race) {
    && (r.sent == if Complete(r) then Wire(r.winner.value.kind) else [])
    && (r.job.revoked <==> r.job.provisioner && Stage(r).Some? && !Discarded(r) && !Stage(r).value.Won?)
    && (r.winner.Some? ==> r.atMark <= Ids(r.job.creds))
  }

  /** Everything attached has been handed over, or came too late. */
  ghost predicate HandedInv(r: Race) {
    && (!r.job.revoked ==> r.job.handed == [] && r.late == [])
    && (r.job.revoked ==> Ids(r.job.creds) == r.job.handed + r.late && r.atMark <= r.job.handed)
  }

  ghost predicate Inv(r: Race) {
    StageInv(r) && EffectInv(r) && HandedInv(r)
  }

  lemma StepKeepsInv(r: Race, a: Action)
    requires Inv(r)
    ensures Inv(Step(r, a)) && Step(r, a).job.provisioner == r.job.provisioner
  {
    StepKeepsStage(r, a);
    StepKeepsEffects(r, a);
    StepKeepsHanded(r, a);
  }

  lemma AttachExtends(creds: seq<Credential>, more: seq<Credential>)
    ensures Ids(creds + more) == Ids(creds) + Ids(more)
  {
  }

  lemma StepKeepsStage(r: Race, a: Action)
    requires StageInv(r)
    ensures StageInv(Step(r, a))
  {
  }

  lemma StepKeepsEffects(r: Race, a: Action)
    requires StageInv(r) && EffectInv(r)
    ensures EffectInv(Step(r, a))
  {
    match a {
      case Attach(more) => AttachExtends(r.job.creds, more);
      case Rotate(id, value) => RotationKeepsIds(r.job.creds, id, value);
      case _ =>
    }
  }

  lemma StepKeepsHanded(r: Race, a: Action)
    requires StageInv(r) && EffectInv(r) && HandedInv(r)
    ensures HandedInv(Step(r, a))
  {
    match a {
      case Attach(more) =>
        AttachExtends(r.job.creds, more);
        assert (r.job.handed + r.late) + Ids(more) == r.job.handed + (r.late + Ids(more));
      case Rotate(id, value) => RotationKeepsIds(r.job.creds, id, value);
      case Revoke(f) => assert [] + Ids(r.job.creds) == Ids(r.job.creds) + [];
      case _ =>
    }
  }

  lemma {:induction false} RunKeepsInv(provisioner: bool, acts: seq<Action>)
    ensures Inv(Run(provisioner, acts)) && Run(provisioner, acts).job.provisioner == provisioner
  {
    if acts != [] {
      RunKeepsInv(provisioner, acts[..|acts| - 1]);
      StepKeepsInv(Run(provisioner, acts[..|acts| - 1]), acts[|acts| - 1]);
    }
  }

  /** Under any race at most one terminal envelope is sent; it is the winner's, and it has
      been sent once the winner is through, unless the winner was a discard. */
  lemma AtMostOneTerminal(provisioner: bool, acts: seq<Action>)
    ensures |Run(provisioner, acts).sent| <= 1
    ensures Complete(Run(provisioner, acts)) ==>
              Run(provisioner, acts).sent == Wire(Run(provisioner, acts).winner.value.kind)
    ensures !Complete(Run(provisioner, acts)) ==> Run(provisioner, acts).sent == []
  {
    RunKeepsInv(provisioner, acts);
  }

  predicate Succeeds(k: Kind) {
    k.AgentReturn? && (k.outcome.Streamed? || k.outcome.Inline?)
  }

  /** What the winner stores and sends: job.result for a success that can be marshalled, nothing
      for a discard, and job.error otherwise. The two agree on the status unless a success
      cannot be marshalled. */
  lemma WinnerDecides(provisioner: bool, acts: seq<Action>)
    requires Complete(Run(provisioner, acts))
    ensures var r := Run(provisioner, acts);
            var kind := r.winner.value.kind;
            && (r.job.status == Success <==> Succeeds(kind))
            && (r.job.status == Cancelled <==> kind == AgentReturn(WasCancelled))
            && (r.job.status == TimedOut <==> kind.Timeout?)
            && (r.job.status == Error <==> kind == AgentReturn(Failed) || kind.LeaseExpiry? || kind.Discard?)
            && (r.sent == [] <==> kind.Discard?)
            && (r.sent == [JobResult] <==> Succeeds(kind) && kind != AgentReturn(Inline(false)))
            && (!kind.Discard? && r.sent != [JobResult] ==>
                  exists final :: r.sent == [JobError(final)] && final !in {Pending, Running, Success}
                                  && (final == r.job.status <==> kind != AgentReturn(Inline(false))))
  {
    RunKeepsInv(provisioner, acts);
    var r := Run(provisioner, acts);
    if !r.winner.value.kind.Discard? && r.sent != [JobResult] {
      assert r.sent[0].JobError? && r.sent == [JobError(r.sent[0].final)];
    }
  }

  /** Whoever marks first wins, and the job has ended as soon as anyone has marked. */
  lemma FirstMarkWins(provisioner: bool, acts: seq<Action>, i: nat)
    requires i < |acts| && acts[i].Mark? && forall k :: 0 <= k < i ==> !acts[k].Mark?
    ensures Run(provisioner, acts).winner == Some(Winner(acts[i].f, acts[i].kind))
  {
    NobodyYet(provisioner, acts[..i]);
    assert acts[..i + 1] == acts[..i] + [acts[i]] && acts == acts[..i + 1] + acts[i + 1..];
    RunAppend(provisioner, acts[..i], acts[i]);
    StatusFrozen(provisioner, acts[..i + 1], acts[i + 1..]);
  }

  lemma {:induction false} NobodyYet(provisioner: bool, acts: seq<Action>)
    requires forall k :: 0 <= k < |acts| ==> !acts[k].Mark?
    ensures Run(provisioner, acts).winner.None? && Run(provisioner, acts).finishers == map[]
    ensures !Run(provisioner, acts).job.terminal
    ensures Run(provisioner, acts).job.status == if SetRunning in acts then Running else Pending
  {
    if acts != [] {
      var front := acts[..|acts| - 1];
      NobodyYet(provisioner, front);
      assert acts == front + [acts[|acts| - 1]];
    }
  }

  /** What the winner still has to do. */
  function Ending(f: nat): seq<Action> {
    [Revoke(f), Emit(f)]
  }

  predicate EndingAt(r: Race, f: nat, n: nat) {
    && f in r.finishers && !r.finishers[f].Lost?
    && (n >= 1 ==> !r.finishers[f].Won?) && (n >= 2 ==> r.finishers[f].Finished?)
  }

  lemma StepKeepsEnding(r: Race, a: Action, f: nat, n: nat)
    requires EndingAt(r, f, n)
    ensures EndingAt(Step(r, a), f, n) && (n < 2 && a == Ending(f)[n] ==> EndingAt(Step(r, a), f, n + 1))
  {
  }

  lemma {:induction false} EndingGoesOn(provisioner: bool, acts: seq<Action>, more: seq<Action>, f: nat)
    requires EndingAt(Run(provisioner, acts), f, 0)
    ensures EndingAt(Run(provisioner, acts + more), f, Matched(more, Ending(f)))
  {
    if more == [] {
      assert acts + more == acts;
    } else {
      var front, a := more[..|more| - 1], more[|more| - 1];
      EndingGoesOn(provisioner, acts, front, f);
      assert acts + more == (acts + front) + [a];
      RunAppend(provisioner, acts + front, a);
      StepKeepsEnding(Run(provisioner, acts + front), a, f, Matched(front, Ending(f)));
    }
  }

  /** Once somebody has won, every run that gives the winner its turns sends the envelope. */
  lemma EveryWinnerSends(provisioner: bool, acts: seq<Action>, more: seq<Action>)
    requires Run(provisioner, acts).winner.Some?
    requires Contains(more, Ending(Run(provisioner, acts).winner.value.f))
    ensures Complete(Run(provisioner, acts + more))
  {
    RunKeepsInv(provisioner, acts);
    EndingGoesOn(provisioner, acts, more, Run(provisioner, acts).winner.value.f);
    StatusFrozen(provisioner, acts, more);
  }

  predicate WonBy(r: Race, w: Winner) {
    r.winner == Some(w) && r.job.status == FinalStatus(w.kind)
  }

  lemma WinnerStays(r: Race, a: Action, w: Winner)
    requires Inv(r) && WonBy(r, w)
    ensures WonBy(Step(r, a), w)
  {
    StepKeepsInv(r, a);
  }

  lemma {:induction false} RunAppend(provisioner: bool, acts: seq<Action>, a: Action)
    ensures Run(provisioner, acts + [a]) == Step(Run(provisioner, acts), a)
  {
    assert (acts + [a])[..|acts|] == acts;
  }

  /** The stored status is frozen by the winning transition: whatever happens after, it is
      the one that transition chose. */
  lemma {:induction false} StatusFrozen(provisioner: bool, acts: seq<Action>, more: seq<Action>)
    requires Run(provisioner, acts).winner.Some?
    ensures WonBy(Run(provisioner, acts + more), Run(provisioner, acts).winner.value)
  {
    if more == [] {
      assert acts + more == acts;
      RunKeepsInv(provisioner, acts);
    } else {
      var front, a := more[..|more| - 1], more[|more| - 1];
      StatusFrozen(provisioner, acts, front);
      assert acts + more == (acts + front) + [a];
      RunAppend(provisioner, acts + front, a);
      RunKeepsInv(provisioner, acts + front);
      WinnerStays(Run(provisioner, acts + front), a, Run(provisioner, acts).winner.value);
    }
  }

  // ---------------------------------------------------------------- revocation

  /** Before the terminal envelope is sent, every credential attached before the winning
      transition has been handed to revocation, in order and once per attachment. */
  lemma RevokedBeforeNotified(acts: seq<Action>)
    requires Run(true, acts).sent != []
    ensures Run(true, acts).atMark <= Run(true, acts).job.handed <= Ids(Run(true, acts).job.creds)
  {
    RunKeepsInv(true, acts);
  }

  /** Nothing is handed over any more. */
  predicate Over(r: Race) {
    r.winner.Some? && (r.job.revoked || Discarded(r))
  }

  lemma StepKeepsOver(r: Race, a: Action)
    requires StageInv(r) && Over(r)
    ensures Over(Step(r, a)) && Step(r, a).job.handed == r.job.handed
  {
  }

  /** Revocation is over once the winner has revoked or was a discard: from then on nothing
      more is ever handed over. */
  lemma {:induction false} RevocationIsFinal(provisioner: bool, acts: seq<Action>, more: seq<Action>)
    requires Over(Run(provisioner, acts))
    ensures Over(Run(provisioner, acts + more))
    ensures Run(provisioner, acts + more).job.handed == Run(provisioner, acts).job.handed
  {
    if more == [] {
      assert acts + more == acts;
    } else {
      var front, a := more[..|more| - 1], more[|more| - 1];
      RevocationIsFinal(provisioner, acts, front);
      assert acts + more == (acts + front) + [a];
      RunAppend(provisioner, acts + front, a);
      RunKeepsInv(provisioner, acts + front);
      StepKeepsOver(Run(provisioner, acts + front), a);
    }
  }

  /** What is handed over is exactly what is attached when the winner revokes, also what came
      after the transition: `more` may do what it likes. */
  lemma HandedAtRevocation(acts: seq<Action>, f: nat, more: seq<Action>)
    requires f in Run(true, acts).finishers && Run(true, acts).finishers[f].Won?
    ensures Run(true, acts + [Revoke(f)] + more).job.handed == Ids(Run(true, acts).job.creds) == AttachedBy(acts)
  {
    CredsAreAttached(true, acts);
    RunKeepsInv(true, acts);
    RunAppend(true, acts, Revoke(f));
    RevocationIsFinal(true, acts + [Revoke(f)], more);
    assert [] + Ids(Run(true, acts).job.creds) == Ids(Run(true, acts).job.creds);
  }

  /** The ids of everything a run attaches, in order. */
  function AttachedBy(acts: seq<Action>): seq<string> {
    if acts == [] then []
    else AttachedBy(acts[..|acts| - 1]) + if acts[|acts| - 1].Attach? then Ids(acts[|acts| - 1].more) else []
  }

  /** A job carries what was attached to it, rotated or not. */
  lemma {:induction false} CredsAreAttached(provisioner: bool, acts: seq<Action>)
    ensures Ids(Run(provisioner, acts).job.creds) == AttachedBy(acts)
  {
    if acts != [] {
      var front, a := acts[..|acts| - 1], acts[|acts| - 1];
      CredsAreAttached(provisioner, front);
      StepAttaches(Run(provisioner, front), a);
    }
  }

  lemma StepAttaches(r: Race, a: Action)
    ensures Ids(Step(r, a).job.creds) == Ids(r.job.creds) + if a.Attach? then Ids(a.more) else []
  {
    match a {
      case Attach(more) => AttachExtends(r.job.creds, more);
      case Rotate(id, value) => RotationKeepsIds(r.job.creds, id, value);
      case _ =>
    }
  }

  /** Once the winner is through, every attached credential has been handed over iff there is
      none, or the winner was no discard and nothing was attached after it revoked. */
  lemma AllRevokedIff(acts: seq<Action>)
    requires Complete(Run(true, acts))
    ensures var r := Run(true, acts);
            r.job.handed == Ids(r.job.creds) <==> r.job.creds == [] || (!Discarded(r) && r.late == [])
  {
    RunKeepsInv(true, acts);
    var r := Run(true, acts);
    if r.job.revoked {
      assert |r.job.handed + r.late| == |r.job.handed| + |r.late|;
    }
  }
}
