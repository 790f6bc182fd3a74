/**
  The runtime state of one lease (internal/lease/validate.go) and the remaining-budget
  metric derived from it (server/jobcontext.go). Amounts are exact reals.
 */
module Budget {
  import opened Base
  import opened Leases

  type Counters = map<string, real>

  function BalanceOf(counters: Counters, currency: string): real {
    if currency in counters then counters[currency] else 0.0
  }

  /** The counters NewState starts from: entries of one currency add up, malformed ones
      are skipped. */
  function Initial(patterns: seq<string>, decimal: Decimal): Counters {
    if patterns == [] then map[]
    else
      var before := Initial(patterns[..|patterns| - 1], decimal);
      match ParseBudgetAmount(patterns[|patterns| - 1], decimal)
      case None => before
      case Some(a) => Added(before, a)
  }

  function Added(sums: Counters, a: BudgetAmount): Counters {
    sums[a.currency := BalanceOf(sums, a.currency) + a.value]
  }

  lemma {:induction false} InitialNext(patterns: seq<string>, i: nat, decimal: Decimal)
    requires i < |patterns|
    ensures Initial(patterns[..i + 1], decimal)
         == match ParseBudgetAmount(patterns[i], decimal)
            case None => Initial(patterns[..i], decimal)
            case Some(a) => Added(Initial(patterns[..i], decimal), a)
  {
    assert patterns[..i + 1][..i] == patterns[..i];
  }

  /** The starting counter of a currency is the total of its entries, and there is one for
      exactly the currencies listed. */
  lemma {:induction false} InitialIsTotal(patterns: seq<string>, decimal: Decimal, c: string)
    ensures c in Initial(patterns, decimal) <==> c in Currencies(Entries(patterns, decimal))
    ensures BalanceOf(Initial(patterns, decimal), c) == TotalOf(Entries(patterns, decimal), c)
    ensures BalanceOf(Initial(patterns, decimal), c) >= 0.0
  {
    if patterns != [] {
      var front := patterns[..|patterns| - 1];
      InitialIsTotal(front, decimal, c);
      var before := Entries(front, decimal);
      var a := ParseBudgetAmount(patterns[|patterns| - 1], decimal);
      if a.Some? {
        assert (before + [a.value])[..|before|] == before;
        assert Currencies(before + [a.value]) == Currencies(before) + [a.value.currency];
      }
    }
  }

  /** An entry adds its value to its own currency and touches no other; a malformed one changes
      nothing. */
  lemma EntryAdds(patterns: seq<string>, pat: string, decimal: Decimal, c: string)
    ensures Initial([], decimal) == map[]
    ensures var before := Initial(patterns, decimal);
            var after := Initial(patterns + [pat], decimal);
            match ParseBudgetAmount(pat, decimal)
            case None => after == before
            case Some(a) =>
              && BalanceOf(after, c) == BalanceOf(before, c) + (if a.currency == c then a.value else 0.0)
              && (c in after <==> c in before || c == a.currency)
  {
    assert (patterns + [pat])[..|patterns|] == patterns;
  }

  /** The summing loop of NewState. */
  method SumEntries(patterns: seq<string>, decimal: Decimal) returns (sums: Counters)
    ensures sums == Initial(patterns, decimal)
  {
    sums := map[];
    for i := 0 to |patterns|
      invariant sums == Initial(patterns[..i], decimal)
    {
      InitialNext(patterns, i, decimal);
      var a := ParseBudgetAmount(patterns[i], decimal);
      if a.Some? {
        sums := Added(sums, a.value);
      }
    }
    assert patterns[..|patterns|] == patterns;
  }

  // ---------------------------------------------------------------- one operation

  datatype Refusal = LeaseExpired | PermissionDenied | InvalidRequest | BudgetExhausted

  /** What never changes during a job. */
  datatype Grant = Grant(lease: Lease, expiresAt: Option<int>, canon: (string, string) -> string, initial: Counters)

  datatype Op =
    | Validate(now: int, capability: string, target: string)
    | Reserve(now: int, capability: string, target: string, currency: string, amount: real)
    | Debit(currency: string, amount: real)
    | Report(currency: string, amount: real)

  datatype Effect = Effect(counters: Counters, balance: real, refusal: Option<Refusal>)

  ghost predicate AnyExhausted(counters: Counters) {
    exists c <- counters :: counters[c] <= 0.0
  }

  /** The checks shared by ValidateOp and ValidateAndDebit, in their order. */
  ghost function Admission(g: Grant, counters: Counters, now: int, capability: string, target: string): Option<Refusal>
  {
    if g.expiresAt.Some? && g.expiresAt.value <= now then Some(LeaseExpired)
    else if !Grants(g.lease, g.canon, capability, target) then Some(PermissionDenied)
    else if AnyExhausted(counters) then Some(BudgetExhausted)
    else None
  }

  ghost function Exec(g: Grant, counters: Counters, op: Op): Effect {
    match op
    case Validate(now, capability, target) =>
      Effect(counters, 0.0, Admission(g, counters, now, capability, target))
    case Reserve(now, capability, target, currency, amount) =>
      if amount < 0.0 then Effect(counters, 0.0, Some(InvalidRequest))
      else
        var refusal := Admission(g, counters, now, capability, target);
        if refusal.Some? then Effect(counters, 0.0, refusal)
        else if amount == 0.0 || currency == "" then Effect(counters, BalanceOf(counters, currency), None)
        else Withdraw(g, counters, currency, amount)
    case Debit(currency, amount) =>
      if amount < 0.0 then Effect(counters, 0.0, Some(InvalidRequest))
      else Withdraw(g, counters, currency, amount)
    case Report(currency, amount) =>
      if amount < 0.0 || currency !in g.initial then Effect(counters, 0.0, None)
      else
        var left := BalanceOf(counters, currency) - amount;
        Effect(counters[currency := left], left, None)
  }

  /** Debits of an unbudgeted currency are no-ops; a budgeted one never crosses zero. */
  ghost function Withdraw(g: Grant, counters: Counters, currency: string, amount: real): Effect {
    var balance := BalanceOf(counters, currency);
    if currency !in g.initial then Effect(counters, 0.0, None)
    else if balance - amount < 0.0 then Effect(counters, balance, Some(BudgetExhausted))
    else Effect(counters[currency := balance - amount], balance - amount, None)
  }

  /** lease.State. Each method body runs under one mutex, so an execution of any number of
      goroutines is a sequence of these calls. */
  class State {
    const lease: Lease
    const expiresAt: Option<int>
    const canon: (string, string) -> string
    const initialized: Counters
    var counters: Counters

    ghost function TheGrant(): Grant {
      Grant(lease, expiresAt, canon, initialized)
    }

    ghost predicate Valid()
      reads this
    {
      counters.Keys == initialized.Keys
    }

    constructor (lease: Lease, expiresAt: Option<int>, canon: (string, string) -> string, decimal: Decimal)
      ensures Valid() && counters == initialized
      ensures TheGrant() == Grant(lease, expiresAt, canon,
                                  Initial(if COST_BUDGET in lease then lease[COST_BUDGET] else [], decimal))
    {
      var sums := SumEntries(if COST_BUDGET in lease then lease[COST_BUDGET] else [], decimal);
      this.lease, this.expiresAt, this.canon := lease, expiresAt, canon;
      initialized, counters := sums, sums;
    }

    method Matches(capability: string, target: string) returns (granted: bool)
      ensures granted <==> Grants(lease, canon, capability, target)
      ensures granted <==>
                capability in lease && exists p <- lease[capability] :: Glob.Match(p, canon(capability, target))
    {
      if capability !in lease {
        return false;
      }
      var patterns := lease[capability];
      var t := canon(capability, target);
      for i := 0 to |patterns|
        invariant forall k :: 0 <= k < i ==> !Glob.Match(patterns[k], t)
      {
        granted := Glob.MatchSegmentsSearch(Glob.SplitSep(patterns[i]), Glob.SplitSep(t));
        if granted {
          assert Glob.Match(patterns[i], t);
          return;
        }
      }
      granted := false;
    }

    method SomeExhausted() returns (exhausted: bool)
      ensures exhausted <==> AnyExhausted(counters)
    {
      var todo := counters.Keys;
      while todo != {}
        invariant todo <= counters.Keys
        invariant forall c <- counters :: c !in todo ==> counters[c] > 0.0
      {
        var c :| c in todo;
        if counters[c] <= 0.0 {
          return true;
        }
        todo := todo - {c};
      }
      exhausted := false;
    }

    /** Admits an operation iff the lease has not expired, grants it, and has something left of
        every currency; the first test to fail is the refusal. */
    method ValidateOp(now: int, capability: string, target: string) returns (refusal: Option<Refusal>)
      ensures refusal.None? <==>
                && (expiresAt.None? || now < expiresAt.value)
                && Grants(lease, canon, capability, target) && forall c <- counters :: counters[c] > 0.0
      ensures refusal == Some(LeaseExpired) <==> expiresAt.Some? && expiresAt.value <= now
      ensures refusal == Some(PermissionDenied) <==>
                (expiresAt.None? || now < expiresAt.value) && !Grants(lease, canon, capability, target)
      ensures refusal != Some(InvalidRequest)
      ensures Effect(counters, 0.0, refusal) == Exec(TheGrant(), counters, Validate(now, capability, target))
    {
      if expiresAt.Some? && !(now < expiresAt.value) {
        return Some(LeaseExpired);
      }
      var granted := Matches(capability, target);
      if !granted {
        return Some(PermissionDenied);
      }
      var exhausted := SomeExhausted();
      refusal := if exhausted then Some(BudgetExhausted) else None;
    }

    /** Admits iff ValidateOp would and the amount is there, and then takes it; `debits` says
        that there is anything to take. */
    method ValidateAndDebit(now: int, capability: string, target: string, currency: string, amount: real)
      returns (balance: real, refusal: Option<Refusal>)
      requires Valid()
      modifies this
      ensures Valid()
      ensures var debits := amount > 0.0 && currency != "" && currency in initialized;
              && (refusal.None? <==>
                    && amount >= 0.0 && (expiresAt.None? || now < expiresAt.value)
                    && Grants(lease, canon, capability, target) && (forall c <- old(counters) :: old(counters)[c] > 0.0)
                    && (debits ==> old(counters)[currency] >= amount))
              && counters == (if refusal.None? && debits
                              then old(counters)[currency := old(counters)[currency] - amount] else old(counters))
              && (debits && refusal.None? ==> balance == counters[currency])
      ensures refusal == Some(InvalidRequest) <==> amount < 0.0
      ensures refusal == Some(LeaseExpired) <==> amount >= 0.0 && expiresAt.Some? && expiresAt.value <= now
      ensures refusal == Some(PermissionDenied) <==>
                && amount >= 0.0 && (expiresAt.None? || now < expiresAt.value)
                && !Grants(lease, canon, capability, target)
      ensures Effect(counters, balance, refusal)
           == Exec(TheGrant(), old(counters), Reserve(now, capability, target, currency, amount))
    {
      if amount < 0.0 {
        return 0.0, Some(InvalidRequest);
      }
      refusal := ValidateOp(now, capability, target);
      if refusal.Some? {
        return 0.0, refusal;
      }
      if amount == 0.0 || currency == "" {
        return BalanceOf(counters, currency), None;
      }
      balance, refusal := DebitCounter(currency, amount);
    }

    /** Refuses a negative amount and one that is not there. */
    method DebitCounter(currency: string, amount: real) returns (balance: real, refusal: Option<Refusal>)
      requires Valid()
      modifies this
      ensures Valid()
      ensures refusal.None? <==> amount >= 0.0 && (currency in initialized ==> old(counters)[currency] >= amount)
      ensures refusal == Some(InvalidRequest) <==> amount < 0.0
      ensures counters == if refusal.None? && currency in initialized
                          then old(counters)[currency := old(counters)[currency] - amount] else old(counters)
      ensures balance == if amount >= 0.0 && currency in initialized then counters[currency] else 0.0
      ensures Effect(counters, balance, refusal) == Exec(TheGrant(), old(counters), Debit(currency, amount))
    {
      if amount < 0.0 {
        return 0.0, Some(InvalidRequest);
      }
      if currency !in initialized {
        return 0.0, None;
      }
      if counters[currency] - amount < 0.0 {
        return counters[currency], Some(BudgetExhausted);
      }
      counters := counters[currency := counters[currency] - amount];
      return counters[currency], None;
    }

    /** Takes a cost already incurred, also past zero. */
    method ReportCost(currency: string, amount: real) returns (remaining: real, budgeted: bool)
      requires Valid()
      modifies this
      ensures Valid()
      ensures budgeted <==> amount >= 0.0 && currency in initialized
      ensures counters == if budgeted
                          then old(counters)[currency := old(counters)[currency] - amount] else old(counters)
      ensures budgeted ==> remaining == counters[currency]
      ensures Effect(counters, remaining, None) == Exec(TheGrant(), old(counters), Report(currency, amount))
    {
      if amount < 0.0 || currency !in initialized {
        return 0.0, false;
      }
      counters := counters[currency := counters[currency] - amount];
      return counters[currency], true;
    }
  }

  // ---------------------------------------------------------------- whole histories

  ghost function After(g: Grant, ops: seq<Op>): Counters {
    if ops == [] then g.initial
    else Exec(g, After(g, ops[..|ops| - 1]), ops[|ops| - 1]).counters
  }

  /** The amount of `c` a caller was allowed to spend by `op`, judged by its result. */
  ghost function Granted(g: Grant, counters: Counters, op: Op, c: string): real {
    var debits := (op.Debit? && op.currency == c) || (op.Reserve? && op.currency == c && c != "");
    if debits && Exec(g, counters, op).refusal.None? then op.amount else 0.0
  }

  ghost function Spent(g: Grant, ops: seq<Op>, c: string): real {
    if ops == [] then 0.0
    else
      var front := ops[..|ops| - 1];
      Spent(g, front, c) + Granted(g, After(g, front), ops[|ops| - 1], c)
  }

  ghost function Reported(ops: seq<Op>, c: string): real {
    if ops == [] then 0.0
    else
      var op := ops[|ops| - 1];
      Reported(ops[..|ops| - 1], c) + if op.Report? && op.currency == c && op.amount >= 0.0 then op.amount else 0.0
  }

  /** Conservation: what is left is the initial budget minus every granted debit and every
      reported cost, and a counter exists for exactly the budgeted currencies. */
  lemma {:induction false} Conservation(g: Grant, ops: seq<Op>, c: string)
    ensures After(g, ops).Keys == g.initial.Keys
    ensures c in g.initial ==> After(g, ops)[c] == g.initial[c] - Spent(g, ops, c) - Reported(ops, c)
  {
    if ops != [] {
      Conservation(g, ops[..|ops| - 1], c);
    }
  }

  /** Counters never rise. */
  lemma {:induction false} NeverRises(g: Grant, ops: seq<Op>, n: nat, c: string)
    requires n <= |ops| && c in g.initial
    ensures After(g, ops).Keys == After(g, ops[..n]).Keys == g.initial.Keys
    ensures After(g, ops)[c] <= After(g, ops[..n])[c]
  {
    Conservation(g, ops, c);
    Conservation(g, ops[..n], c);
    if n == |ops| {
      assert ops[..n] == ops;
    } else {
      var front := ops[..|ops| - 1];
      assert front[..n] == ops[..n];
      NeverRises(g, front, n, c);
    }
  }

  lemma {:induction false} NothingReported(ops: seq<Op>, c: string)
    requires forall op <- ops :: !op.Report?
    ensures Reported(ops, c) == 0.0
  {
    if ops != [] {
      NothingReported(ops[..|ops| - 1], c);
    }
  }

  /** Without reported costs the grants of a currency never exceed its budget. */
  lemma {:induction false} GrantsWithinBudget(g: Grant, ops: seq<Op>, c: string)
    requires c in g.initial && g.initial[c] >= 0.0
    requires forall op <- ops :: !op.Report?
    ensures 0.0 <= Spent(g, ops, c) <= g.initial[c]
    ensures c in After(g, ops) && After(g, ops)[c] >= 0.0
  {
    Conservation(g, ops, c);
    NothingReported(ops, c);
    if ops != [] {
      GrantsWithinBudget(g, ops[..|ops| - 1], c);
    }
  }

  /** Section 9.6: once any counter is used up, every later validation is refused. */
  lemma ExhaustionIsFinal(g: Grant, ops: seq<Op>, n: nat, c: string, op: Op)
    requires n <= |ops| && c in g.initial
    requires BalanceOf(After(g, ops[..n]), c) <= 0.0
    requires op.Validate? || op.Reserve?
    ensures Exec(g, After(g, ops), op).refusal.Some? && Exec(g, After(g, ops), op).counters == After(g, ops)
  {
    NeverRises(g, ops, n, c);
    assert c in After(g, ops) && After(g, ops)[c] <= 0.0;
  }

  /** What is admitted under the last lease of a delegation chain, at any point of any history,
      the first lease grants. */
  lemma AdmittedWithinChain(leases: seq<Lease>, links: seq<Link>, decimal: Decimal, g: Grant, ops: seq<Op>, op: Op)
    requires Chain(leases, links, decimal) && g.lease == leases[|leases| - 1]
    requires (op.Validate? || op.Reserve?) && op.capability != COST_BUDGET
    requires Exec(g, After(g, ops), op).refusal.None?
    ensures Grants(leases[0], g.canon, op.capability, op.target)
  {
    ChainNeverWidens(leases, links, decimal, g.canon, op.capability, op.target);
  }

  // ---------------------------------------------------------------- the remaining metric

  datatype Remaining = Remaining(currency: string, balance: real)

  datatype Meter = Meter(counters: Counters, last: Counters, emitted: seq<Remaining>)

  datatype Act = Metric(name: string, value: real, unit: string) | Other(op: Op)

  predicate IsCost(a: Act) {
    a.Metric? && "cost." <= a.name && a.unit != "" && a.value >= 0.0
  }

  function Abs(x: real): real {
    if x < 0.0 then -x else x
  }

  predicate ShouldEmit(initial: real, last: Counters, currency: string, remaining: real) {
    || currency !in last
    || initial == 0.0
    || Abs(last[currency] - remaining) / initial >= 0.05
    || remaining <= 0.0
  }

  ghost function Step(g: Grant, m: Meter, a: Act): Meter {
    if a.Other? then
      m.(counters := Exec(g, m.counters, a.op).counters)
    else if !IsCost(a) || a.unit !in g.initial then
      m
    else
      var e := Exec(g, m.counters, Report(a.unit, a.value));
      var m' := m.(counters := e.counters);
      if ShouldEmit(g.initial[a.unit], m.last, a.unit, e.balance) then
        m'.(last := m.last[a.unit := e.balance], emitted := m.emitted + [Remaining(a.unit, e.balance)])
      else m'
  }

  ghost function Run(g: Grant, acts: seq<Act>): Meter {
    if acts == [] then Meter(g.initial, map[], [])
    else Step(g, Run(g, acts[..|acts| - 1]), acts[|acts| - 1])
  }

  function OpOf(a: Act): Option<Op> {
    if a.Other? then Some(a.op) else if IsCost(a) then Some(Report(a.unit, a.value)) else None
  }

  /** The lease operations of a run: each cost metric is a report. */
  function OpsOf(acts: seq<Act>): seq<Op> {
    if acts == [] then []
    else
      var ops, op := OpsOf(acts[..|acts| - 1]), OpOf(acts[|acts| - 1]);
      if op.Some? then ops + [op.value] else ops
  }

  lemma StepCounts(g: Grant, m: Meter, a: Act)
    ensures Step(g, m, a).counters == if OpOf(a).None? then m.counters else Exec(g, m.counters, OpOf(a).value).counters
  {
  }

  /** The counters of a run are those of its operations, so conservation holds of it. */
  lemma {:induction false} MeterCounts(g: Grant, acts: seq<Act>)
    ensures Run(g, acts).counters == After(g, OpsOf(acts))
  {
    if acts != [] {
      var front, a := acts[..|acts| - 1], acts[|acts| - 1];
      MeterCounts(g, front);
      StepCounts(g, Run(g, front), a);
      if OpOf(a).Some? {
        AfterSnoc(g, OpsOf(front), OpOf(a).value);
      }
    }
  }

  lemma {:induction false} AfterSnoc(g: Grant, ops: seq<Op>, op: Op)
    ensures After(g, ops + [op]) == Exec(g, After(g, ops), op).counters
  {
    assert (ops + [op])[..|ops|] == ops;
  }

  /** JobContext: reports the cost metrics of one job and emits cost.budget.remaining. */
  class JobContext {
    const state: State
    var lastRemainEmit: Counters
    var emitted: seq<Remaining>

    ghost function TheMeter(): Meter
      reads this, state
    {
      Meter(state.counters, lastRemainEmit, emitted)
    }

    constructor (state: State)
      ensures this.state == state && lastRemainEmit == map[] && emitted == []
    {
      this.state, lastRemainEmit, emitted := state, map[], [];
    }

    /** A cost metric of a budgeted currency lowers its counter; anything else leaves the job as
        it was. Whatever leaves nothing is emitted. */
    method EmitMetric(name: string, value: real, unit: string)
      requires state.Valid()
      modifies this, state
      ensures state.Valid()
      ensures var cost := "cost." <= name && value >= 0.0 && unit != "" && unit in state.initialized;
              && (!cost ==> TheMeter() == old(TheMeter()))
              && (cost ==> state.counters == old(state.counters)[unit := old(state.counters)[unit] - value])
              && (cost && state.counters[unit] <= 0.0 ==>
                    emitted == old(emitted) + [Remaining(unit, state.counters[unit])])
      ensures TheMeter() == Step(state.TheGrant(), old(TheMeter()), Metric(name, value, unit))
    {
      if "cost." <= name && unit != "" && value >= 0.0 {
        var remaining, budgeted := state.ReportCost(unit, value);
        if budgeted {
          MaybeEmitRemaining(unit, remaining);
        }
      }
    }

    method MaybeEmitRemaining(currency: string, remaining: real)
      requires currency in state.initialized
      modifies this
      ensures if ShouldEmit(state.initialized[currency], old(lastRemainEmit), currency, remaining) then
                && lastRemainEmit == old(lastRemainEmit)[currency := remaining]
                && emitted == old(emitted) + [Remaining(currency, remaining)]
              else
                lastRemainEmit == old(lastRemainEmit) && emitted == old(emitted)
    {
      var initial := state.initialized[currency];
      var shouldEmit := true;
      if currency in lastRemainEmit && initial != 0.0 {
        var delta := Abs(lastRemainEmit[currency] - remaining);
        shouldEmit := delta / initial >= 0.05 || remaining <= 0.0;
      }
      if shouldEmit {
        lastRemainEmit := lastRemainEmit[currency := remaining];
        emitted := emitted + [Remaining(currency, remaining)];
      }
    }
  }

  /** Emitted events of `c` that still show a positive balance. */
  function Positives(emitted: seq<Remaining>, c: string): nat {
    if emitted == [] then 0
    else
      var e := emitted[|emitted| - 1];
      Positives(emitted[..|emitted| - 1], c) + if e.currency == c && e.balance > 0.0 then 1 else 0
  }

  /** The balance in the latest event of `c`. */
  function Shown(emitted: seq<Remaining>, c: string): Option<real> {
    if emitted == [] then None
    else if emitted[|emitted| - 1].currency == c then Some(emitted[|emitted| - 1].balance)
    else Shown(emitted[..|emitted| - 1], c)
  }

  lemma ShownSnoc(emitted: seq<Remaining>, e: Remaining, c: string)
    ensures Shown(emitted + [e], c) == if e.currency == c then Some(e.balance) else Shown(emitted, c)
  {
    assert (emitted + [e])[..|emitted|] == emitted;
  }

  /** What is remembered is what the latest event shows. */
  lemma {:induction false} LastIsShown(g: Grant, acts: seq<Act>, c: string)
    ensures var m := Run(g, acts); Shown(m.emitted, c) == if c in m.last then Some(m.last[c]) else None
  {
    if acts != [] {
      var m, a := Run(g, acts[..|acts| - 1]), acts[|acts| - 1];
      LastIsShown(g, acts[..|acts| - 1], c);
      if IsCost(a) && a.unit in g.initial {
        ShownSnoc(m.emitted, Remaining(a.unit, Exec(g, m.counters, Report(a.unit, a.value)).balance), c);
      }
    }
  }

  /** Each further positive event costs at least a twentieth of the budget. */
  ghost predicate MeterInv(g: Grant, m: Meter, c: string)
    requires c in g.initial
  {
    var k := Positives(m.emitted, c);
    && m.counters.Keys == g.initial.Keys
    && m.counters[c] <= g.initial[c]
    && (c in m.last ==> m.counters[c] <= m.last[c])
    && (k > 0 ==> c in m.last)
    && (k > 0 && m.last[c] > 0.0 ==> m.last[c] <= g.initial[c] - 0.05 * g.initial[c] * (k - 1) as real)
    && k <= 20
  }

  lemma ExecLowers(g: Grant, counters: Counters, op: Op, c: string)
    requires c in g.initial && counters.Keys == g.initial.Keys
    ensures Exec(g, counters, op).counters.Keys == counters.Keys
    ensures Exec(g, counters, op).counters[c] <= counters[c]
  {
  }

  lemma EmissionKeepsMeterInv(g: Grant, m: Meter, left: Counters, u: string, r: real, c: string)
    requires c in g.initial && u in g.initial && g.initial[c] >= 0.0 && MeterInv(g, m, c)
    requires left.Keys == g.initial.Keys && left[c] <= m.counters[c] && left[u] == r
    requires ShouldEmit(g.initial[u], m.last, u, r)
    ensures MeterInv(g, Meter(left, m.last[u := r], m.emitted + [Remaining(u, r)]), c)
  {
    PositivesSnoc(m.emitted, Remaining(u, r), c);
    if u == c && r > 0.0 && c in m.last {
      EmissionDrop(g.initial[c], m.last[c], r, Positives(m.emitted, c));
    }
  }

  lemma PositivesSnoc(emitted: seq<Remaining>, e: Remaining, c: string)
    ensures Positives(emitted + [e], c) == Positives(emitted, c) + if e.currency == c && e.balance > 0.0 then 1 else 0
  {
    assert (emitted + [e])[..|emitted|] == emitted;
  }

  lemma LoweringKeepsMeterInv(g: Grant, m: Meter, left: Counters, c: string)
    requires c in g.initial && MeterInv(g, m, c)
    requires left.Keys == g.initial.Keys && left[c] <= m.counters[c]
    ensures MeterInv(g, m.(counters := left), c)
  {
  }

  lemma StepKeepsMeterInv(g: Grant, m: Meter, a: Act, c: string)
    requires c in g.initial && g.initial[c] >= 0.0 && MeterInv(g, m, c)
    ensures MeterInv(g, Step(g, m, a), c)
  {
    if a.Other? {
      ExecLowers(g, m.counters, a.op, c);
      LoweringKeepsMeterInv(g, m, Exec(g, m.counters, a.op).counters, c);
    } else if IsCost(a) && a.unit in g.initial {
      var e := Exec(g, m.counters, Report(a.unit, a.value));
      ExecLowers(g, m.counters, Report(a.unit, a.value), c);
      if ShouldEmit(g.initial[a.unit], m.last, a.unit, e.balance) {
        EmissionKeepsMeterInv(g, m, e.counters, a.unit, e.balance, c);
      } else {
        LoweringKeepsMeterInv(g, m, e.counters, c);
      }
    }
  }

  lemma EmissionDrop(initial: real, last: real, r: real, k: nat)
    requires 0.0 < r <= last && r <= initial && k <= 20
    requires Abs(last - r) / initial >= 0.05
    requires k > 0 ==> last <= initial - 0.05 * initial * (k - 1) as real
    ensures k > 0 ==> r <= initial - 0.05 * initial * k as real && k < 20
  {
    var d := 0.05 * initial;
    ScaleBack(last - r, initial);
    if k > 0 {
      assert r <= last - d;
      assert d * (k - 1) as real + d == d * k as real;
      assert d * 20.0 == initial;
    }
  }

  lemma ScaleBack(x: real, y: real)
    requires y > 0.0
    ensures x / y * y == x
    ensures x / y >= 0.05 <==> x >= 0.05 * y
  {
  }

  lemma {:induction false} RunKeepsMeterInv(g: Grant, acts: seq<Act>, c: string)
    requires c in g.initial && g.initial[c] >= 0.0
    ensures MeterInv(g, Run(g, acts), c)
  {
    if acts != [] {
      RunKeepsMeterInv(g, acts[..|acts| - 1], c);
      StepKeepsMeterInv(g, Run(g, acts[..|acts| - 1]), acts[|acts| - 1], c);
    }
  }

  /** Within 5% of the initial budget. */
  predicate Near(initial: real, x: real, y: real) {
    x == y || Abs(x - y) < 0.05 * initial
  }

  /** A balance that is not emitted is near the last one that was. */
  lemma DecisionIsNear(initial: real, last: Counters, c: string, r: real)
    requires initial >= 0.0 && !ShouldEmit(initial, last, c, r)
    ensures c in last && Near(initial, last[c], r)
  {
    ScaleBack(Abs(last[c] - r), initial);
  }

  lemma MetricIsNear(g: Grant, m: Meter, a: Act)
    requires IsCost(a) && a.unit in g.initial && g.initial[a.unit] >= 0.0
    ensures var m' := Step(g, m, a);
            a.unit in m'.last && a.unit in m'.counters && Near(g.initial[a.unit], m'.last[a.unit], m'.counters[a.unit])
  {
    var r := Exec(g, m.counters, Report(a.unit, a.value)).balance;
    if !ShouldEmit(g.initial[a.unit], m.last, a.unit, r) {
      DecisionIsNear(g.initial[a.unit], m.last, a.unit, r);
    }
  }

  /** In any run of metrics, debits and reservations, after a cost metric the latest event shows
      a balance within 5% of the budget of the true one, and the true one if nothing is left;
      each currency sees at most 20 events with a positive balance. */
  lemma RemainingMetricBounds(g: Grant, acts: seq<Act>, a: Act)
    requires IsCost(a) && a.unit in g.initial && g.initial[a.unit] >= 0.0
    ensures var m := Run(g, acts + [a]);
            && a.unit in m.last && a.unit in m.counters
            && Shown(m.emitted, a.unit) == Some(m.last[a.unit])
            && Near(g.initial[a.unit], m.last[a.unit], m.counters[a.unit])
            && (m.counters[a.unit] <= 0.0 ==> m.last[a.unit] == m.counters[a.unit])
            && Positives(m.emitted, a.unit) <= 20
  {
    LastIsShown(g, acts + [a], a.unit);
    assert (acts + [a])[..|acts|] == acts;
    MetricIsNear(g, Run(g, acts), a);
    RunKeepsMeterInv(g, acts + [a], a.unit);
  }
}
