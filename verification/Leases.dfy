/**
  Leases and their delegation (lease.go). A lease maps a capability to its patterns;
  `cost.budget` patterns are amounts such as "USD:5". Amounts are exact reals and the
  decimal parser (strconv.ParseFloat) is a parameter.
 */
module Leases {
  import opened Base
  import opened Text
  import Glob

  type Lease = map<string, seq<string>>

  const COST_BUDGET := "cost.budget"

  datatype BudgetAmount = BudgetAmount(currency: string, value: real)

  type Decimal = string -> Option<real>

  // ---------------------------------------------------------------- budget entries

  predicate IsCurrency(s: string) {
    s != "" && ((forall c <- s :: 'A' <= c <= 'Z') || (forall c <- s :: 'a' <= c <= 'z'))
  }

  function ParseBudgetAmount(s: string, decimal: Decimal): (r: Option<BudgetAmount>)
    ensures r.Some? ==> r.value.value >= 0.0
  {
    var i := IndexOf(s, ":");
    if i <= 0 || i == |s| - 1 || !IsCurrency(s[..i]) then
      None
    else
      match decimal(s[i + 1..])
      case None => None
      case Some(v) => if v < 0.0 then None else Some(BudgetAmount(s[..i], v))
  }

  /** currency ":" decimal, non-negative, is read as exactly that, and nothing else is read. */
  lemma ParsesIff(s: string, decimal: Decimal, a: BudgetAmount)
    ensures ParseBudgetAmount(s, decimal) == Some(a)
       <==> (exists text :: Spells(s, a.currency, text) && decimal(text) == Some(a.value))
            && a.currency != "" && a.value >= 0.0
            && ((forall c <- a.currency :: 'A' <= c <= 'Z') || (forall c <- a.currency :: 'a' <= c <= 'z'))
  {
    if ParseBudgetAmount(s, decimal) == Some(a) {
      var i := IndexOf(s, ":");
      assert s[i..][..1] == ":";
      assert Spells(s, s[..i], s[i + 1..]);
    }
    if text :| IsCurrency(a.currency) && Spells(s, a.currency, text) && decimal(text) == Some(a.value) {
      ColonAt(s, a.currency, text);
    }
  }

  predicate Spells(s: string, currency: string, text: string) {
    text != "" && s == currency + ":" + text
  }

  lemma ColonAt(s: string, currency: string, text: string)
    requires IsCurrency(currency) && Spells(s, currency, text)
    ensures IndexOf(s, ":") == |currency| && s[..|currency|] == currency && s[|currency| + 1..] == text
  {
    var i := IndexOf(s, ":");
    assert HasPrefix(s[|currency|..], ":");
    assert 0 <= i <= |currency| && s[i..][..1] == ":" && s[i] == ':';
    assert forall k :: 0 <= k < |currency| ==> s[k] == currency[k] && currency[k] in currency;
  }

  /** The well-formed entries of a cost.budget list, in order. */
  function Entries(patterns: seq<string>, decimal: Decimal): seq<BudgetAmount> {
    if patterns == [] then []
    else
      var front := Entries(patterns[..|patterns| - 1], decimal);
      match ParseBudgetAmount(patterns[|patterns| - 1], decimal)
      case None => front
      case Some(a) => front + [a]
  }

  function TotalOf(amounts: seq<BudgetAmount>, currency: string): real {
    if amounts == [] then 0.0
    else
      var a := amounts[|amounts| - 1];
      TotalOf(amounts[..|amounts| - 1], currency) + if a.currency == currency then a.value else 0.0
  }

  // ---------------------------------------------------------------- the subset check

  ghost predicate BudgetFits(pat: string, remaining: map<string, real>, decimal: Decimal) {
    var a := ParseBudgetAmount(pat, decimal);
    a.Some? && a.value.currency in remaining && a.value.value <= remaining[a.value.currency]
  }

  ghost predicate PatternCovered(parentPatterns: seq<string>, child: string) {
    exists p <- parentPatterns :: Glob.Covers(p, child)
  }

  ghost predicate CapabilityFits(parent: Lease, ns: string, patterns: seq<string>,
                                 remaining: map<string, real>, decimal: Decimal)
  {
    if ns == COST_BUDGET then
      forall pat <- patterns :: BudgetFits(pat, remaining, decimal)
    else
      ns in parent && forall c <- patterns :: PatternCovered(parent[ns], c)
  }

  /** Expiries are compared only when both are given. */
  predicate ExpiryFits(parent: Option<int>, child: Option<int>) {
    parent.Some? && child.Some? ==> child.value <= parent.value
  }

  ghost predicate LeaseSubset(parent: Lease, child: Lease, remaining: map<string, real>,
                              parentExpiry: Option<int>, childExpiry: Option<int>, decimal: Decimal)
  {
    && (forall ns <- child :: CapabilityFits(parent, ns, child[ns], remaining, decimal))
    && ExpiryFits(parentExpiry, childExpiry)
  }

  lemma SubsetOutright(parent: Lease, child: Lease, remaining: map<string, real>,
                       parentExpiry: Option<int>, childExpiry: Option<int>, decimal: Decimal)
    ensures LeaseSubset(parent, child, remaining, parentExpiry, childExpiry, decimal)
       <==> && (forall ns <- child :: ns != COST_BUDGET ==>
                  ns in parent && forall c <- child[ns] :: exists p <- parent[ns] :: Glob.Covers(p, c))
            && (COST_BUDGET in child ==> forall pat <- child[COST_BUDGET] ::
                  var a := ParseBudgetAmount(pat, decimal);
                  a.Some? && a.value.currency in remaining && a.value.value <= remaining[a.value.currency])
            && (parentExpiry.Some? && childExpiry.Some? ==> childExpiry.value <= parentExpiry.value)
  {
  }

  datatype Verdict = Ok | MalformedBudget | SubsetViolation

  /** The budget branch: the first entry that does not fit decides the error. */
  method CheckBudget(patterns: seq<string>, remaining: map<string, real>, decimal: Decimal) returns (v: Verdict)
    ensures v == Ok <==> forall pat <- patterns :: BudgetFits(pat, remaining, decimal)
    ensures v == MalformedBudget ==> exists pat <- patterns :: ParseBudgetAmount(pat, decimal).None?
    ensures v == SubsetViolation ==>
              exists pat <- patterns :: ParseBudgetAmount(pat, decimal).Some? && !BudgetFits(pat, remaining, decimal)
  {
    for i := 0 to |patterns|
      invariant forall k :: 0 <= k < i ==> BudgetFits(patterns[k], remaining, decimal)
    {
      var a := ParseBudgetAmount(patterns[i], decimal);
      if a.None? {
        assert !BudgetFits(patterns[i], remaining, decimal);
        return MalformedBudget;
      }
      if a.value.currency !in remaining || a.value.value > remaining[a.value.currency] {
        assert !BudgetFits(patterns[i], remaining, decimal);
        return SubsetViolation;
      }
    }
    v := Ok;
  }

  /** The pattern branch: every child pattern must be covered by some parent pattern. */
  method CheckPatterns(parentPatterns: seq<string>, patterns: seq<string>) returns (ok: bool)
    ensures ok <==> forall c <- patterns :: PatternCovered(parentPatterns, c)
  {
    for i := 0 to |patterns|
      invariant forall k :: 0 <= k < i ==> PatternCovered(parentPatterns, patterns[k])
    {
      var matched := false;
      for j := 0 to |parentPatterns|
        invariant !matched
        invariant forall k :: 0 <= k < j ==> !Glob.Covers(parentPatterns[k], patterns[i])
      {
        matched := Glob.CoversSearch(Glob.SplitSep(parentPatterns[j]), Glob.SplitSep(patterns[i]));
        if matched {
          assert Glob.Covers(parentPatterns[j], patterns[i]);
          assert PatternCovered(parentPatterns, patterns[i]);
          break;
        }
      }
      if !matched {
        assert !PatternCovered(parentPatterns, patterns[i]);
        return false;
      }
    }
    ok := true;
  }

  /** IsLeaseSubset. The child's capabilities are visited in any order, as Go ranges over
      a map, so only which kinds of error can be returned is fixed. */
  method IsLeaseSubset(parent: Lease, child: Lease, remaining: map<string, real>,
                       parentExpiry: Option<int>, childExpiry: Option<int>, decimal: Decimal)
    returns (v: Verdict)
    ensures v == Ok <==> LeaseSubset(parent, child, remaining, parentExpiry, childExpiry, decimal)
    ensures v == Ok <==>
              && (forall ns <- child :: ns != COST_BUDGET ==>
                    ns in parent && forall c <- child[ns] :: exists p <- parent[ns] :: Glob.Covers(p, c))
              && (COST_BUDGET in child ==> forall pat <- child[COST_BUDGET] ::
                    var a := ParseBudgetAmount(pat, decimal);
                    a.Some? && a.value.currency in remaining && a.value.value <= remaining[a.value.currency])
              && (parentExpiry.Some? && childExpiry.Some? ==> childExpiry.value <= parentExpiry.value)
    ensures v == MalformedBudget ==>
              COST_BUDGET in child && exists pat <- child[COST_BUDGET] :: ParseBudgetAmount(pat, decimal).None?
    ensures v == SubsetViolation ==>
              || !ExpiryFits(parentExpiry, childExpiry)
              || (exists ns <- child :: ns != COST_BUDGET && !CapabilityFits(parent, ns, child[ns], remaining, decimal))
              || (COST_BUDGET in child && exists pat <- child[COST_BUDGET] ::
                    ParseBudgetAmount(pat, decimal).Some? && !BudgetFits(pat, remaining, decimal))
  {
    SubsetOutright(parent, child, remaining, parentExpiry, childExpiry, decimal);
    var todo := child.Keys;
    while todo != {}
      invariant todo <= child.Keys
      invariant forall ns <- child :: ns !in todo ==> CapabilityFits(parent, ns, child[ns], remaining, decimal)
    {
      var ns :| ns in todo;
      if ns == COST_BUDGET {
        v := CheckBudget(child[ns], remaining, decimal);
        if v != Ok {
          return;
        }
      } else {
        if ns !in parent {
          return SubsetViolation;
        }
        var covered := CheckPatterns(parent[ns], child[ns]);
        if !covered {
          return SubsetViolation;
        }
      }
      todo := todo - {ns};
    }
    if childExpiry.Some? && parentExpiry.Some? && childExpiry.value > parentExpiry.value {
      return SubsetViolation;
    }
    v := Ok;
  }

  // ---------------------------------------------------------------- delegation chains

  /** State.matches; `canon` is canonicalizeTarget. */
  ghost predicate Grants(lease: Lease, canon: (string, string) -> string, capability: string, target: string) {
    capability in lease && exists p <- lease[capability] :: Glob.Match(p, canon(capability, target))
  }

  datatype Link = Link(remaining: map<string, real>, parentExpiry: Option<int>, childExpiry: Option<int>)

  /** Every lease passed IsLeaseSubset against the one before it. */
  ghost predicate Chain(leases: seq<Lease>, links: seq<Link>, decimal: Decimal) {
    && |leases| == |links| + 1
    && forall i :: 0 <= i < |links| ==>
         LeaseSubset(leases[i], leases[i + 1], links[i].remaining, links[i].parentExpiry, links[i].childExpiry, decimal)
  }

  lemma SubsetGrantsLess(parent: Lease, child: Lease, link: Link, decimal: Decimal,
                         canon: (string, string) -> string, capability: string, target: string)
    requires LeaseSubset(parent, child, link.remaining, link.parentExpiry, link.childExpiry, decimal)
    requires capability != COST_BUDGET && Grants(child, canon, capability, target)
    ensures Grants(parent, canon, capability, target)
  {
    var c :| c in child[capability] && Glob.Match(c, canon(capability, target));
    assert CapabilityFits(parent, capability, child[capability], link.remaining, decimal);
    assert PatternCovered(parent[capability], c);
    var p :| p in parent[capability] && Glob.Covers(p, c);
    Glob.CoversSound(p, c, canon(capability, target));
  }

  /** Delegation never widens authority, however long the chain. */
  lemma {:induction false} ChainNeverWidens(leases: seq<Lease>, links: seq<Link>, decimal: Decimal,
                                            canon: (string, string) -> string, capability: string, target: string)
    requires Chain(leases, links, decimal)
    requires capability != COST_BUDGET && Grants(leases[|leases| - 1], canon, capability, target)
    ensures Grants(leases[0], canon, capability, target)
    decreases |links|
  {
    var n := |links|;
    if n > 0 {
      SubsetGrantsLess(leases[n - 1], leases[n], links[n - 1], decimal, canon, capability, target);
      ChainNeverWidens(leases[..n], links[..n - 1], decimal, canon, capability, target);
    }
  }

  ghost predicate ExpiryChain(expiries: seq<Option<int>>) {
    forall i {:trigger expiries[i]} :: 0 <= i < |expiries| - 1 ==> ExpiryFits(expiries[i], expiries[i + 1])
  }

  ghost predicate HasShape(expiries: seq<Option<int>>, given: seq<bool>) {
    |expiries| == |given| && forall i :: 0 <= i < |given| ==> expiries[i].Some? == given[i]
  }

  lemma {:induction false} GivenExpiriesDescend(expiries: seq<Option<int>>)
    requires |expiries| >= 1 && ExpiryChain(expiries) && forall e <- expiries :: e.Some?
    ensures expiries[|expiries| - 1].value <= expiries[0].value
  {
    var n := |expiries|;
    if n > 1 {
      GivenExpiriesDescend(expiries[..n - 1]);
      assert ExpiryFits(expiries[n - 2], expiries[n - 1]);
    }
  }

  lemma OmittedExpiryEscapes(given: seq<bool>, k: nat) returns (expiries: seq<Option<int>>)
    requires |given| >= 2 && given[0] && given[|given| - 1] && k < |given| && !given[k]
    ensures HasShape(expiries, given) && ExpiryChain(expiries)
    ensures expiries[|given| - 1].value > expiries[0].value
  {
    expiries := seq(|given|, i requires 0 <= i < |given| =>
      if !given[i] then None else Some(if i < k then 0 else 1));
    forall i | 0 <= i < |given| - 1
      ensures ExpiryFits(expiries[i], expiries[i + 1])
    {
      assert i < k <==> i + 1 < k || i + 1 == k;
    }
  }

  /** A link without an expiry is a hole: a chain that passes every link keeps its last
      expiry within its first for every choice of times iff no expiry is omitted. */
  lemma ExpiryBoundIffAllGiven(given: seq<bool>)
    requires |given| >= 2 && given[0] && given[|given| - 1]
    ensures (forall expiries: seq<Option<int>> :: HasShape(expiries, given) && ExpiryChain(expiries) ==>
               expiries[|given| - 1].value <= expiries[0].value)
       <==> (forall i :: 0 <= i < |given| ==> given[i])
  {
    if forall i :: 0 <= i < |given| ==> given[i] {
      forall expiries: seq<Option<int>> | HasShape(expiries, given) && ExpiryChain(expiries)
        ensures expiries[|given| - 1].value <= expiries[0].value
      {
        GivenExpiriesDescend(expiries);
      }
    } else {
      var k :| 0 <= k < |given| && !given[k];
      var expiries := OmittedExpiryEscapes(given, k);
    }
  }

  // ---------------------------------------------------------------- delegated totals

  ghost predicate Repeats(currencies: seq<string>, c: string) {
    exists i, j :: 0 <= i < j < |currencies| && currencies[i] == currencies[j] == c
  }

  /** Each entry on its own passes the comparison of IsLeaseSubset. */
  ghost predicate EachFits(amounts: seq<BudgetAmount>, currencies: seq<string>, remaining: map<string, real>) {
    && |amounts| == |currencies|
    && forall i :: 0 <= i < |amounts| ==>
         && amounts[i].currency == currencies[i] && currencies[i] in remaining
         && 0.0 <= amounts[i].value <= remaining[currencies[i]]
  }

  lemma {:induction false} SingleTotal(amounts: seq<BudgetAmount>, currencies: seq<string>,
                                       remaining: map<string, real>, c: string)
    requires EachFits(amounts, currencies, remaining) && !Repeats(currencies, c)
    ensures c !in currencies ==> TotalOf(amounts, c) == 0.0
    ensures c in currencies ==> TotalOf(amounts, c) <= remaining[c]
  {
    var n := |amounts|;
    if n > 0 {
      var front := currencies[..n - 1];
      assert currencies == front + [currencies[n - 1]];
      assert !Repeats(front, c);
      SingleTotal(amounts[..n - 1], front, remaining, c);
    }
  }

  lemma {:induction false} NothingLeftTotal(amounts: seq<BudgetAmount>, currencies: seq<string>,
                                            remaining: map<string, real>, c: string)
    requires EachFits(amounts, currencies, remaining) && c in remaining && remaining[c] == 0.0
    ensures TotalOf(amounts, c) == 0.0
  {
    var n := |amounts|;
    if n > 0 {
      NothingLeftTotal(amounts[..n - 1], currencies[..n - 1], remaining, c);
    }
  }

  lemma {:induction false} TotalAtLeast(amounts: seq<BudgetAmount>, c: string, i: nat, j: nat)
    requires i < j < |amounts| && amounts[i].currency == amounts[j].currency == c
    requires forall a <- amounts :: a.value >= 0.0
    ensures TotalOf(amounts, c) >= amounts[i].value + amounts[j].value
  {
    var front := amounts[..|amounts| - 1];
    if j < |amounts| - 1 {
      TotalAtLeast(front, c, i, j);
    } else {
      SingleAtMostTotal(front, c, i);
    }
  }

  lemma {:induction false} SingleAtMostTotal(amounts: seq<BudgetAmount>, c: string, i: nat)
    requires i < |amounts| && amounts[i].currency == c
    requires forall a <- amounts :: a.value >= 0.0
    ensures TotalOf(amounts, c) >= amounts[i].value
  {
    var front := amounts[..|amounts| - 1];
    if i < |amounts| - 1 {
      SingleAtMostTotal(front, c, i);
    } else {
      TotalNonNegative(front, c);
    }
  }

  lemma {:induction false} TotalNonNegative(amounts: seq<BudgetAmount>, c: string)
    requires forall a <- amounts :: a.value >= 0.0
    ensures TotalOf(amounts, c) >= 0.0
  {
    if amounts != [] {
      TotalNonNegative(amounts[..|amounts| - 1], c);
    }
  }

  /** No amounts at all can be accepted for these currencies. */
  ghost predicate Unaffordable(currencies: seq<string>, remaining: map<string, real>) {
    exists c <- currencies :: c !in remaining || remaining[c] < 0.0
  }

  /** The per-entry comparison bounds a child's total in every currency, for all amounts it
      accepts, iff it accepts none or no currency with something left is listed twice
      ("USD:6","USD:6" passes against USD 10). */
  lemma TotalsFitIffNoRepeat(currencies: seq<string>, remaining: map<string, real>)
    ensures (forall amounts, c :: EachFits(amounts, currencies, remaining) && c in currencies ==>
               TotalOf(amounts, c) <= remaining[c])
       <==> (Unaffordable(currencies, remaining)
             || forall c <- currencies :: remaining[c] > 0.0 ==> !Repeats(currencies, c))
  {
    if c :| c in currencies && (c !in remaining || remaining[c] < 0.0) {
      var i :| 0 <= i < |currencies| && currencies[i] == c;
      assert forall amounts :: !EachFits(amounts, currencies, remaining);
    } else if c :| c in currencies && remaining[c] > 0.0 && Repeats(currencies, c) {
      var i, j :| 0 <= i < j < |currencies| && currencies[i] == currencies[j] == c;
      var full := seq(|currencies|, k requires 0 <= k < |currencies| =>
        BudgetAmount(currencies[k], remaining[currencies[k]]));
      assert EachFits(full, currencies, remaining);
      TotalAtLeast(full, c, i, j);
      assert TotalOf(full, c) > remaining[c];
    } else {
      forall amounts, c | EachFits(amounts, currencies, remaining) && c in currencies
        ensures TotalOf(amounts, c) <= remaining[c]
      {
        if remaining[c] == 0.0 {
          NothingLeftTotal(amounts, currencies, remaining, c);
        } else {
          SingleTotal(amounts, currencies, remaining, c);
        }
      }
    }
  }

  function Currencies(amounts: seq<BudgetAmount>): (cs: seq<string>)
    ensures |cs| == |amounts|
  {
    seq(|amounts|, i requires 0 <= i < |amounts| => amounts[i].currency)
  }

  lemma {:induction false} EntriesFit(patterns: seq<string>, remaining: map<string, real>, decimal: Decimal)
    requires forall pat <- patterns :: BudgetFits(pat, remaining, decimal)
    ensures EachFits(Entries(patterns, decimal), Currencies(Entries(patterns, decimal)), remaining)
  {
    if patterns != [] {
      EntriesFit(patterns[..|patterns| - 1], remaining, decimal);
      assert BudgetFits(patterns[|patterns| - 1], remaining, decimal);
    }
  }

  /** An accepted child that names a currency once starts with no more of it than the
      parent had left. */
  lemma AcceptedBudgetFits(parent: Lease, child: Lease, link: Link, decimal: Decimal, c: string)
    requires LeaseSubset(parent, child, link.remaining, link.parentExpiry, link.childExpiry, decimal)
    requires COST_BUDGET in child
    requires var named := Currencies(Entries(child[COST_BUDGET], decimal)); c in named && !Repeats(named, c)
    ensures c in link.remaining && TotalOf(Entries(child[COST_BUDGET], decimal), c) <= link.remaining[c]
  {
    assert CapabilityFits(parent, COST_BUDGET, child[COST_BUDGET], link.remaining, decimal);
    EntriesFit(child[COST_BUDGET], link.remaining, decimal);
    var es := Entries(child[COST_BUDGET], decimal);
    SingleTotal(es, Currencies(es), link.remaining, c);
  }
}
