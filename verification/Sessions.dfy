/**
  Session identity across reconnects (server/server.go: seqAlloc, allocFor, dropAlloc,
  stashResume, claimResume, purgeExpiredResumes, dropResume, Accept; server/session.go:
  handshake). Freshly minted ids, tokens and allocators are assumed distinct.
 */
module Sessions {
  import opened Base

  datatype Entry = Entry(principal: string, token: nat, seqNo: nat, expiresAt: int)

  type Resumes = map<string, Entry>

  function Unexpired(resumes: Resumes, now: int): Resumes {
    map id | id in resumes && now <= resumes[id].expiresAt :: resumes[id]
  }

  datatype Claim = Claimed(entry: Entry) | NotResumable | TokenMismatch | PrincipalMismatch

  function Judge(resumes: Resumes, id: string, token: nat, principal: string, now: int): Claim {
    var live := Unexpired(resumes, now);
    if id !in live then NotResumable
    else if live[id].token != token then TokenMismatch
    else if live[id].principal != principal then PrincipalMismatch
    else Claimed(live[id])
  }

  /** The table after a claim: expired entries go, and the claimed one goes only on success. */
  function AfterClaim(resumes: Resumes, id: string, verdict: Claim, now: int): Resumes {
    if verdict.Claimed? then Unexpired(resumes, now) - {id} else Unexpired(resumes, now)
  }

  /** The resume table; each method runs under resumeMu. */
  class ResumeTable {
    var resumes: Resumes
    const window: int

    constructor (window: int)
      ensures resumes == map[] && this.window == window
    {
      resumes, this.window := map[], window;
    }

    method Stash(id: string, principal: string, token: nat, seqNo: nat, now: int)
      modifies this
      ensures resumes == old(resumes)[id := Entry(principal, token, seqNo, now + window)]
    {
      resumes := resumes[id := Entry(principal, token, seqNo, now + window)];
    }

    /** Deletes every expired entry and reports their ids. */
    method Purge(now: int) returns (expired: set<string>)
      modifies this
      ensures resumes == Unexpired(old(resumes), now)
      ensures forall id :: id in resumes <==> id in old(resumes) && now <= old(resumes)[id].expiresAt
      ensures forall id <- resumes :: resumes[id] == old(resumes)[id]
      ensures expired == old(resumes).Keys - resumes.Keys
    {
      expired := {};
      var todo := resumes.Keys;
      while todo != {}
        invariant todo <= old(resumes).Keys
        invariant resumes == map id | id in old(resumes) && (id in todo || now <= old(resumes)[id].expiresAt)
                               :: old(resumes)[id]
        invariant expired == old(resumes).Keys - resumes.Keys
      {
        var id :| id in todo;
        if now > resumes[id].expiresAt {
          resumes := resumes - {id};
          expired := expired + {id};
        }
        todo := todo - {id};
      }
    }

    /** claimResume. The source's second expiry test can no longer succeed after the purge. */
    method ClaimResume(id: string, token: nat, principal: string, now: int) returns (verdict: Claim)
      modifies this
      ensures verdict == Judge(old(resumes), id, token, principal, now)
      ensures resumes == AfterClaim(old(resumes), id, verdict, now)
      ensures verdict.NotResumable? <==> id !in old(resumes) || now > old(resumes)[id].expiresAt
      ensures !verdict.NotResumable? ==>
                && (verdict.TokenMismatch? <==> old(resumes)[id].token != token)
                && (verdict.Claimed? <==> old(resumes)[id].token == token && old(resumes)[id].principal == principal)
      ensures verdict.Claimed? ==> verdict.entry == old(resumes)[id] && id !in resumes
      ensures forall x :: x in old(resumes) && now <= old(resumes)[x].expiresAt && (x != id || !verdict.Claimed?) ==>
                x in resumes && resumes[x] == old(resumes)[x]
      ensures forall x <- resumes :: x in old(resumes) && now <= old(resumes)[x].expiresAt
    {
      var _ := Purge(now);
      if id !in resumes {
        return NotResumable;
      }
      var entry := resumes[id];
      if entry.token != token {
        return TokenMismatch;
      }
      if entry.principal != principal {
        return PrincipalMismatch;
      }
      resumes := resumes - {id};
      verdict := Claimed(entry);
    }
  }

  /** A claim that fails leaves every unexpired entry exactly as it was, and one that
      succeeds touches no entry but its own. */
  lemma ClaimSparesOthers(resumes: Resumes, id: string, token: nat, principal: string, now: int, other: string)
    requires other in resumes && now <= resumes[other].expiresAt
    ensures var verdict := Judge(resumes, id, token, principal, now);
            var after := AfterClaim(resumes, id, verdict, now);
            && (!verdict.Claimed? || other != id ==> other in after && after[other] == resumes[other])
            && (verdict.Claimed? ==> id !in after && resumes[id].token == token && resumes[id].principal == principal)
  {
  }

  // ---------------------------------------------------------------- the state machine

  /** A session struct between handshake and the end of Accept: a resume that has claimed
      its entry but not finished the handshake, or a session with its allocator. */
  datatype Conn = Claiming(id: string, principal: string, seqNo: nat)
                | Live(id: string, principal: string, token: nat, alloc: nat)

  /** A seqAlloc: the id it numbers, its value, and every number it has handed out. */
  datatype Alloc = Alloc(owner: string, val: nat, issued: seq<nat>)

  datatype Server = Server(
    resumes: Resumes, conns: map<nat, Conn>,
    seqAllocs: map<string, nat>,      // the allocator registered for an id
    allocs: map<nat, Alloc>,          // every allocator ever made; jobs may keep using any
    doomed: set<string>,              // ids whose allocator is about to be dropped
    ids: set<string>, tokens: set<nat>, accepted: seq<nat>)

  const START := Server(map[], map[], map[], map[], {}, {}, {}, [])

  datatype Action =
    | Hello(c: nat, id: string, principal: string, token: nat, alloc: nat)
    | ClaimBy(c: nat, id: string, token: nat, principal: string, now: int)
    | Abort(c: nat)                                 // gap check, or welcome not sent
    | FinishResume(c: nat, token: nat, alloc: nat)
    | NextSeq(alloc: nat)                           // by any job or session holding it
    | Forget(c: nat)                                // ended by shutdown: nothing is stashed
    | Drop(c: nat, expiresAt: int)                  // non-graceful exit: stashResume
    | Bye(c: nat)                                   // graceful exit: dropResume
    | Purge(now: int)
    | DropAlloc(id: string)                         // the unlocked second half of Bye and Purge

  function DoHello(s: Server, c: nat, id: string, principal: string, token: nat, alloc: nat): Server {
    if c in s.conns || id in s.ids || token in s.tokens || alloc in s.allocs then s
    else
      var got := AllocFor(s, id, alloc);
      Registered(s, id, alloc).(
        conns := s.conns[c := Live(id, principal, token, got)], ids := s.ids + {id}, tokens := s.tokens + {token})
  }

  /** allocFor: the registered allocator of `id`, or `made`, newly registered. */
  function AllocFor(s: Server, id: string, made: nat): nat {
    if id in s.seqAllocs then s.seqAllocs[id] else made
  }

  function Registered(s: Server, id: string, made: nat): Server {
    if id in s.seqAllocs then s
    else s.(seqAllocs := s.seqAllocs[id := made], allocs := s.allocs[made := Alloc(id, 0, [])])
  }

  function DoClaim(s: Server, c: nat, id: string, token: nat, principal: string, now: int): Server {
    if c in s.conns then s
    else
      var verdict := Judge(s.resumes, id, token, principal, now);
      var s' := s.(resumes := AfterClaim(s.resumes, id, verdict, now));
      if verdict.Claimed? then
        s'.(conns := s.conns[c := Claiming(id, principal, verdict.entry.seqNo)], accepted := s.accepted + [token])
      else s'
  }

  function DoFinish(s: Server, c: nat, token: nat, alloc: nat): Server {
    if c !in s.conns || !s.conns[c].Claiming? || token in s.tokens || alloc in s.allocs then s
    else
      var k := s.conns[c];
      var got := AllocFor(s, k.id, alloc);
      SetIfGreater(Registered(s, k.id, alloc), got, k.seqNo).(
        conns := s.conns[c := Live(k.id, k.principal, token, got)], tokens := s.tokens + {token})
  }

  function SetIfGreater(s: Server, alloc: nat, v: nat): Server {
    if alloc in s.allocs && v > s.allocs[alloc].val then
      s.(allocs := s.allocs[alloc := s.allocs[alloc].(val := v)])
    else s
  }

  function DoNext(s: Server, alloc: nat): Server {
    if alloc !in s.allocs then s
    else
      var a := s.allocs[alloc];
      s.(allocs := s.allocs[alloc := Alloc(a.owner, a.val + 1, a.issued + [a.val + 1])])
  }

  function DoDrop(s: Server, c: nat, expiresAt: int): Server {
    if c !in s.conns || !s.conns[c].Live? || s.conns[c].alloc !in s.allocs then s
    else
      var k := s.conns[c];
      s.(conns := s.conns - {c},
         resumes := s.resumes[k.id := Entry(k.principal, k.token, s.allocs[k.alloc].val, expiresAt)])
  }

  function DoBye(s: Server, c: nat): Server {
    if c !in s.conns || !s.conns[c].Live? then s
    else
      var id := s.conns[c].id;
      s.(conns := s.conns - {c}, resumes := s.resumes - {id}, doomed := s.doomed + {id})
  }

  function DoPurge(s: Server, now: int): Server {
    var live := Unexpired(s.resumes, now);
    s.(resumes := live, doomed := s.doomed + (s.resumes.Keys - live.Keys))
  }

  function DoDropAlloc(s: Server, id: string): Server {
    if id in s.doomed then s.(seqAllocs := s.seqAllocs - {id}, doomed := s.doomed - {id}) else s
  }

  function Step(s: Server, a: Action): Server {
    match a
    case Hello(c, id, principal, token, alloc) => DoHello(s, c, id, principal, token, alloc)
    case ClaimBy(c, id, token, principal, now) => DoClaim(s, c, id, token, principal, now)
    case Abort(c) =>
      if c in s.conns && s.conns[c].Claiming? then s.(conns := s.conns - {c}) else s
    case FinishResume(c, token, alloc) => DoFinish(s, c, token, alloc)
    case NextSeq(alloc) => DoNext(s, alloc)
    case Forget(c) =>
      if c in s.conns && s.conns[c].Live? then s.(conns := s.conns - {c}) else s
    case Drop(c, expiresAt) => DoDrop(s, c, expiresAt)
    case Bye(c) => DoBye(s, c)
    case Purge(now) => DoPurge(s, now)
    case DropAlloc(id) => DoDropAlloc(s, id)
  }

  function Run(s: Server, acts: seq<Action>): Server {
    if acts == [] then s else Step(Run(s, acts[..|acts| - 1]), acts[|acts| - 1])
  }

  // ---------------------------------------------------------------- what every step keeps

  /** One session or one entry per id, never both; doomed ids have neither. */
  ghost predicate Exclusive(s: Server) {
    && (forall c, d :: c in s.conns && d in s.conns && s.conns[c].id == s.conns[d].id ==> c == d)
    && (forall c :: c in s.conns ==> s.conns[c].id !in s.resumes && s.conns[c].id !in s.doomed)
    && (forall c :: c in s.conns ==> s.conns[c].id in s.ids)
    && (forall id :: id in s.resumes ==> id in s.ids && id !in s.doomed)
    && s.doomed <= s.ids
  }

  /** Tokens under which an id can be resumed, now or after a drop, are minted, unspent and
      in one place; spent tokens are spent once. */
  ghost predicate TokensInv(s: Server) {
    && (forall id :: id in s.resumes ==> s.resumes[id].token in s.tokens && s.resumes[id].token !in s.accepted)
    && (forall c :: c in s.conns && s.conns[c].Live? ==>
          s.conns[c].token in s.tokens && s.conns[c].token !in s.accepted)
    && (forall id, other :: id in s.resumes && other in s.resumes && s.resumes[id].token == s.resumes[other].token ==>
          id == other)
    && (forall c, d ::
          c in s.conns && d in s.conns && s.conns[c].Live? && s.conns[d].Live?
          && s.conns[c].token == s.conns[d].token ==>
            c == d)
    && (forall c, id :: c in s.conns && s.conns[c].Live? && id in s.resumes ==> s.conns[c].token != s.resumes[id].token)
    && (forall t <- s.accepted :: t in s.tokens)
    && (forall i, j :: 0 <= i < j < |s.accepted| ==> s.accepted[i] != s.accepted[j])
  }

  ghost predicate Counting(numbers: seq<nat>) {
    forall i :: 0 <= i < |numbers| ==> numbers[i] == i + 1
  }

  /** One allocator per id for ever, counting 1, 2, 3, ... */
  ghost predicate AllocInv(s: Server) {
    && (forall a :: a in s.allocs ==> s.allocs[a].owner in s.ids)
    && (forall a :: a in s.allocs ==> s.allocs[a].val == |s.allocs[a].issued| && Counting(s.allocs[a].issued))
    && (forall a, b :: a in s.allocs && b in s.allocs && s.allocs[a].owner == s.allocs[b].owner ==> a == b)
    && (forall id :: id in s.seqAllocs ==> s.seqAllocs[id] in s.allocs && s.allocs[s.seqAllocs[id]].owner == id)
  }

  /** `id` still has its allocator registered, and it has not fallen behind `seqNo`. */
  ghost predicate Attached(s: Server, id: string, seqNo: nat) {
    id in s.seqAllocs && s.seqAllocs[id] in s.allocs && seqNo <= s.allocs[s.seqAllocs[id]].val
  }

  ghost predicate AttachedInv(s: Server) {
    && (forall id :: id in s.resumes ==> Attached(s, id, s.resumes[id].seqNo))
    && (forall c :: c in s.conns && s.conns[c].Claiming? ==> Attached(s, s.conns[c].id, s.conns[c].seqNo))
    && (forall c :: c in s.conns && s.conns[c].Live? ==>
          Attached(s, s.conns[c].id, 0) && s.conns[c].alloc == s.seqAllocs[s.conns[c].id])
  }

  ghost predicate Inv(s: Server) {
    Exclusive(s) && TokensInv(s) && AllocInv(s) && AttachedInv(s)
  }

  lemma HelloKeepsIds(s: Server, c: nat, id: string, principal: string, token: nat, alloc: nat)
    requires Exclusive(s)
    ensures Exclusive(DoHello(s, c, id, principal, token, alloc))
  {
  }

  lemma HelloKeepsTokens(s: Server, c: nat, id: string, principal: string, token: nat, alloc: nat)
    requires TokensInv(s)
    ensures TokensInv(DoHello(s, c, id, principal, token, alloc))
  {
  }

  lemma HelloKeepsAllocs(s: Server, c: nat, id: string, principal: string, token: nat, alloc: nat)
    requires AllocInv(s)
    ensures AllocInv(DoHello(s, c, id, principal, token, alloc))
  {
  }

  lemma RegisterKeepsAttached(s: Server, id: string, alloc: nat)
    requires AllocInv(s) && AttachedInv(s) && alloc !in s.allocs
    ensures AttachedInv(Registered(s, id, alloc)) && Attached(Registered(s, id, alloc), id, 0)
  {
  }

  lemma HelloKeepsAttached(s: Server, c: nat, id: string, principal: string, token: nat, alloc: nat)
    requires AllocInv(s) && AttachedInv(s)
    ensures AttachedInv(DoHello(s, c, id, principal, token, alloc))
  {
    if alloc !in s.allocs {
      RegisterKeepsAttached(s, id, alloc);
    }
  }

  lemma ClaimKeepsIds(s: Server, c: nat, id: string, token: nat, principal: string, now: int)
    requires Exclusive(s)
    ensures Exclusive(DoClaim(s, c, id, token, principal, now))
  {
  }

  lemma ClaimKeepsTokens(s: Server, c: nat, id: string, token: nat, principal: string, now: int)
    requires TokensInv(s)
    ensures TokensInv(DoClaim(s, c, id, token, principal, now))
  {
  }

  lemma ClaimKeepsAllocs(s: Server, c: nat, id: string, token: nat, principal: string, now: int)
    requires AllocInv(s)
    ensures AllocInv(DoClaim(s, c, id, token, principal, now))
  {
  }

  lemma ClaimKeepsAttached(s: Server, c: nat, id: string, token: nat, principal: string, now: int)
    requires AttachedInv(s)
    ensures AttachedInv(DoClaim(s, c, id, token, principal, now))
  {
    var s' := DoClaim(s, c, id, token, principal, now);
    assert forall x, n :: Attached(s, x, n) ==> Attached(s', x, n);
  }

  lemma FinishKeepsIds(s: Server, c: nat, token: nat, alloc: nat)
    requires Exclusive(s)
    ensures Exclusive(DoFinish(s, c, token, alloc))
  {
  }

  lemma FinishKeepsTokens(s: Server, c: nat, token: nat, alloc: nat)
    requires TokensInv(s)
    ensures TokensInv(DoFinish(s, c, token, alloc))
  {
  }

  /** The allocator survived the disconnect, so setIfGreater finds nothing to raise. */
  lemma FinishKeepsAllocs(s: Server, c: nat, token: nat, alloc: nat)
    requires AllocInv(s) && AttachedInv(s)
    ensures AllocInv(DoFinish(s, c, token, alloc)) && AttachedInv(DoFinish(s, c, token, alloc))
  {
    if c in s.conns && s.conns[c].Claiming? {
      assert Attached(s, s.conns[c].id, s.conns[c].seqNo);
      assert DoFinish(s, c, token, alloc).allocs == s.allocs;
    }
  }

  lemma NextKeepsAllocs(s: Server, alloc: nat)
    requires AllocInv(s)
    ensures AllocInv(DoNext(s, alloc))
  {
  }

  lemma NextKeepsAttached(s: Server, alloc: nat)
    requires AttachedInv(s)
    ensures AttachedInv(DoNext(s, alloc))
  {
    var s' := DoNext(s, alloc);
    assert forall x, n :: Attached(s, x, n) ==> Attached(s', x, n);
  }

  lemma DropKeepsIds(s: Server, c: nat, expiresAt: int)
    requires Exclusive(s) && TokensInv(s)
    ensures Exclusive(DoDrop(s, c, expiresAt)) && TokensInv(DoDrop(s, c, expiresAt))
  {
  }

  lemma DropKeepsAllocs(s: Server, c: nat, expiresAt: int)
    requires AllocInv(s) && AttachedInv(s)
    ensures AllocInv(DoDrop(s, c, expiresAt)) && AttachedInv(DoDrop(s, c, expiresAt))
  {
  }

  lemma ByeKeepsIds(s: Server, c: nat)
    requires Exclusive(s) && TokensInv(s)
    ensures Exclusive(DoBye(s, c)) && TokensInv(DoBye(s, c))
  {
  }

  lemma PurgeKeepsIds(s: Server, now: int)
    requires Exclusive(s) && TokensInv(s)
    ensures Exclusive(DoPurge(s, now)) && TokensInv(DoPurge(s, now))
  {
  }

  lemma DropAllocKeepsAllocs(s: Server, id: string)
    requires AllocInv(s)
    ensures AllocInv(DoDropAlloc(s, id))
  {
  }

  /** A doomed id has neither session nor entry, so nobody misses its allocator. */
  lemma DropAllocKeepsAttached(s: Server, id: string)
    requires Exclusive(s) && AttachedInv(s)
    ensures Exclusive(DoDropAlloc(s, id)) && AttachedInv(DoDropAlloc(s, id))
  {
    var s' := DoDropAlloc(s, id);
    assert forall x, n :: x != id && Attached(s, x, n) ==> Attached(s', x, n);
  }

  lemma EndKeepsIds(s: Server, a: Action)
    requires Exclusive(s) && TokensInv(s) && (a.Abort? || a.Forget?)
    ensures Exclusive(Step(s, a)) && TokensInv(Step(s, a))
  {
  }

  lemma ByeKeepsAllocs(s: Server, c: nat)
    requires AllocInv(s) && AttachedInv(s)
    ensures AllocInv(DoBye(s, c)) && AttachedInv(DoBye(s, c))
  {
  }

  lemma PurgeKeepsAllocs(s: Server, now: int)
    requires AllocInv(s) && AttachedInv(s)
    ensures AllocInv(DoPurge(s, now)) && AttachedInv(DoPurge(s, now))
  {
  }

  lemma EndKeepsAllocs(s: Server, a: Action)
    requires AllocInv(s) && AttachedInv(s) && (a.Abort? || a.Forget?)
    ensures AllocInv(Step(s, a)) && AttachedInv(Step(s, a))
  {
  }

  lemma ByeKeeps(s: Server, c: nat)
    requires Inv(s)
    ensures Inv(DoBye(s, c))
  {
    ByeKeepsIds(s, c);
    ByeKeepsAllocs(s, c);
  }

  lemma PurgeKeeps(s: Server, now: int)
    requires Inv(s)
    ensures Inv(DoPurge(s, now))
  {
    PurgeKeepsIds(s, now);
    PurgeKeepsAllocs(s, now);
  }

  lemma DropAllocKeeps(s: Server, id: string)
    requires Inv(s)
    ensures Inv(DoDropAlloc(s, id))
  {
    DropAllocKeepsTokens(s, id);
    DropAllocKeepsAllocs(s, id);
    DropAllocKeepsAttached(s, id);
  }

  lemma DropAllocKeepsTokens(s: Server, id: string)
    requires TokensInv(s)
    ensures TokensInv(DoDropAlloc(s, id))
  {
  }

  lemma EndKeeps(s: Server, a: Action)
    requires Inv(s) && (a.Abort? || a.Forget?)
    ensures Inv(Step(s, a))
  {
    EndKeepsIds(s, a);
    EndKeepsAllocs(s, a);
  }

  lemma StartKeeps(s: Server, a: Action)
    requires Inv(s) && (a.Hello? || a.ClaimBy?)
    ensures Inv(Step(s, a))
  {
    match a {
      case Hello(c, id, principal, token, alloc) =>
        HelloKeepsIds(s, c, id, principal, token, alloc);
        HelloKeepsTokens(s, c, id, principal, token, alloc);
        HelloKeepsAllocs(s, c, id, principal, token, alloc);
        HelloKeepsAttached(s, c, id, principal, token, alloc);
      case ClaimBy(c, id, token, principal, now) =>
        ClaimKeepsIds(s, c, id, token, principal, now);
        ClaimKeepsTokens(s, c, id, token, principal, now);
        ClaimKeepsAllocs(s, c, id, token, principal, now);
        ClaimKeepsAttached(s, c, id, token, principal, now);
    }
  }

  lemma FinishKeeps(s: Server, c: nat, token: nat, alloc: nat)
    requires Inv(s)
    ensures Inv(DoFinish(s, c, token, alloc))
  {
    FinishKeepsIds(s, c, token, alloc);
    FinishKeepsTokens(s, c, token, alloc);
    FinishKeepsAllocs(s, c, token, alloc);
  }

  lemma NextKeeps(s: Server, alloc: nat)
    requires Inv(s)
    ensures Inv(DoNext(s, alloc))
  {
    NextKeepsAllocs(s, alloc);
    NextKeepsAttached(s, alloc);
  }

  lemma DropKeeps(s: Server, c: nat, expiresAt: int)
    requires Inv(s)
    ensures Inv(DoDrop(s, c, expiresAt))
  {
    DropKeepsIds(s, c, expiresAt);
    DropKeepsAllocs(s, c, expiresAt);
  }

  lemma StepKeepsInv(s: Server, a: Action)
    requires Inv(s)
    ensures Inv(Step(s, a))
  {
    if a.Hello? || a.ClaimBy? {
      StartKeeps(s, a);
    } else if a.FinishResume? {
      FinishKeeps(s, a.c, a.token, a.alloc);
    } else if a.NextSeq? {
      NextKeeps(s, a.alloc);
    } else if a.Drop? {
      DropKeeps(s, a.c, a.expiresAt);
    } else if a.Bye? {
      ByeKeeps(s, a.c);
    } else if a.Purge? {
      PurgeKeeps(s, a.now);
    } else if a.DropAlloc? {
      DropAllocKeeps(s, a.id);
    } else {
      EndKeeps(s, a);
    }
  }

  lemma {:induction false} RunKeepsInv(s: Server, acts: seq<Action>)
    requires Inv(s)
    ensures Inv(Run(s, acts))
  {
    if acts != [] {
      RunKeepsInv(s, acts[..|acts| - 1]);
      StepKeepsInv(Run(s, acts[..|acts| - 1]), acts[|acts| - 1]);
    }
  }

  /** Over every run a session id has at most one session, and none while it has a resume
      entry. */
  lemma OneHolderPerId(acts: seq<Action>, c: nat, d: nat)
    requires var s := Run(START, acts); c in s.conns && d in s.conns && s.conns[c].id == s.conns[d].id
    ensures c == d && Run(START, acts).conns[c].id !in Run(START, acts).resumes
  {
    RunKeepsInv(START, acts);
  }

  /** `a` is a claim that succeeds. */
  predicate Succeeds(s: Server, a: Action) {
    a.ClaimBy? && a.c !in s.conns && Judge(s.resumes, a.id, a.token, a.principal, a.now).Claimed?
  }

  lemma StepKeepsSpent(s: Server, a: Action, token: nat)
    ensures token in s.accepted ==> token in Step(s, a).accepted
    ensures Succeeds(s, a) ==> a.token in Step(s, a).accepted
  {
  }

  lemma {:induction false} SpentStays(acts: seq<Action>, i: nat, j: nat)
    requires i < j <= |acts| && Succeeds(Run(START, acts[..i]), acts[i])
    ensures acts[i].token in Run(START, acts[..j]).accepted
  {
    var s := Run(START, acts[..j - 1]);
    assert acts[..j][..j - 1] == acts[..j - 1];
    StepKeepsSpent(s, acts[j - 1], acts[i].token);
    if i < j - 1 {
      SpentStays(acts, i, j - 1);
    }
  }

  /** Over every run a resume token is accepted at most once: no two claims with the same token
      succeed. */
  lemma TokenAcceptedOnce(acts: seq<Action>, i: nat, j: nat)
    requires i < j < |acts|
    requires Succeeds(Run(START, acts[..i]), acts[i]) && Succeeds(Run(START, acts[..j]), acts[j])
    ensures acts[i].token != acts[j].token
  {
    SpentStays(acts, i, j);
    RunKeepsInv(START, acts[..j]);
  }

  /** Over every run, across any number of drops, resumes and purges, all numbers allocated
      for a session id come from one allocator and are 1, 2, 3, ... */
  lemma NumbersNeverRepeat(acts: seq<Action>, a: nat, b: nat)
    requires a in Run(START, acts).allocs && b in Run(START, acts).allocs
    requires Run(START, acts).allocs[a].owner == Run(START, acts).allocs[b].owner
    ensures a == b && Counting(Run(START, acts).allocs[a].issued)
  {
    RunKeepsInv(START, acts);
  }

  /** `id` was used and has neither session nor entry. */
  ghost predicate Dead(s: Server, id: string) {
    id in s.ids && id !in s.resumes && forall c :: c in s.conns ==> s.conns[c].id != id
  }

  lemma {:induction false} DeadStaysDead(s: Server, acts: seq<Action>, id: string)
    requires Dead(s, id)
    ensures Dead(Run(s, acts), id)
  {
    if acts != [] {
      DeadStaysDead(s, acts[..|acts| - 1], id);
      StepKeepsDead(Run(s, acts[..|acts| - 1]), acts[|acts| - 1], id);
    }
  }

  lemma StepKeepsDead(s: Server, a: Action, id: string)
    requires Dead(s, id)
    ensures Dead(Step(s, a), id)
  {
  }

  lemma ClaimThenAbort(s: Server, c: nat, id: string, token: nat, principal: string, now: int)
    requires Exclusive(s) && c !in s.conns && Judge(s.resumes, id, token, principal, now).Claimed?
    ensures Dead(Step(Step(s, ClaimBy(c, id, token, principal, now)), Abort(c)), id)
  {
    assert id in s.resumes;
  }

  /** A claim spends its entry before the gap check: if the handshake then fails, no later
      resume of the session, with any token, can succeed. */
  lemma FailedHandshakeIsFinal(s: Server, c: nat, id: string, token: nat, principal: string, now: int,
                               acts: seq<Action>, token': nat, principal': string, now': int)
    requires Inv(s) && c !in s.conns && Judge(s.resumes, id, token, principal, now).Claimed?
    ensures var s' := Step(Step(s, ClaimBy(c, id, token, principal, now)), Abort(c));
            Judge(Run(s', acts).resumes, id, token', principal', now').NotResumable?
  {
    ClaimThenAbort(s, c, id, token, principal, now);
    DeadStaysDead(Step(Step(s, ClaimBy(c, id, token, principal, now)), Abort(c)), acts, id);
  }

  // ---------------------------------------------------------------- what a session can count on

  /** A fresh hello makes a session with an allocator of its own, at 0. */
  lemma HelloStarts(acts: seq<Action>, c: nat, id: string, principal: string, token: nat, alloc: nat)
    requires var s := Run(START, acts); c !in s.conns && id !in s.ids && token !in s.tokens && alloc !in s.allocs
    ensures var s := Run(START, acts + [Hello(c, id, principal, token, alloc)]);
            && c in s.conns && s.conns[c] == Live(id, principal, token, alloc)
            && alloc in s.allocs && s.allocs[alloc] == Alloc(id, 0, [])
  {
    RunKeepsInv(START, acts);
    RunAppend(acts, Hello(c, id, principal, token, alloc));
  }

  lemma {:induction false} RunAppend(acts: seq<Action>, a: Action)
    ensures Run(START, acts + [a]) == Step(Run(START, acts), a)
  {
    assert (acts + [a])[..|acts|] == acts;
  }

  /** A session's allocator is its id's, and hands out the number after all it has handed out. */
  lemma NextNumber(s: Server, c: nat)
    requires Inv(s) && c in s.conns && s.conns[c].Live?
    ensures var a := s.conns[c].alloc;
            var s' := Step(s, NextSeq(a));
            && a in s.allocs && s.allocs[a].owner == s.conns[c].id && a in s'.allocs
            && s'.allocs[a].issued == s.allocs[a].issued + [|s.allocs[a].issued| + 1]
  {
    assert Attached(s, s.conns[c].id, 0);
  }

  /** The entry of a dropped session waits, with its allocator registered. */
  ghost predicate Waits(s: Server, id: string, entry: Entry, alloc: nat) {
    && id in s.resumes && s.resumes[id] == entry && id in s.ids && id !in s.doomed
    && id in s.seqAllocs && s.seqAllocs[id] == alloc && forall c <- s.conns :: s.conns[c].id != id
  }

  /** Nothing that takes the entry away: no purge or claim after it has expired, and no claim with
      its token by its principal. */
  predicate Spares(a: Action, id: string, entry: Entry) {
    && (a.Purge? ==> a.now <= entry.expiresAt)
    && (a.ClaimBy? ==> a.now <= entry.expiresAt)
    && (a.ClaimBy? && a.id == id ==> a.token != entry.token || a.principal != entry.principal)
  }

  lemma StepKeepsWaiting(s: Server, a: Action, id: string, entry: Entry, alloc: nat)
    requires Waits(s, id, entry, alloc) && Spares(a, id, entry)
    ensures Waits(Step(s, a), id, entry, alloc)
  {
  }

  lemma {:induction false} GoesOnWaiting(s: Server, more: seq<Action>, id: string, entry: Entry, alloc: nat)
    requires Waits(s, id, entry, alloc) && forall a <- more :: Spares(a, id, entry)
    ensures Waits(Run(s, more), id, entry, alloc)
  {
    if more != [] {
      GoesOnWaiting(s, more[..|more| - 1], id, entry, alloc);
      assert more[|more| - 1] in more;
      StepKeepsWaiting(Run(s, more[..|more| - 1]), more[|more| - 1], id, entry, alloc);
    }
  }

  lemma DropWaits(s: Server, c: nat, expiresAt: int)
    requires Inv(s) && c in s.conns && s.conns[c].Live?
    ensures var k := s.conns[c];
            && k.alloc in s.allocs
            && var entry := Entry(k.principal, k.token, s.allocs[k.alloc].val, expiresAt);
               Waits(Step(s, Drop(c, expiresAt)), k.id, entry, k.alloc)
  {
    assert Attached(s, s.conns[c].id, 0);
  }

  /** A right claim succeeds. After a drop, whatever others do and whatever wrong claims are made,
      as long as neither purge nor claim comes after the expiry and nobody has claimed it, a
      claim with the session's token and principal is accepted, and the resumed session has the
      id, the principal and the allocator it had. */
  lemma RightClaimResumes(s: Server, c: nat, expiresAt: int, more: seq<Action>, d: nat, now: int, token: nat, made: nat)
    requires Inv(s) && c in s.conns && s.conns[c].Live? && s.conns[c].alloc in s.allocs && now <= expiresAt
    requires var k := s.conns[c];
             forall a <- more :: Spares(a, k.id, Entry(k.principal, k.token, s.allocs[k.alloc].val, expiresAt))
    requires var w := Run(Step(s, Drop(c, expiresAt)), more); d !in w.conns && token !in w.tokens && made !in w.allocs
    ensures var k := s.conns[c];
            var w := Run(Step(s, Drop(c, expiresAt)), more);
            var claimed := Step(w, ClaimBy(d, k.id, k.token, k.principal, now));
            var resumed := Step(claimed, FinishResume(d, token, made));
            && d in claimed.conns && claimed.conns[d] == Claiming(k.id, k.principal, s.allocs[k.alloc].val)
            && d in resumed.conns && resumed.conns[d] == Live(k.id, k.principal, token, k.alloc)
  {
    var k := s.conns[c];
    var entry := Entry(k.principal, k.token, s.allocs[k.alloc].val, expiresAt);
    DropWaits(s, c, expiresAt);
    GoesOnWaiting(Step(s, Drop(c, expiresAt)), more, k.id, entry, k.alloc);
    ClaimTakes(Run(Step(s, Drop(c, expiresAt)), more), k.id, entry, k.alloc, d, now, token, made);
  }

  lemma ClaimTakes(w: Server, id: string, entry: Entry, alloc: nat, d: nat, now: int, token: nat, made: nat)
    requires Waits(w, id, entry, alloc) && now <= entry.expiresAt
    requires d !in w.conns && token !in w.tokens && made !in w.allocs
    ensures var claimed := Step(w, ClaimBy(d, id, entry.token, entry.principal, now));
            var resumed := Step(claimed, FinishResume(d, token, made));
            && d in claimed.conns && claimed.conns[d] == Claiming(id, entry.principal, entry.seqNo)
            && d in resumed.conns && resumed.conns[d] == Live(id, entry.principal, token, alloc)
  {
    var claimed := Step(w, ClaimBy(d, id, entry.token, entry.principal, now));
    assert claimed == DoClaim(w, d, id, entry.token, entry.principal, now);
    assert claimed.seqAllocs == w.seqAllocs && claimed.allocs == w.allocs && claimed.tokens == w.tokens;
  }
}
