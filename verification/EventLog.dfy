/**
  The per-session event log (internal/eventlog/eventlog.go) and the gap check a resume
  makes against it (server/session.go, handshake). Storage timestamps are left out.
 */
module EventLog {
  import opened Base

  datatype Entry = Entry(sessionId: string, seqNo: nat, jobId: string, payload: string)

  // ---------------------------------------------------------------- one session's list

  function Kept(entries: seq<Entry>, max: nat): seq<Entry> {
    if |entries| > max then entries[|entries| - max..] else entries
  }

  /** The entries numbered above `from`, in log order. */
  function Above(entries: seq<Entry>, from: nat): seq<Entry> {
    if entries == [] then []
    else
      var last := entries[|entries| - 1];
      Above(entries[..|entries| - 1], from) + if last.seqNo > from then [last] else []
  }

  predicate IsOldest(entries: seq<Entry>, n: nat) {
    && (exists e <- entries :: e.seqNo == n)
    && (forall e <- entries :: n <= e.seqNo)
  }

  /** eventlog.Memory: every method holds the mutex for its whole body. */
  class Memory {
    var bySess: map<string, seq<Entry>>
    const max: nat

    function Of(id: string): seq<Entry>
      reads this
    {
      if id in bySess then bySess[id] else []
    }

    constructor (maxPerSession: int)
      ensures bySess == map[] && max == if maxPerSession <= 0 then 10_000 else maxPerSession
    {
      bySess := map[];
      max := if maxPerSession <= 0 then 10_000 else maxPerSession;
    }

    method Append(e: Entry)
      modifies this
      ensures Of(e.sessionId) == Kept(old(Of(e.sessionId)) + [e], max)
      ensures var all := old(Of(e.sessionId)) + [e];
              Of(e.sessionId) == all[if |all| <= max then 0 else |all| - max..]
      ensures forall id :: id != e.sessionId ==> Of(id) == old(Of(id))
    {
      var entries := if e.sessionId in bySess then bySess[e.sessionId] else [];
      entries := entries + [e];
      if |entries| > max {
        var drop := |entries| - max;
        entries := entries[drop..];
      }
      bySess := bySess[e.sessionId := entries];
    }

    method Since(id: string, from: nat) returns (out: seq<Entry>)
      ensures out == Above(Of(id), from)
      ensures forall e :: e in out <==> e in Of(id) && e.seqNo > from
    {
      var src := Of(id);
      out := [];
      for i := 0 to |src|
        invariant out == Above(src[..i], from)
      {
        assert src[..i + 1][..i] == src[..i];
        if src[i].seqNo > from {
          out := out + [src[i]];
        }
      }
      assert src[..|src|] == src;
      NothingAbove(src, from);
    }

    method Oldest(id: string) returns (n: nat, ok: bool)
      ensures ok <==> Of(id) != []
      ensures ok ==> IsOldest(Of(id), n)
    {
      var entries := Of(id);
      if |entries| == 0 {
        return 0, false;
      }
      n := entries[0].seqNo;
      for i := 1 to |entries|
        invariant exists e <- entries :: e.seqNo == n
        invariant forall k :: 0 <= k < i ==> n <= entries[k].seqNo
      {
        if entries[i].seqNo < n {
          n := entries[i].seqNo;
        }
      }
      ok := true;
    }

    /** A fully trimmed session leaves no key behind. */
    method Trim(id: string, before: nat)
      modifies this
      ensures Of(id) == Above(old(Of(id)), before)
      ensures Of(id) == [] <==> id !in bySess
      ensures forall other :: other != id ==>
                (other in bySess <==> other in old(bySess)) && Of(other) == old(Of(other))
    {
      var kept := Since(id, before);
      if |kept| == 0 {
        bySess := map s | s in bySess && s != id :: bySess[s];
      } else {
        bySess := bySess[id := kept];
      }
    }

    /** The gap check of a resuming handshake; `last + 1` wraps as a uint64 does. */
    method ResumeCovered(id: string, last: nat) returns (accepted: bool)
      ensures accepted <==> Accepted(Of(id), last)
      ensures accepted <==> last == 0 || Of(id) == [] || exists e <- Of(id) :: e.seqNo <= (last + 1) % U64
    {
      if last > 0 {
        var oldest, ok := Oldest(id);
        if ok && oldest > Succ(last) {
          return false;
        }
      }
      accepted := true;
    }
  }

  /** The number after `n`, as a uint64 sum. */
  function Succ(n: nat): (m: nat)
    ensures m <= n + 1 && (n + 1 < U64 ==> m == n + 1)
  {
    (n + 1) % U64
  }

  ghost predicate Accepted(log: seq<Entry>, last: nat) {
    last > 0 && log != [] ==> exists e <- log :: e.seqNo <= Succ(last)
  }

  // ---------------------------------------------------------------- whole histories

  datatype Op = Append(e: Entry) | Trim(before: nat)

  /** The retained list together with everything ever appended. */
  datatype Logged = Logged(log: seq<Entry>, history: seq<Entry>)

  function Exec(max: nat, s: Logged, op: Op): Logged {
    match op
    case Append(e) => Logged(Kept(s.log + [e], max), s.history + [e])
    case Trim(before) => s.(log := Above(s.log, before))
  }

  function Run(max: nat, ops: seq<Op>): Logged {
    if ops == [] then Logged([], []) else Exec(max, Run(max, ops[..|ops| - 1]), ops[|ops| - 1])
  }

  ghost predicate InOrder(entries: seq<Entry>) {
    forall i, j :: 0 <= i < j < |entries| ==> entries[i].seqNo < entries[j].seqNo
  }

  ghost predicate IsSuffix(log: seq<Entry>, history: seq<Entry>) {
    |log| <= |history| && log == history[|history| - |log|..]
  }

  lemma SliceInOrder(entries: seq<Entry>, a: nat, b: nat)
    requires InOrder(entries) && a <= b <= |entries|
    ensures InOrder(entries[a..b])
  {
  }

  lemma CutSnoc(entries: seq<Entry>, k: nat)
    requires k < |entries|
    ensures entries[k..] == entries[..|entries| - 1][k..] + [entries[|entries| - 1]]
  {
  }

  /** On an ordered list the filter is a cut. */
  lemma {:induction false} AboveIsCut(entries: seq<Entry>, from: nat) returns (k: nat)
    requires InOrder(entries)
    ensures k <= |entries| && Above(entries, from) == entries[k..]
    ensures forall i :: 0 <= i < |entries| ==> (i < k <==> entries[i].seqNo <= from)
  {
    var n := |entries|;
    k := 0;
    if n > 0 {
      var front := entries[..n - 1];
      SliceInOrder(entries, 0, n - 1);
      k := AboveIsCut(front, from);
      CutSnoc(entries, k);
      if entries[n - 1].seqNo <= from {
        assert k == n - 1;
        k := n;
      }
    }
  }

  /** With appends in sequence order, whatever the mix of appends, evictions and trims, the
      log is a suffix of everything ever appended. */
  lemma {:induction false} LogIsSuffixOfHistory(max: nat, ops: seq<Op>)
    requires InOrder(Run(max, ops).history)
    ensures IsSuffix(Run(max, ops).log, Run(max, ops).history)
  {
    if ops != [] {
      var before := Run(max, ops[..|ops| - 1]);
      var h := before.history;
      var after := Run(max, ops);
      assert h == after.history[..|h|];
      SliceInOrder(after.history, 0, |h|);
      LogIsSuffixOfHistory(max, ops[..|ops| - 1]);
      ExecKeepsSuffix(max, before, ops[|ops| - 1]);
    }
  }

  lemma ExecKeepsSuffix(max: nat, s: Logged, op: Op)
    requires InOrder(s.history) && IsSuffix(s.log, s.history)
    ensures IsSuffix(Exec(max, s, op).log, Exec(max, s, op).history)
  {
    var d := |s.history| - |s.log|;
    match op {
      case Append(e) =>
        assert s.log + [e] == (s.history + [e])[d..];
      case Trim(n) =>
        SliceInOrder(s.history, d, |s.history|);
        assert s.log == s.history[d..|s.history|];
        var k := AboveIsCut(s.log, n);
    }
  }

  lemma {:induction false} AboveDistributes(a: seq<Entry>, b: seq<Entry>, from: nat)
    ensures Above(a + b, from) == Above(a, from) + Above(b, from)
  {
    if b == [] {
      assert a + b == a;
    } else {
      var b' := b[..|b| - 1];
      assert (a + b)[..|a + b| - 1] == a + b';
      AboveDistributes(a, b', from);
    }
  }

  lemma {:induction false} NothingAbove(entries: seq<Entry>, from: nat)
    ensures Above(entries, from) == [] <==> forall e <- entries :: e.seqNo <= from
    ensures forall e :: e in Above(entries, from) <==> e in entries && e.seqNo > from
  {
    if entries != [] {
      NothingAbove(entries[..|entries| - 1], from);
      assert entries == entries[..|entries| - 1] + [entries[|entries| - 1]];
    }
  }

  /** The replay above `last` is complete iff no dropped entry lies above it. */
  lemma ReplayCompleteIff(log: seq<Entry>, history: seq<Entry>, last: nat)
    requires IsSuffix(log, history)
    ensures Above(log, last) == Above(history, last)
       <==> forall e <- history[..|history| - |log|] :: e.seqNo <= last
  {
    var dropped := history[..|history| - |log|];
    assert history == dropped + log;
    AboveDistributes(dropped, log, last);
    NothingAbove(dropped, last);
  }

  // ---------------------------------------------------------------- the gap check, exactly

  /** The entries evicted or trimmed so far, when the log is a suffix of the history. */
  function Lost(s: Logged): seq<Entry> {
    if |s.log| <= |s.history| then s.history[..|s.history| - |s.log|] else []
  }

  ghost predicate Suffixed(s: Logged) {
    InOrder(s.history) && IsSuffix(s.log, s.history)
  }

  /** A replay from `last` brings back every entry ever logged above it. */
  ghost predicate CompleteFrom(s: Logged, last: nat) {
    Above(s.log, last) == Above(s.history, last)
  }

  /** Something above `last` has been dropped. */
  predicate LostAbove(s: Logged, last: nat) {
    Lost(s) != [] && Lost(s)[|Lost(s)| - 1].seqNo > last
  }

  lemma CompleteIff(s: Logged, last: nat)
    requires Suffixed(s)
    ensures CompleteFrom(s, last) <==> !LostAbove(s, last)
  {
    ReplayCompleteIff(s.log, s.history, last);
    var lost := Lost(s);
    if lost != [] {
      assert lost[|lost| - 1] in lost;
      forall i | 0 <= i < |lost| ensures lost[i].seqNo <= lost[|lost| - 1].seqNo {
        assert lost[i] == s.history[i] && lost[|lost| - 1] == s.history[|lost| - 1];
      }
    }
  }

  /** On an ordered log the check looks at the first entry only. */
  lemma AcceptsByFirst(s: Logged, last: nat)
    requires Suffixed(s)
    ensures Accepted(s.log, last) <==> last == 0 || s.log == [] || s.log[0].seqNo <= Succ(last)
  {
    if s.log != [] {
      assert s.log[0] in s.log;
      var d := |s.history| - |s.log|;
      forall i | 0 <= i < |s.log| ensures s.log[0].seqNo <= s.log[i].seqNo {
        assert s.log[i] == s.history[d + i] && s.log[0] == s.history[d];
      }
    }
  }

  /** Nothing dropped lies beyond what the check tolerates. */
  lemma FirstAfterLost(s: Logged, last: nat)
    requires Suffixed(s) && s.log != [] && s.log[0].seqNo <= Succ(last)
    ensures !LostAbove(s, last)
  {
    var d := |s.history| - |s.log|;
    assert s.log[0] == s.history[d];
    assert d > 0 ==> Lost(s)[d - 1] == s.history[d - 1];
  }

  /** Section 6.3: a resume accepted against a non-empty log replays every event ever logged
      above last_event_seq, in order. */
  lemma AcceptedResumeReplaysAll(max: nat, ops: seq<Op>, last: nat)
    requires InOrder(Run(max, ops).history)
    requires last > 0 && Run(max, ops).log != [] && Accepted(Run(max, ops).log, last)
    ensures CompleteFrom(Run(max, ops), last) && InOrder(Above(Run(max, ops).log, last))
  {
    LogIsSuffixOfHistory(max, ops);
    AcceptsByFirst(Run(max, ops), last);
    FirstAfterLost(Run(max, ops), last);
    CompleteIff(Run(max, ops), last);
    ReplayInOrder(Run(max, ops), last);
  }

  lemma ReplayInOrder(s: Logged, last: nat)
    requires Suffixed(s)
    ensures InOrder(Above(s.log, last))
  {
    var d := |s.history| - |s.log|;
    assert s.log == s.history[d..|s.history|];
    SliceInOrder(s.history, d, |s.history|);
    var k := AboveIsCut(s.log, last);
    SliceInOrder(s.log, k, |s.log|);
    assert s.log[k..|s.log|] == s.log[k..];
  }

  /** With appends in order, whatever numbers were never logged: an accepted resume replays a
      silently truncated stream iff the check did not look (last_event_seq 0, or nothing
      retained) and an entry above last_event_seq has been dropped. */
  lemma SilentTruncationIff(max: nat, ops: seq<Op>, last: nat)
    requires InOrder(Run(max, ops).history)
    ensures (Accepted(Run(max, ops).log, last) && !CompleteFrom(Run(max, ops), last))
       <==> ((last == 0 || Run(max, ops).log == []) && LostAbove(Run(max, ops), last))
  {
    LogIsSuffixOfHistory(max, ops);
    var s := Run(max, ops);
    CompleteIff(s, last);
    AcceptsByFirst(s, last);
    if s.log != [] && s.log[0].seqNo <= Succ(last) {
      FirstAfterLost(s, last);
    }
  }

  /** The check rejects a resume that has lost nothing iff the oldest retained entry lies
      beyond last_event_seq + 1 (a uint64 sum) although nothing above last_event_seq was
      dropped: the numbers between were never logged, or the sum wrapped. */
  lemma WrongfulRejectionIff(max: nat, ops: seq<Op>, last: nat)
    requires InOrder(Run(max, ops).history)
    ensures (!Accepted(Run(max, ops).log, last) && CompleteFrom(Run(max, ops), last))
       <==> (last > 0 && FirstBeyond(Run(max, ops).log, Succ(last)) && !LostAbove(Run(max, ops), last))
  {
    LogIsSuffixOfHistory(max, ops);
    CompleteIff(Run(max, ops), last);
    AcceptsByFirst(Run(max, ops), last);
  }

  predicate FirstBeyond(log: seq<Entry>, n: nat) {
    log != [] && log[0].seqNo > n
  }

  /** Every number from 1 on was logged. */
  ghost predicate Gapless(history: seq<Entry>) {
    forall i :: 0 <= i < |history| ==> history[i].seqNo == i + 1
  }

  lemma GaplessFirst(s: Logged, last: nat)
    requires Gapless(s.history) && IsSuffix(s.log, s.history) && s.log != []
    ensures s.log[0].seqNo == |Lost(s)| + 1 && (LostAbove(s, last) <==> |Lost(s)| > last)
  {
    var d := |s.history| - |s.log|;
    assert s.log[0] == s.history[d];
    assert d > 0 ==> Lost(s)[d - 1] == s.history[d - 1];
  }

  /** So when every number was logged the check rejects a resume it looks at exactly when an
      event above last_event_seq was dropped, or when last_event_seq is the largest uint64
      and the sum wraps. */
  lemma GapCheckIsExact(max: nat, ops: seq<Op>, last: nat)
    requires Gapless(Run(max, ops).history) && |Run(max, ops).history| < U64
    requires 0 < last < U64 && Run(max, ops).log != []
    ensures !Accepted(Run(max, ops).log, last) <==> !CompleteFrom(Run(max, ops), last) || last == U64 - 1
  {
    LogIsSuffixOfHistory(max, ops);
    var s := Run(max, ops);
    AcceptsByFirst(s, last);
    CompleteIff(s, last);
    GaplessFirst(s, last);
    assert Succ(U64 - 1) == 0;
  }

  // ---------------------------------------------------------------- appends out of order

  /** Every event ever logged above `last` is still there to be replayed. */
  ghost predicate ReplaysAll(s: Logged, last: nat) {
    forall e <- s.history :: e.seqNo > last ==> e in Above(s.log, last)
  }

  /** `d` is still there, or so old that no resume the check looks at can want it and be
      accepted. */
  ghost predicate Harmless(log: seq<Entry>, d: Entry) {
    d in log || d.seqNo <= 1 || (log != [] && forall e <- log :: d.seqNo < e.seqNo)
  }

  lemma HarmlessReplays(s: Logged, last: nat)
    requires (forall d <- s.history :: Harmless(s.log, d)) && last > 0 && Accepted(s.log, last)
    ensures ReplaysAll(s, last)
  {
    NothingAbove(s.log, last);
    forall d | d in s.history && d.seqNo > last ensures d in s.log {
      assert Harmless(s.log, d);
    }
  }

  /** Otherwise the resume from just below the dropped number is accepted and misses it. */
  lemma HarmfulIsMissed(s: Logged, d: Entry)
    requires d in s.history && !Harmless(s.log, d) && d.seqNo < U64
    ensures Accepted(s.log, d.seqNo - 1) && !ReplaysAll(s, d.seqNo - 1)
  {
    NothingAbove(s.log, d.seqNo - 1);
  }

  /** Whatever the order of appends: every accepted resume that the check looks at replays
      everything above it iff each dropped number is at most 1 or lies below every retained
      number. */
  lemma AcceptedReplaysAllIff(max: nat, ops: seq<Op>)
    requires forall e <- Run(max, ops).history :: e.seqNo < U64
    ensures (forall last :: 0 < last < U64 - 1 && Accepted(Run(max, ops).log, last) ==> ReplaysAll(Run(max, ops), last))
       <==> (forall d <- Run(max, ops).history :: Harmless(Run(max, ops).log, d))
  {
    var s := Run(max, ops);
    if d :| d in s.history && !Harmless(s.log, d) {
      HarmfulIsMissed(s, d);
    } else {
      forall last: nat | 0 < last < U64 - 1 && Accepted(s.log, last) ensures ReplaysAll(s, last) {
        HarmlessReplays(s, last);
      }
    }
  }

  /** The order of appends matters: with 2 logged before 1 and room for one entry, a resume
      from 1 is accepted and never sees 2. */
  lemma OutOfOrderLosesEvents() returns (ops: seq<Op>, lost: Entry)
    ensures Accepted(Run(1, ops).log, 1)
    ensures lost in Run(1, ops).history && lost.seqNo > 1 && Above(Run(1, ops).log, 1) == []
  {
    var e := Entry("s", 1, "j", "");
    lost := Entry("s", 2, "j", "");
    ops := [Append(lost), Append(e)];
    assert ops[..1] == [Append(lost)] && [Append(lost)][..0] == [];
    assert Run(1, [Append(lost)]) == Logged([lost], [lost]);
    assert Run(1, ops) == Logged([e], [lost, e]);
    assert Above([e], 1) == [] by { assert [e][..0] == []; }
    assert e in Run(1, ops).log;
  }

  /** A number that is allocated but never logged (a credential rotation): 2 was never logged
      and 1 was acked, and the resume from 1 is rejected although it has lost nothing. */
  lemma UnloggedNumberRejects() returns (ops: seq<Op>)
    ensures InOrder(Run(9, ops).history)
    ensures !Accepted(Run(9, ops).log, 1)
    ensures Above(Run(9, ops).log, 1) == Above(Run(9, ops).history, 1)
  {
    var e1, e3 := Entry("s", 1, "j", ""), Entry("s", 3, "j", "");
    var first, second := [Append(e1)], [Append(e1), Append(e3)];
    ops := [Append(e1), Append(e3), Trim(1)];
    assert first[..0] == [] && second[..1] == first && ops[..2] == second;
    assert Run(9, first) == Logged([e1], [e1]);
    assert Run(9, second) == Logged([e1, e3], [e1, e3]);
    FilterFirst(e1, e3);
    assert Run(9, ops) == Logged([e3], [e1, e3]);
  }

  lemma FilterFirst(a: Entry, b: Entry)
    requires a.seqNo <= 1 < b.seqNo
    ensures Above([a, b], 1) == [b] && Above([b], 1) == [b]
  {
    assert [a, b][..1] == [a] && [a][..0] == [] && [b][..0] == [];
    assert Above([a], 1) == [];
  }

  // ---------------------------------------------------------------- between check and replay

  lemma {:induction false} HistoryGrows(max: nat, ops: seq<Op>, more: seq<Op>)
    ensures Run(max, ops).history <= Run(max, ops + more).history
  {
    if more == [] {
      assert ops + more == ops;
    } else {
      HistoryGrows(max, ops, more[..|more| - 1]);
      assert (ops + more)[..|ops + more| - 1] == ops + more[..|more| - 1];
    }
  }

  lemma {:induction false} LostGrows(max: nat, ops: seq<Op>, more: seq<Op>)
    requires InOrder(Run(max, ops + more).history)
    ensures Lost(Run(max, ops)) <= Lost(Run(max, ops + more))
  {
    if more == [] {
      assert ops + more == ops;
    } else {
      var front := more[..|more| - 1];
      assert (ops + more)[..|ops + more| - 1] == ops + front;
      assert ops + more == ops + front + [more[|more| - 1]];
      LogIsSuffixOfHistory(max, ops + more);
      PrefixSuffixed(max, ops + front, [more[|more| - 1]]);
      StepLoses(max, Run(max, ops + front), more[|more| - 1]);
      LostGrows(max, ops, front);
    }
  }

  lemma StepLoses(max: nat, s: Logged, op: Op)
    requires Suffixed(s) && Suffixed(Exec(max, s, op))
    ensures Lost(s) <= Lost(Exec(max, s, op))
  {
    var after := Exec(max, s, op);
    assert |after.history| - |after.log| >= |s.history| - |s.log| by {
      if op.Trim? {
        AboveShrinks(s.log, op.before);
      }
    }
    assert after.history[..|s.history|] == s.history;
  }

  lemma {:induction false} AboveShrinks(entries: seq<Entry>, from: nat)
    ensures |Above(entries, from)| <= |entries|
  {
    if entries != [] {
      AboveShrinks(entries[..|entries| - 1], from);
    }
  }

  lemma PrefixSuffixed(max: nat, ops: seq<Op>, more: seq<Op>)
    requires InOrder(Run(max, ops + more).history)
    ensures Suffixed(Run(max, ops))
  {
    HistoryGrows(max, ops, more);
    var n := |Run(max, ops).history|;
    SliceInOrder(Run(max, ops + more).history, 0, n);
    assert Run(max, ops).history == Run(max, ops + more).history[0..n];
    LogIsSuffixOfHistory(max, ops);
  }

  /** The gap check looks at the log during the handshake and the replay reads it later. A
      resume accepted by a check that looked misses an event iff, in between, one above
      last_event_seq is dropped. */
  lemma EvictedAfterCheckIff(max: nat, ops: seq<Op>, more: seq<Op>, last: nat)
    requires InOrder(Run(max, ops + more).history)
    requires last > 0 && Run(max, ops).log != [] && Accepted(Run(max, ops).log, last)
    ensures Lost(Run(max, ops)) <= Lost(Run(max, ops + more))
    ensures !CompleteFrom(Run(max, ops + more), last)
       <==> LostAbove(Run(max, ops + more), last) && |Lost(Run(max, ops + more))| > |Lost(Run(max, ops))|
  {
    PrefixSuffixed(max, ops, more);
    LogIsSuffixOfHistory(max, ops + more);
    LostGrows(max, ops, more);
    AcceptsByFirst(Run(max, ops), last);
    FirstAfterLost(Run(max, ops), last);
    CompleteIff(Run(max, ops + more), last);
  }

  function Appends(es: seq<Entry>): (ops: seq<Op>)
    ensures |ops| == |es|
  {
    seq(|es|, i requires 0 <= i < |es| => Append(es[i]))
  }

  lemma KeptSnoc(a: seq<Entry>, e: Entry, max: nat)
    ensures Kept(Kept(a, max) + [e], max) == Kept(a + [e], max)
  {
  }

  lemma {:induction false} WithinBound(max: nat, ops: seq<Op>)
    ensures |Run(max, ops).log| <= max
  {
    if ops != [] {
      WithinBound(max, ops[..|ops| - 1]);
      if ops[|ops| - 1].Trim? {
        AboveShrinks(Run(max, ops[..|ops| - 1]).log, ops[|ops| - 1].before);
      }
    }
  }

  lemma {:induction false} RunSnoc(max: nat, ops: seq<Op>, op: Op)
    ensures Run(max, ops + [op]) == Exec(max, Run(max, ops), op)
  {
    assert (ops + [op])[..|ops|] == ops;
  }

  lemma AppendsSnoc(ops: seq<Op>, front: seq<Entry>, e: Entry)
    ensures ops + Appends(front + [e]) == (ops + Appends(front)) + [Append(e)]
  {
  }

  lemma AppendOne(max: nat, s: Logged, front: seq<Entry>, e: Entry)
    ensures Exec(max, Logged(Kept(s.log + front, max), s.history + front), Append(e))
         == Logged(Kept(s.log + (front + [e]), max), s.history + (front + [e]))
  {
    KeptSnoc(s.log + front, e, max);
    assert s.log + (front + [e]) == (s.log + front) + [e];
    assert s.history + (front + [e]) == (s.history + front) + [e];
  }

  lemma {:induction false} LogAfterAppends(max: nat, ops: seq<Op>, es: seq<Entry>)
    ensures Run(max, ops + Appends(es))
         == Logged(Kept(Run(max, ops).log + es, max), Run(max, ops).history + es)
  {
    var s := Run(max, ops);
    if es == [] {
      WithinBound(max, ops);
      assert ops + Appends(es) == ops;
      assert s.log + es == s.log && s.history + es == s.history;
    } else {
      var front, e := es[..|es| - 1], es[|es| - 1];
      assert es == front + [e];
      LogAfterAppends(max, ops, front);
      AppendsSnoc(ops, front, e);
      RunSnoc(max, ops + Appends(front), Append(e));
      AppendOne(max, s, front, e);
    }
  }

  /** A client that is away acks nothing, so between check and replay there are only appends.
      Then the accepted resume misses an event iff they push out more than the bound holds
      and the last entry pushed out lies above last_event_seq. */
  lemma AwayTooLongIff(max: nat, ops: seq<Op>, es: seq<Entry>, last: nat)
    requires InOrder(Run(max, ops).history + es)
    requires last > 0 && Run(max, ops).log != [] && Accepted(Run(max, ops).log, last)
    ensures !CompleteFrom(Run(max, ops + Appends(es)), last) <==> PushesOut(Run(max, ops).log + es, max, last)
  {
    LogAfterAppends(max, ops, es);
    PrefixSuffixed(max, ops, Appends(es));
    LogIsSuffixOfHistory(max, ops + Appends(es));
    OverflowMisses(Run(max, ops), Run(max, ops + Appends(es)), es, max, last);
  }

  predicate PushesOut(held: seq<Entry>, max: nat, last: nat) {
    |held| > max && held[|held| - max - 1].seqNo > last
  }

  lemma OverflowMisses(s: Logged, now: Logged, es: seq<Entry>, max: nat, last: nat)
    requires Suffixed(s) && last > 0 && s.log != [] && Accepted(s.log, last)
    requires Suffixed(now) && now == Logged(Kept(s.log + es, max), s.history + es)
    ensures !CompleteFrom(now, last) <==> PushesOut(s.log + es, max, last)
  {
    CompleteIff(now, last);
    assert !LostAbove(s, last) by {
      AcceptsByFirst(s, last);
      FirstAfterLost(s, last);
    }
    OverflowLost(s, es, max, last);
  }

  lemma OverflowLost(s: Logged, es: seq<Entry>, max: nat, last: nat)
    requires Suffixed(s)
    ensures var now := Logged(Kept(s.log + es, max), s.history + es);
            var over := |s.log| + |es| - max;
            if over > 0 then LostAbove(now, last) <==> (s.log + es)[over - 1].seqNo > last else Lost(now) == Lost(s)
  {
    var d := |s.history| - |s.log|;
    var over := |s.log| + |es| - max;
    assert s.history + es == s.history[..d] + (s.log + es);
    if over > 0 {
      assert (s.history + es)[d + over - 1] == (s.log + es)[over - 1];
    }
  }
}
