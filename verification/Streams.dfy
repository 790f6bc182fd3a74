/**
  Streamed results: the chunk writer (server/jobcontext.go, streamedResult) against the
  client's reassembler (client/handle.go: CollectChunks, assembleChunks).
 */
module Streams {
  import opened Base
  import opened Codec

  datatype Encoding = Utf8 | Base64 | Unknown(name: string)

  datatype Chunk = Chunk(resultId: nat, seqNo: nat, data: bytes, encoding: Encoding, more: bool)

  function Flatten(pieces: seq<bytes>): bytes {
    if pieces == [] then [] else Flatten(pieces[..|pieces| - 1]) + pieces[|pieces| - 1]
  }

  lemma {:induction false} FlattenAppend(a: seq<bytes>, b: seq<bytes>)
    ensures Flatten(a + b) == Flatten(a) + Flatten(b)
  {
    if b == [] {
      assert a + b == a;
    } else {
      FlattenAppend(a, b[..|b| - 1]);
      assert (a + b)[..|a + b| - 1] == a + b[..|b| - 1];
    }
  }

  // ---------------------------------------------------------------- the writer

  /** `max` <= 0 means uncapped. */
  datatype Config = Config(resultId: nat, encoding: Encoding, max: int, chunkSize: int)

  datatype Stream = Stream(seqNo: nat, size: nat, closed: bool, emitted: seq<Chunk>)

  const OPEN := Stream(0, 0, false, [])

  function Text(e: Encoding, segment: bytes): bytes {
    match e
    case Utf8 => segment
    case Base64 => Encode(segment)
    case Unknown(_) => []
  }

  function Limit(cfg: Config, p: bytes): nat {
    if cfg.chunkSize <= 0 then |p| else cfg.chunkSize
  }

  /** `p` cut into segments of `limit` bytes, the last one possibly shorter. */
  function Pieces(p: bytes, limit: nat): seq<bytes> {
    if p == [] || limit == 0 then []
    else
      var n := if |p| < limit then |p| else limit;
      [p[..n]] + Pieces(p[n..], limit)
  }

  function ChunkAt(cfg: Config, n: nat, piece: bytes): Chunk {
    Chunk(cfg.resultId, n, Text(cfg.encoding, piece), cfg.encoding, true)
  }

  function ChunksOf(cfg: Config, first: nat, pieces: seq<bytes>): seq<Chunk> {
    seq(|pieces|, i requires 0 <= i < |pieces| => ChunkAt(cfg, first + i, pieces[i]))
  }

  predicate Accepts(cfg: Config, s: Stream, p: bytes) {
    !s.closed && !(cfg.max > 0 && s.size + |p| > cfg.max)
  }

  function AfterWrite(cfg: Config, s: Stream, p: bytes): Stream {
    if !Accepts(cfg, s, p) then s
    else
      var pieces := Pieces(p, Limit(cfg, p));
      Stream(s.seqNo + |pieces|, s.size + |p|, false, s.emitted + ChunksOf(cfg, s.seqNo, pieces))
  }

  function AfterClose(cfg: Config, s: Stream): Stream {
    if s.closed then s
    else s.(closed := true, emitted := s.emitted + [Chunk(cfg.resultId, s.seqNo, [], cfg.encoding, false)])
  }

  lemma NextPiece(p: bytes, w: nat, end: nat, limit: nat)
    requires w < |p| && limit > 0 && end == if w + limit > |p| then |p| else w + limit
    ensures Pieces(p[w..], limit) == [p[w..end]] + Pieces(p[end..], limit)
  {
    assert p[w..][..end - w] == p[w..end] && p[w..][end - w..] == p[end..];
  }

  lemma ChunksSnoc(cfg: Config, first: nat, pieces: seq<bytes>, piece: bytes)
    ensures ChunksOf(cfg, first, pieces + [piece])
         == ChunksOf(cfg, first, pieces) + [ChunkAt(cfg, first + |pieces|, piece)]
  {
  }

  /** streamedResult; every method holds its mutex. */
  class StreamedResult {
    const cfg: Config
    var seqNo: nat
    var size: nat
    var closed: bool
    var emitted: seq<Chunk>

    function View(): Stream
      reads this
    {
      Stream(seqNo, size, closed, emitted)
    }

    constructor (cfg: Config)
      ensures this.cfg == cfg && View() == OPEN
    {
      this.cfg, seqNo, size, closed, emitted := cfg, 0, 0, false, [];
    }

    /** All or nothing: an open stream takes what a positive cap leaves room for. */
    method Write(p: bytes) returns (n: nat, ok: bool)
      modifies this
      ensures ok <==> !old(closed) && (cfg.max <= 0 || old(size) + |p| <= cfg.max)
      ensures n == (if ok then |p| else 0) && size == old(size) + n
      ensures !ok ==> View() == old(View())
      ensures View() == AfterWrite(cfg, old(View()), p)
    {
      if closed {
        return 0, false;
      }
      if cfg.max > 0 && size + |p| > cfg.max {
        return 0, false;
      }
      if |p| == 0 {
        return 0, true;
      }
      EmitSegments(p, if cfg.chunkSize <= 0 then |p| else cfg.chunkSize);
      return |p|, true;
    }

    /** The loop of Write. */
    method EmitSegments(p: bytes, limit: nat)
      requires limit > 0
      modifies this`seqNo, this`size, this`emitted
      ensures seqNo == old(seqNo) + |Pieces(p, limit)| && size == old(size) + |p|
      ensures emitted == old(emitted) + ChunksOf(cfg, old(seqNo), Pieces(p, limit))
    {
      var written := 0;
      ghost var done: seq<bytes> := [];
      assert p[0..] == p;
      while written < |p|
        invariant 0 <= written <= |p|
        invariant Pieces(p, limit) == done + Pieces(p[written..], limit)
        invariant seqNo == old(seqNo) + |done| && size == old(size) + written
        invariant emitted == old(emitted) + ChunksOf(cfg, old(seqNo), done)
      {
        var end := written + limit;
        if end > |p| {
          end := |p|;
        }
        var segment := p[written..end];
        NextPiece(p, written, end, limit);
        ChunksSnoc(cfg, old(seqNo), done, segment);
        var chunk := Chunk(cfg.resultId, seqNo, Text(cfg.encoding, segment), cfg.encoding, true);
        Reassociate(done, [segment], Pieces(p[end..], limit));
        Reassociate(old(emitted), ChunksOf(cfg, old(seqNo), done), [chunk]);
        emitted := emitted + [chunk];
        seqNo := seqNo + 1;
        size := size + |segment|;
        done := done + [segment];
        written := end;
      }
    }

    method Close()
      modifies this
      ensures closed && seqNo == old(seqNo) && size == old(size)
      ensures emitted == if old(closed) then old(emitted)
                         else old(emitted) + [Chunk(cfg.resultId, seqNo, [], cfg.encoding, false)]
      ensures View() == AfterClose(cfg, old(View()))
    {
      if closed {
        return;
      }
      closed := true;
      emitted := emitted + [Chunk(cfg.resultId, seqNo, [], cfg.encoding, false)];
    }
  }

  /** A stream after any sequence of Write calls, some possibly refused. */
  function AfterWrites(cfg: Config, ws: seq<bytes>): Stream {
    if ws == [] then OPEN else AfterWrite(cfg, AfterWrites(cfg, ws[..|ws| - 1]), ws[|ws| - 1])
  }

  /** The bytes of the writes that were accepted. */
  function Written(cfg: Config, ws: seq<bytes>): bytes {
    if ws == [] then []
    else
      var front := ws[..|ws| - 1];
      Written(cfg, front) + if Accepts(cfg, AfterWrites(cfg, front), ws[|ws| - 1]) then ws[|ws| - 1] else []
  }

  /** The segments those writes were cut into. */
  function Segments(cfg: Config, ws: seq<bytes>): seq<bytes> {
    if ws == [] then []
    else
      var front := ws[..|ws| - 1];
      var p := ws[|ws| - 1];
      Segments(cfg, front) + if Accepts(cfg, AfterWrites(cfg, front), p) then Pieces(p, Limit(cfg, p)) else []
  }

  lemma {:induction false} PiecesFlatten(p: bytes, limit: nat)
    requires limit > 0 || p == []
    ensures Flatten(Pieces(p, limit)) == p
    decreases |p|
  {
    if p != [] {
      var n := if |p| < limit then |p| else limit;
      PiecesFlatten(p[n..], limit);
      FlattenAppend([p[..n]], Pieces(p[n..], limit));
      FlattenOne(p[..n]);
      assert p == p[..n] + p[n..];
    }
  }

  lemma {:induction false} PiecesBounded(p: bytes, limit: nat)
    ensures forall x <- Pieces(p, limit) :: 0 < |x| <= limit
    ensures forall i :: 0 <= i < |Pieces(p, limit)| - 1 ==> |Pieces(p, limit)[i]| == limit
    decreases |p|
  {
    if p != [] && limit > 0 {
      PiecesBounded(p[if |p| < limit then |p| else limit..], limit);
    }
  }

  /** An accepted write is cut into full segments and a last one that may be shorter, which
      together are the bytes written. */
  lemma WriteCuts(cfg: Config, p: bytes)
    ensures var pieces := Pieces(p, Limit(cfg, p));
            && Flatten(pieces) == p
            && (forall x <- pieces :: x != [] && (cfg.chunkSize > 0 ==> |x| <= cfg.chunkSize))
            && (cfg.chunkSize > 0 ==> forall i :: 0 <= i < |pieces| - 1 ==> |pieces[i]| == cfg.chunkSize)
            && (cfg.chunkSize <= 0 && p != [] ==> pieces == [p])
  {
    PiecesFlatten(p, Limit(cfg, p));
    PiecesBounded(p, Limit(cfg, p));
    if cfg.chunkSize <= 0 {
      assert p[..|p|] == p && p[|p|..] == [];
    }
  }

  lemma FlattenOne(p: bytes)
    ensures Flatten([p]) == p
  {
    assert [p][..0] == [];
  }

  /** The emitted chunks carry the segments in order, numbered 0, 1, 2, ... */
  lemma {:induction false} ChunksNumbered(cfg: Config, ws: seq<bytes>)
    ensures var s := AfterWrites(cfg, ws);
            !s.closed && s.seqNo == |Segments(cfg, ws)| && s.emitted == ChunksOf(cfg, 0, Segments(cfg, ws))
  {
    if ws != [] {
      var front := ws[..|ws| - 1];
      var p := ws[|ws| - 1];
      ChunksNumbered(cfg, front);
      if Accepts(cfg, AfterWrites(cfg, front), p) {
        ChunksAppend(cfg, Segments(cfg, front), Pieces(p, Limit(cfg, p)));
      }
    }
  }

  lemma ChunksAppend(cfg: Config, a: seq<bytes>, b: seq<bytes>)
    ensures ChunksOf(cfg, 0, a + b) == ChunksOf(cfg, 0, a) + ChunksOf(cfg, |a|, b)
  {
  }

  /** The segments are together exactly the accepted bytes, which the recorded size counts
      and a positive cap bounds; none is longer than the chunk size. */
  lemma {:induction false} SegmentsHoldWritten(cfg: Config, ws: seq<bytes>)
    ensures Flatten(Segments(cfg, ws)) == Written(cfg, ws)
    ensures AfterWrites(cfg, ws).size == |Written(cfg, ws)|
    ensures cfg.max > 0 ==> AfterWrites(cfg, ws).size <= cfg.max
    ensures cfg.chunkSize > 0 ==> forall x <- Segments(cfg, ws) :: 0 < |x| <= cfg.chunkSize
  {
    if ws != [] {
      var front := ws[..|ws| - 1];
      var p := ws[|ws| - 1];
      SegmentsHoldWritten(cfg, front);
      PiecesFlatten(p, Limit(cfg, p));
      PiecesBounded(p, Limit(cfg, p));
      if Accepts(cfg, AfterWrites(cfg, front), p) {
        FlattenAppend(Segments(cfg, front), Pieces(p, Limit(cfg, p)));
      } else {
        FlattenAppend(Segments(cfg, front), []);
      }
    }
  }

  // ---------------------------------------------------------------- the collector

  datatype Failure = TooLarge | MixedEncodings | ManyResults | Gap | BadData | CallerGone

  datatype Result = Ok(value: bytes) | Err(why: Failure)

  datatype Accum = Accum(encoding: Encoding, chunks: map<nat, bytes>)

  datatype Tally = Tally(acc: map<nat, Accum>, total: nat) | Rejected(why: Failure)

  function AddChunk(t: Tally, ch: Chunk, cap: int): Tally {
    if t.Rejected? then t
    else
      var total := t.total + |ch.data|;
      if cap > 0 && total > cap then Rejected(TooLarge)
      else if ch.resultId !in t.acc then
        Tally(t.acc[ch.resultId := Accum(ch.encoding, map[ch.seqNo := ch.data])], total)
      else
        var a := t.acc[ch.resultId];
        if a.encoding != ch.encoding then Rejected(MixedEncodings)
        else Tally(t.acc[ch.resultId := a.(chunks := a.chunks[ch.seqNo := ch.data])], total)
  }

  function AddAll(chunks: seq<Chunk>, cap: int): Tally {
    if chunks == [] then Tally(map[], 0) else AddChunk(AddAll(chunks[..|chunks| - 1], cap), chunks[|chunks| - 1], cap)
  }

  function DataSize(d: seq<Chunk>): nat {
    if d == [] then 0 else DataSize(d[..|d| - 1]) + |d[|d| - 1].data|
  }

  /** The text of the first i + 1 chunks exceeds a positive cap. */
  predicate Exceeds(d: seq<Chunk>, cap: int, i: nat) {
    i < |d| && 0 < cap < DataSize(d[..i + 1])
  }

  /** The encoding the first chunk of result `id` came in. */
  function FirstEncoding(d: seq<Chunk>, id: nat): Option<Encoding> {
    if d == [] then None
    else
      var before, x := FirstEncoding(d[..|d| - 1], id), d[|d| - 1];
      if before.None? && x.resultId == id then Some(x.encoding) else before
  }

  /** The text of the last chunk numbered `n` of result `id`. */
  function LatestText(d: seq<Chunk>, id: nat, n: nat): Option<bytes> {
    if d == [] then None
    else
      var x := d[|d| - 1];
      if x.resultId == id && x.seqNo == n then Some(x.data) else LatestText(d[..|d| - 1], id, n)
  }

  /** Chunk i comes in another encoding than its result began in. */
  predicate Mixes(d: seq<Chunk>, i: nat) {
    i < |d| && FirstEncoding(d[..i], d[i].resultId) !in {None, Some(d[i].encoding)}
  }

  /** The accumulator of `id`: there iff a chunk of it is, with its encoding, and the latest text
      under each number. */
  ghost predicate Accumulates(d: seq<Chunk>, acc: map<nat, Accum>, id: nat) {
    && (id in acc <==> FirstEncoding(d, id).Some?)
    && (id in acc ==> acc[id].encoding == FirstEncoding(d, id).value)
    && (id in acc ==> forall n: nat ::
          LatestText(d, id, n) == if n in acc[id].chunks then Some(acc[id].chunks[n]) else None)
    && (id !in acc ==> forall n: nat :: LatestText(d, id, n).None?)
  }

  lemma PrefixSame(d: seq<Chunk>, cap: int, i: nat)
    requires d != [] && i < |d| - 1
    ensures Exceeds(d[..|d| - 1], cap, i) <==> Exceeds(d, cap, i)
    ensures Mixes(d[..|d| - 1], i) <==> Mixes(d, i)
  {
    assert d[..|d| - 1][..i + 1] == d[..i + 1] && d[..|d| - 1][..i] == d[..i];
  }

  lemma AddAccumulates(d: seq<Chunk>, acc: map<nat, Accum>, total: nat, cap: int, id: nat)
    requires d != [] && AddChunk(Tally(acc, total), d[|d| - 1], cap).Tally?
    requires Accumulates(d[..|d| - 1], acc, id)
    ensures Accumulates(d, AddChunk(Tally(acc, total), d[|d| - 1], cap).acc, id)
  {
    var front, x := d[..|d| - 1], d[|d| - 1];
    var acc' := AddChunk(Tally(acc, total), x, cap).acc;
    if x.resultId == id {
      forall n: nat
        ensures LatestText(d, id, n) == if n in acc'[id].chunks then Some(acc'[id].chunks[n]) else None
      {
        assert n != x.seqNo ==> LatestText(d, id, n) == LatestText(front, id, n);
      }
    } else {
      assert forall n: nat :: LatestText(d, id, n) == LatestText(front, id, n);
    }
  }

  /** Nothing among the first chunks is refused. */
  ghost predicate Acceptable(d: seq<Chunk>, cap: int) {
    forall i: nat :: !Exceeds(d, cap, i) && !Mixes(d, i)
  }

  /** Whatever arrives: if no chunk makes the text exceed a positive cap or mixes encodings, the
      accumulators hold it all. */
  lemma {:induction false} TallyHolds(d: seq<Chunk>, cap: int)
    requires Acceptable(d, cap)
    ensures AddAll(d, cap).Tally? && AddAll(d, cap).total == DataSize(d)
    ensures forall id: nat :: Accumulates(d, AddAll(d, cap).acc, id)
  {
    if d != [] {
      var n := |d| - 1;
      forall i: nat ensures !Exceeds(d[..n], cap, i) && !Mixes(d[..n], i) {
        if i < n {
          PrefixSame(d, cap, i);
        }
      }
      TallyHolds(d[..n], cap);
      var t := AddAll(d[..n], cap);
      assert Accumulates(d[..n], t.acc, d[n].resultId);
      assert d[..n + 1] == d && !Exceeds(d, cap, n) && !Mixes(d, n);
      forall id: nat ensures Accumulates(d, AddAll(d, cap).acc, id) {
        AddAccumulates(d, t.acc, t.total, cap, id);
      }
    }
  }

  /** And otherwise the first chunk that does decides why it is refused, the cap before the
      encoding. */
  lemma {:induction false} FirstRefused(d: seq<Chunk>, cap: int, i: nat)
    requires i < |d| && Acceptable(d[..i], cap) && (Exceeds(d, cap, i) || Mixes(d, i))
    ensures AddAll(d, cap) == Rejected(if Exceeds(d, cap, i) then TooLarge else MixedEncodings)
  {
    if i == |d| - 1 {
      TallyHolds(d[..i], cap);
      assert d[..i + 1] == d;
      assert Accumulates(d[..i], AddAll(d[..i], cap).acc, d[i].resultId);
    } else {
      PrefixSame(d, cap, i);
      assert d[..|d| - 1][..i] == d[..i];
      FirstRefused(d[..|d| - 1], cap, i);
    }
  }

  function Plain(e: Encoding, data: bytes): Option<bytes> {
    match e
    case Utf8 => Some(data)
    case Base64 => Decode(data)
    case Unknown(_) => Some([])
  }

  ghost predicate NoGap(chunks: map<nat, bytes>) {
    forall k, j: nat :: k in chunks && j < k ==> j in chunks
  }

  /** Chunks 0 to n - 1 decoded and joined. */
  ghost function Joined(a: Accum, n: nat): Option<bytes> {
    if n == 0 then Some([])
    else if n - 1 !in a.chunks then None
    else
      match (Joined(a, n - 1), Plain(a.encoding, a.chunks[n - 1]))
      case (Some(front), Some(last)) => Some(front + last)
      case _ => None
  }

  ghost function AssembleOne(a: Accum): Result {
    if !NoGap(a.chunks) then Err(Gap)
    else match Joined(a, |a.chunks|)
      case None => Err(BadData)
      case Some(out) => Ok(out)
  }

  ghost predicate IsAssembly(acc: map<nat, Accum>, r: Result) {
    if acc == map[] then r == Ok([])
    else if |acc| > 1 then r == Err(ManyResults)
    else exists id :: id in acc && r == AssembleOne(acc[id])
  }

  /** Where CollectChunks stops: after the first final chunk, unless it saw the job end first
      (`doneAt`), when it drains everything. */
  function Cut(incoming: seq<Chunk>, doneAt: nat, i: nat): (n: nat)
    requires i <= |incoming|
    ensures i <= n <= |incoming|
    decreases |incoming| - i
  {
    if i == |incoming| then i
    else if i < doneAt && !incoming[i].more then i + 1
    else Cut(incoming, doneAt, i + 1)
  }

  /** A place for the collector to stop: the end, or behind a final chunk it selected before it
      saw the job end. */
  ghost predicate Stops(d: seq<Chunk>, doneAt: nat, n: nat) {
    n == |d| || (0 < n < |d| && n - 1 < doneAt && !d[n - 1].more)
  }

  lemma {:induction false} CutFrom(d: seq<Chunk>, doneAt: nat, i: nat)
    requires i <= |d|
    ensures var n := Cut(d, doneAt, i);
            && (n == i ==> i == |d|) && Stops(d, doneAt, n) && forall m :: i < m < n ==> !Stops(d, doneAt, m)
    decreases |d| - i
  {
    if i < |d| {
      CutFrom(d, doneAt, i + 1);
    }
  }

  /** The collector stops at the first such place and nowhere else. */
  lemma CutIsFirstStop(d: seq<Chunk>, doneAt: nat, n: nat)
    ensures n == Cut(d, doneAt, 0) <==> Stops(d, doneAt, n) && forall m: nat :: m < n ==> !Stops(d, doneAt, m)
  {
    CutFrom(d, doneAt, 0);
    var c := Cut(d, doneAt, 0);
    assert forall m: nat :: m < c ==> !Stops(d, doneAt, m);
  }

  ghost predicate IsCollected(incoming: seq<Chunk>, doneAt: nat, cap: int, r: Result) {
    match AddAll(incoming[..Cut(incoming, doneAt, 0)], cap)
    case Rejected(why) => r == Err(why)
    case Tally(acc, _) => IsAssembly(acc, r)
  }

  /** How collecting ends, after how many chunks. */
  datatype End = Ended(n: nat) | Interrupted(n: nat)

  /** The same with the caller's context, which ends it after `cancelAt` chunks if the collector
      is still selecting then. */
  function EndOf(incoming: seq<Chunk>, doneAt: nat, cancelAt: Option<nat>, i: nat): (end: End)
    requires i <= |incoming|
    ensures i <= end.n <= |incoming|
    decreases |incoming| - i
  {
    if cancelAt == Some(i) && i < doneAt then Interrupted(i)
    else if i == |incoming| then Ended(i)
    else if i < doneAt && !incoming[i].more then Ended(i + 1)
    else EndOf(incoming, doneAt, cancelAt, i + 1)
  }

  ghost predicate IsOutcome(incoming: seq<Chunk>, doneAt: nat, cancelAt: Option<nat>, cap: int, r: Result) {
    var end := EndOf(incoming, doneAt, cancelAt, 0);
    match AddAll(incoming[..end.n], cap)
    case Rejected(why) => r == Err(why)
    case Tally(acc, _) => if end.Interrupted? then r == Err(CallerGone) else IsAssembly(acc, r)
  }

  lemma {:induction false} EndFrom(d: seq<Chunk>, doneAt: nat, cancelAt: Option<nat>, i: nat)
    requires i <= |d|
    ensures EndOf(d, doneAt, cancelAt, i)
         == if StillSelecting(d, doneAt, cancelAt, i) then Interrupted(cancelAt.value) else Ended(Cut(d, doneAt, i))
    decreases |d| - i
  {
    if i < |d| {
      EndFrom(d, doneAt, cancelAt, i + 1);
    }
  }

  ghost predicate StillSelecting(d: seq<Chunk>, doneAt: nat, cancelAt: Option<nat>, i: nat) {
    && cancelAt.Some? && i <= cancelAt.value <= |d| && cancelAt.value < doneAt
    && forall m :: i <= m < cancelAt.value ==> d[m].more
  }

  /** The caller's context ends collecting after n chunks iff it ends then, the job has not been
      seen to end, and no final chunk has come; otherwise collecting ends where it would have. */
  lemma InterruptedIff(d: seq<Chunk>, doneAt: nat, cancelAt: Option<nat>, n: nat)
    ensures EndOf(d, doneAt, cancelAt, 0) == Interrupted(n)
       <==> cancelAt == Some(n) && n <= |d| && n < doneAt && forall m :: 0 <= m < n ==> d[m].more
    ensures EndOf(d, doneAt, cancelAt, 0).Ended? ==> EndOf(d, doneAt, cancelAt, 0).n == Cut(d, doneAt, 0)
  {
    EndFrom(d, doneAt, cancelAt, 0);
  }

  /** And the caller is told so, unless what came before was refused. */
  lemma InterruptedOutcome(d: seq<Chunk>, doneAt: nat, n: nat, cap: int, r: Result)
    requires n <= |d| && n < doneAt && (forall m :: 0 <= m < n ==> d[m].more) && Acceptable(d[..n], cap)
    requires IsOutcome(d, doneAt, Some(n), cap, r)
    ensures r == Err(CallerGone)
  {
    InterruptedIff(d, doneAt, Some(n), n);
    TallyHolds(d[..n], cap);
  }

  /** A caller that stays gets what was collected. */
  lemma UndisturbedOutcome(incoming: seq<Chunk>, doneAt: nat, cap: int, r: Result)
    ensures IsOutcome(incoming, doneAt, None, cap, r) <==> IsCollected(incoming, doneAt, cap, r)
  {
    EndFrom(incoming, doneAt, None, 0);
  }

  ghost predicate StrictlyAscending(s: seq<nat>) {
    forall i, j :: 0 <= i < j < |s| ==> s[i] < s[j]
  }

  /** The sorted keys of the accumulator. */
  method SortedKeys(chunks: map<nat, bytes>) returns (s: seq<nat>)
    ensures StrictlyAscending(s) && |s| == |chunks| && forall k :: k in chunks <==> k in s
  {
    s := [];
    var todo := chunks.Keys;
    while todo != {}
      invariant todo <= chunks.Keys
      invariant StrictlyAscending(s)
      invariant forall k :: k in chunks <==> k in todo || k in s
      invariant forall k :: k in todo ==> k !in s
      invariant |s| + |todo| == |chunks|
    {
      var k :| k in todo;
      s := InsertKey(s, k);
      todo := todo - {k};
    }
  }

  method InsertKey(s: seq<nat>, k: nat) returns (r: seq<nat>)
    requires StrictlyAscending(s) && k !in s
    ensures StrictlyAscending(r) && |r| == |s| + 1
    ensures forall x :: x in r <==> x in s || x == k
  {
    var i := 0;
    while i < |s| && s[i] < k
      invariant 0 <= i <= |s|
      invariant forall j :: 0 <= j < i ==> s[j] < k
    {
      i := i + 1;
    }
    r := s[..i] + [k] + s[i..];
    SpliceAscends(s, k, i);
    assert forall x :: x in s <==> x in s[..i] || x in s[i..] by { assert s == s[..i] + s[i..]; }
  }

  lemma SpliceAscends(s: seq<nat>, k: nat, i: nat)
    requires StrictlyAscending(s) && k !in s && i <= |s|
    requires (forall j :: 0 <= j < i ==> s[j] < k) && (i < |s| ==> k <= s[i])
    ensures StrictlyAscending(s[..i] + [k] + s[i..])
  {
    forall j | i <= j < |s| ensures k < s[j] {
      assert s[j] in s && (i < j ==> s[i] < s[j]);
    }
  }

  lemma GapAt(s: seq<nat>, i: nat)
    requires StrictlyAscending(s) && i < |s| && s[i] != i && forall k :: 0 <= k < i ==> s[k] == k
    ensures i < s[i] && i !in s
  {
    if i > 0 {
      assert s[i - 1] < s[i];
    }
  }

  /** The chunks of one result: a gap below the highest number is refused, then text that does
      not decode; an encoding the client does not know yields nothing. */
  method AssembleAccum(a: Accum) returns (r: Result)
    ensures r == AssembleOne(a)
    ensures r == Err(Gap) <==> exists k, j: nat :: k in a.chunks && j < k && j !in a.chunks
    ensures r == Err(BadData) <==> NoGap(a.chunks) && exists k <- a.chunks :: Undecodable(a, k)
    ensures r.Ok? <==> r != Err(Gap) && r != Err(BadData)
    ensures r.Ok? && a.encoding.Unknown? ==> r.value == []
  {
    AssemblyCases(a);
    var seqs := SortedKeys(a.chunks);
    for i := 0 to |seqs|
      invariant forall k :: 0 <= k < i ==> seqs[k] == k
    {
      if seqs[i] != i {
        GapAt(seqs, i);
        assert seqs[i] in a.chunks;
        return Err(Gap);
      }
    }
    NoGapFound(a.chunks, seqs);
    var out := JoinChunks(a, |seqs|);
    r := if out.None? then Err(BadData) else Ok(out.value);
  }

  ghost predicate Undecodable(a: Accum, k: nat) {
    k in a.chunks && a.encoding.Base64? && Decode(a.chunks[k]).None?
  }

  lemma AssemblyCases(a: Accum)
    ensures AssembleOne(a) == Err(BadData) <==> NoGap(a.chunks) && exists k <- a.chunks :: Undecodable(a, k)
    ensures AssembleOne(a).Ok? && a.encoding.Unknown? ==> AssembleOne(a).value == []
  {
    if NoGap(a.chunks) {
      DenseKeys(a.chunks, |a.chunks|);
      JoinedCases(a, |a.chunks|);
    }
  }

  /** Without a gap the numbers are 0, 1, 2, ... */
  lemma DenseKeys(m: map<nat, bytes>, n: nat)
    requires NoGap(m) && n == |m|
    ensures forall k: nat :: k in m <==> k < n
    decreases n
  {
    if m != map[] {
      var top := Highest(m.Keys);
      var rest := m - {top};
      assert m.Keys == rest.Keys + {top} && NoGap(rest);
      DenseKeys(rest, n - 1);
      assert top >= n - 1 && (top > n - 1 ==> n - 1 in m);
    }
  }

  lemma {:induction false} Highest(ks: set<nat>) returns (top: nat)
    requires ks != {}
    ensures top in ks && forall k <- ks :: k <= top
    decreases ks
  {
    var k :| k in ks;
    top := k;
    if ks != {k} {
      assert forall x <- ks :: x == k || x in ks - {k};
      var rest := Highest(ks - {k});
      top := if rest > k then rest else k;
    }
  }

  lemma {:induction false} JoinedCases(a: Accum, n: nat)
    requires forall k: nat :: k < n ==> k in a.chunks
    ensures Joined(a, n).None? <==> exists k: nat :: k < n && Undecodable(a, k)
    ensures Joined(a, n).Some? && a.encoding.Unknown? ==> Joined(a, n).value == []
  {
    if n > 0 {
      JoinedCases(a, n - 1);
      assert Plain(a.encoding, a.chunks[n - 1]).None? <==> Undecodable(a, n - 1);
    }
  }

  lemma NoGapFound(chunks: map<nat, bytes>, s: seq<nat>)
    requires (forall k :: k in chunks <==> k in s) && forall k :: 0 <= k < |s| ==> s[k] == k
    ensures NoGap(chunks) && forall k: nat :: k < |s| ==> k in chunks
  {
    forall k: nat | k < |s| ensures k in chunks {
      assert s[k] in s;
    }
  }

  method JoinChunks(a: Accum, n: nat) returns (r: Option<bytes>)
    requires forall k: nat :: k < n ==> k in a.chunks
    ensures r == Joined(a, n)
  {
    var out: bytes := [];
    for i := 0 to n
      invariant Joined(a, i) == Some(out)
    {
      var part := Plain(a.encoding, a.chunks[i]);
      if part.None? {
        JoinedFails(a, i, n);
        return None;
      }
      out := out + part.value;
    }
    r := Some(out);
  }

  lemma {:induction false} JoinedFails(a: Accum, i: nat, n: nat)
    requires i < n && i in a.chunks && Plain(a.encoding, a.chunks[i]).None?
    ensures Joined(a, n).None?
  {
    if i < n - 1 {
      JoinedFails(a, i, n - 1);
    }
  }

  method AssembleChunks(acc: map<nat, Accum>) returns (r: Result)
    ensures IsAssembly(acc, r)
    ensures |acc| == 0 ==> r == Ok([])
    ensures |acc| > 1 <==> r == Err(ManyResults)
  {
    if |acc| == 0 {
      return Ok([]);
    }
    if |acc| > 1 {
      return Err(ManyResults);
    }
    var id :| id in acc;
    r := AssembleAccum(acc[id]);
  }

  /** CollectChunks; events other than chunks are drained and dropped. */
  method CollectChunks(incoming: seq<Chunk>, doneAt: nat, cancelAt: Option<nat>, cap: int) returns (r: Result)
    ensures IsOutcome(incoming, doneAt, cancelAt, cap, r)
  {
    var tally := Tally(map[], 0);
    var i := 0;
    ghost var end := EndOf(incoming, doneAt, cancelAt, 0);
    while i < |incoming|
      invariant 0 <= i <= |incoming|
      invariant tally.Tally? && tally == AddAll(incoming[..i], cap)
      invariant end == EndOf(incoming, doneAt, cancelAt, i)
    {
      if cancelAt == Some(i) && i < doneAt {
        return Err(CallerGone);
      }
      AddNext(incoming, i, cap);
      tally := AddChunk(tally, incoming[i], cap);
      if tally.Rejected? {
        RejectedStays(incoming, i + 1, end.n, cap);
        return Err(tally.why);
      }
      i := i + 1;
      if i - 1 < doneAt && !incoming[i - 1].more {
        r := AssembleChunks(tally.acc);
        return;
      }
    }
    if cancelAt == Some(i) && i < doneAt {
      return Err(CallerGone);
    }
    r := AssembleChunks(tally.acc);
  }

  lemma AddNext(chunks: seq<Chunk>, i: nat, cap: int)
    requires i < |chunks|
    ensures AddAll(chunks[..i + 1], cap) == AddChunk(AddAll(chunks[..i], cap), chunks[i], cap)
  {
    assert chunks[..i + 1][..i] == chunks[..i];
  }

  lemma {:induction false} RejectedStays(chunks: seq<Chunk>, i: nat, n: nat, cap: int)
    requires i <= n <= |chunks| && AddAll(chunks[..i], cap).Rejected?
    ensures AddAll(chunks[..n], cap) == AddAll(chunks[..i], cap)
  {
    if i < n {
      RejectedStays(chunks, i, n - 1, cap);
      assert chunks[..n][..n - 1] == chunks[..n - 1];
    }
  }

  // ---------------------------------------------------------------- writer against collector

  /** The chunks of a closed stream as the client decodes them from JSON. */
  function Sent(cfg: Config, ws: seq<bytes>): seq<Chunk> {
    var emitted := AfterClose(cfg, AfterWrites(cfg, ws)).emitted;
    seq(|emitted|, i requires 0 <= i < |emitted| => emitted[i].(data := ThroughJson(emitted[i].data)))
  }

  /** What the client can make of a segment. */
  function Received(e: Encoding, segment: bytes): bytes {
    if e.Base64? then segment else ThroughJson(segment)
  }

  function AllReceived(e: Encoding, segments: seq<bytes>): (r: seq<bytes>)
    ensures |r| == |segments|
  {
    seq(|segments|, i requires 0 <= i < |segments| => Received(e, segments[i]))
  }

  /** One result's chunks, numbered from 0, the last one final. */
  ghost predicate Numbered(sent: seq<Chunk>, id: nat, e: Encoding) {
    && sent != []
    && forall i :: 0 <= i < |sent| ==>
         sent[i].seqNo == i && sent[i].resultId == id && sent[i].encoding == e && (sent[i].more <==> i < |sent| - 1)
  }

  lemma SentShape(cfg: Config, ws: seq<bytes>)
    requires cfg.encoding.Utf8? || cfg.encoding.Base64?
    ensures var sent := Sent(cfg, ws);
            var segments := Segments(cfg, ws);
            && |sent| == |segments| + 1 && Numbered(sent, cfg.resultId, cfg.encoding)
            && Plain(cfg.encoding, sent[|segments|].data) == Some([])
            && forall i :: 0 <= i < |segments| ==>
                 Plain(cfg.encoding, sent[i].data) == Some(Received(cfg.encoding, segments[i]))
  {
    ChunksNumbered(cfg, ws);
    var sent := Sent(cfg, ws);
    var segments := Segments(cfg, ws);
    forall i | 0 <= i < |segments|
      ensures Plain(cfg.encoding, sent[i].data) == Some(Received(cfg.encoding, segments[i]))
    {
      if cfg.encoding.Base64? {
        Base64RoundTrip(segments[i]);
        AsciiIsUtf8(Encode(segments[i]));
        JsonKeepsIff(Encode(segments[i]));
      }
    }
  }

  function SeqNos(d: seq<Chunk>): set<nat> {
    set x | x in d :: x.seqNo
  }

  /** The accumulator after receiving `d`, whatever the order and however often. */
  function Held(sent: seq<Chunk>, d: seq<Chunk>): map<nat, bytes> {
    map k | k in SeqNos(d) && k < |sent| :: sent[k].data
  }

  lemma FromSent(sent: seq<Chunk>, id: nat, e: Encoding, x: Chunk)
    requires Numbered(sent, id, e) && x in sent
    ensures x.seqNo < |sent| && sent[x.seqNo] == x && x.resultId == id && x.encoding == e
    ensures !x.more ==> x.seqNo == |sent| - 1
  {
    var i :| 0 <= i < |sent| && sent[i] == x;
  }

  lemma HeldSnoc(sent: seq<Chunk>, front: seq<Chunk>, x: Chunk)
    requires x.seqNo < |sent| && sent[x.seqNo] == x
    ensures Held(sent, front + [x]) == Held(sent, front)[x.seqNo := x.data]
  {
    assert SeqNos(front + [x]) == SeqNos(front) + {x.seqNo};
  }

  lemma AddKnown(id: nat, e: Encoding, held: map<nat, bytes>, n: nat, x: Chunk, cap: int)
    requires x.resultId == id && x.encoding == e && (cap > 0 ==> n + |x.data| <= cap)
    ensures AddChunk(Tally(map[id := Accum(e, held)], n), x, cap)
         == Tally(map[id := Accum(e, held[x.seqNo := x.data])], n + |x.data|)
    ensures AddChunk(Tally(map[], n), x, cap) == Tally(map[id := Accum(e, map[x.seqNo := x.data])], n + |x.data|)
  {
  }

  lemma {:induction false} TallyOf(sent: seq<Chunk>, id: nat, e: Encoding, d: seq<Chunk>, cap: int)
    requires Numbered(sent, id, e) && (forall x <- d :: x in sent) && (cap > 0 ==> DataSize(d) <= cap)
    ensures AddAll(d, cap) == Tally(if d == [] then map[] else map[id := Accum(e, Held(sent, d))], DataSize(d))
  {
    if d != [] {
      var front := d[..|d| - 1];
      var x := d[|d| - 1];
      TallyOf(sent, id, e, front, cap);
      FromSent(sent, id, e, x);
      HeldSnoc(sent, front, x);
      assert d == front + [x];
      AddKnown(id, e, Held(sent, front), DataSize(front), x, cap);
    }
  }

  /** What the collector takes of the chunks that arrive. */
  function Taken(d: seq<Chunk>, doneAt: nat): seq<Chunk> {
    d[..Cut(d, doneAt, 0)]
  }

  ghost predicate HasFinal(d: seq<Chunk>) {
    exists x <- d :: !x.more
  }

  lemma {:induction false} JoinedIsFlatten(a: Accum, segments: seq<bytes>, n: nat)
    requires n <= |segments|
    requires forall i :: 0 <= i < n ==> i in a.chunks && Plain(a.encoding, a.chunks[i]) == Some(segments[i])
    ensures Joined(a, n) == Some(Flatten(segments[..n]))
  {
    if n > 0 {
      JoinedIsFlatten(a, segments, n - 1);
      assert segments[..n][..n - 1] == segments[..n - 1];
    }
  }

  lemma {:induction false} RangeSize(m: map<nat, bytes>, n: nat)
    requires forall k: nat :: k in m <==> k < n
    ensures |m| == n
  {
    if n > 0 {
      var rest := m - {n - 1};
      RangeSize(rest, n - 1);
      assert m.Keys == rest.Keys + {n - 1};
    } else {
      assert m == map[];
    }
  }

  ghost predicate AllValid(segments: seq<bytes>) {
    forall x <- segments :: ValidUtf8(x)
  }

  lemma FlattenSnoc(pieces: seq<bytes>, last: bytes)
    ensures Flatten(pieces + [last]) == Flatten(pieces) + last
  {
    assert (pieces + [last])[..|pieces|] == pieces;
  }

  lemma ReceivedSnoc(segments: seq<bytes>, last: bytes)
    ensures AllReceived(Utf8, segments + [last]) == AllReceived(Utf8, segments) + [ThroughJson(last)]
  {
  }

  lemma ValidSnoc(segments: seq<bytes>, last: bytes)
    ensures AllValid(segments + [last]) <==> AllValid(segments) && ValidUtf8(last)
  {
    assert forall x :: x in segments + [last] <==> x in segments || x == last;
  }

  lemma {:induction false} ReceivedIntactIff(segments: seq<bytes>)
    ensures |Flatten(AllReceived(Utf8, segments))| >= |Flatten(segments)|
    ensures AllValid(segments) ==> Flatten(AllReceived(Utf8, segments)) == Flatten(segments)
    ensures !AllValid(segments) ==> |Flatten(AllReceived(Utf8, segments))| > |Flatten(segments)|
  {
    if segments != [] {
      var front, last := segments[..|segments| - 1], segments[|segments| - 1];
      assert segments == front + [last];
      ReceivedIntactIff(front);
      JsonKeepsIff(last);
      ReceivedSnoc(front, last);
      ValidSnoc(front, last);
      FlattenSnoc(front, last);
      FlattenSnoc(AllReceived(Utf8, front), ThroughJson(last));
    }
  }

  ghost predicate Complete(sent: seq<Chunk>, d: seq<Chunk>) {
    forall k: nat :: k < |sent| ==> k in SeqNos(d)
  }

  ghost predicate FirstOnly(d: seq<Chunk>, n: nat) {
    forall k: nat :: k in SeqNos(d) <==> k < n
  }

  lemma AssemblePrefix(sent: seq<Chunk>, e: Encoding, d: seq<Chunk>, segments: seq<bytes>, n: nat)
    requires n <= |sent| == |segments| && FirstOnly(d, n)
    requires forall i :: 0 <= i < |sent| ==> Plain(e, sent[i].data) == Some(segments[i])
    ensures AssembleOne(Accum(e, Held(sent, d))) == Ok(Flatten(segments[..n]))
  {
    RangeSize(Held(sent, d), n);
    JoinedIsFlatten(Accum(e, Held(sent, d)), segments, n);
  }

  lemma FromSentAll(sent: seq<Chunk>, id: nat, e: Encoding, d: seq<Chunk>)
    requires Numbered(sent, id, e) && forall x <- d :: x in sent
    ensures forall k: nat :: k in SeqNos(d) ==> k < |sent|
  {
    forall x | x in d ensures x.seqNo < |sent| {
      FromSent(sent, id, e, x);
    }
  }

  lemma AssembleDelivery(sent: seq<Chunk>, id: nat, e: Encoding, d: seq<Chunk>, segments: seq<bytes>)
    requires Numbered(sent, id, e) && (forall x <- d :: x in sent) && HasFinal(d) && |segments| == |sent|
    requires forall i :: 0 <= i < |sent| ==> Plain(e, sent[i].data) == Some(segments[i])
    ensures AssembleOne(Accum(e, Held(sent, d))) == if Complete(sent, d) then Ok(Flatten(segments)) else Err(Gap)
  {
    var held := Held(sent, d);
    var final :| final in d && !final.more;
    FromSent(sent, id, e, final);
    assert final.seqNo in SeqNos(d);
    assert |sent| - 1 in held;
    if Complete(sent, d) {
      FromSentAll(sent, id, e, d);
      AssemblePrefix(sent, e, d, segments, |sent|);
      assert segments[..|sent|] == segments;
    } else {
      var k: nat :| k < |sent| && k !in SeqNos(d);
      assert k !in held && k < |sent| - 1;
    }
  }

  /** Round trip. For any writes followed by Close and whatever the collector takes of their
      chunks, in any order and with any repetition, within its cap and with the final chunk
      among them: a missing chunk is an error; otherwise the result is exactly the bytes
      written iff the stream is base64 or every segment is valid UTF-8 by itself. */
  lemma StreamRoundTrip(cfg: Config, ws: seq<bytes>, d: seq<Chunk>, doneAt: nat, cap: int, r: Result)
    requires cfg.encoding.Utf8? || cfg.encoding.Base64?
    requires (forall x <- d :: x in Sent(cfg, ws)) && HasFinal(Taken(d, doneAt))
    requires cap > 0 ==> DataSize(Taken(d, doneAt)) <= cap
    requires IsCollected(d, doneAt, cap, r)
    ensures !Complete(Sent(cfg, ws), Taken(d, doneAt)) ==> r == Err(Gap)
    ensures Complete(Sent(cfg, ws), Taken(d, doneAt)) ==> r.Ok?
    ensures Complete(Sent(cfg, ws), Taken(d, doneAt)) ==>
              (r.value == Written(cfg, ws) <==>
                 cfg.encoding.Base64? || AllValid(Segments(cfg, ws)))
  {
    var segments := Segments(cfg, ws);
    var received := AllReceived(cfg.encoding, segments);
    SegmentsHoldWritten(cfg, ws);
    DeliveredResult(cfg, ws, d, doneAt, cap, r);
    if cfg.encoding.Base64? {
      assert received == segments;
    } else {
      ReceivedIntactIff(segments);
    }
  }

  /** `n` is behind the first final chunk to arrive. */
  ghost predicate FinalAt(d: seq<Chunk>, n: nat) {
    0 < n <= |d| && !d[n - 1].more && forall m :: 0 <= m < n - 1 ==> d[m].more
  }

  lemma {:induction false} SizeGrows(d: seq<Chunk>, n: nat)
    requires n <= |d|
    ensures DataSize(d[..n]) <= DataSize(d)
  {
    if n == |d| {
      assert d[..n] == d;
    } else {
      SizeGrows(d[..|d| - 1], n);
      assert d[..|d| - 1][..n] == d[..n];
    }
  }

  lemma TakesFinal(d: seq<Chunk>, doneAt: nat, n: nat)
    requires FinalAt(d, n)
    ensures n <= |Taken(d, doneAt)| && d[n - 1] in Taken(d, doneAt) && HasFinal(Taken(d, doneAt))
    ensures forall x <- d[..n] :: x in Taken(d, doneAt)
    ensures DataSize(Taken(d, doneAt)) <= DataSize(d)
  {
    CutFrom(d, doneAt, 0);
    var c := Cut(d, doneAt, 0);
    SizeGrows(d, c);
    assert d[..c][n - 1] == d[n - 1];
    forall x | x in d[..n] ensures x in d[..c] {
      var i :| 0 <= i < n && d[..n][i] == x;
      assert d[..c][i] == x;
    }
  }

  /** Whenever the job ends: if everything has arrived by the first final chunk, in any order and
      with any repetition, and fits the cap, the result is exactly the bytes written iff the
      stream is base64 or every segment is valid UTF-8 by itself. */
  lemma ArrivalsRoundTrip(cfg: Config, ws: seq<bytes>, d: seq<Chunk>, n: nat, doneAt: nat, cap: int, r: Result)
    requires (cfg.encoding.Utf8? || cfg.encoding.Base64?) && forall x <- d :: x in Sent(cfg, ws)
    requires FinalAt(d, n) && (forall x <- Sent(cfg, ws) :: x in d[..n]) && (cap > 0 ==> DataSize(d) <= cap)
    requires IsCollected(d, doneAt, cap, r)
    ensures r.Ok? && (r.value == Written(cfg, ws) <==> cfg.encoding.Base64? || AllValid(Segments(cfg, ws)))
  {
    TakesFinal(d, doneAt, n);
    SentShape(cfg, ws);
    var sent := Sent(cfg, ws);
    forall k: nat | k < |sent| ensures k in SeqNos(Taken(d, doneAt)) {
      assert sent[k] in sent && sent[k].seqNo == k;
    }
    StreamRoundTrip(cfg, ws, d, doneAt, cap, r);
  }

  /** In particular when the chunks arrive as they were sent. */
  lemma SentRoundTrip(cfg: Config, ws: seq<bytes>, doneAt: nat, cap: int, r: Result)
    requires cfg.encoding.Utf8? || cfg.encoding.Base64?
    requires (cap > 0 ==> DataSize(Sent(cfg, ws)) <= cap) && IsCollected(Sent(cfg, ws), doneAt, cap, r)
    ensures r.Ok? && (r.value == Written(cfg, ws) <==> cfg.encoding.Base64? || AllValid(Segments(cfg, ws)))
  {
    SentShape(cfg, ws);
    var sent := Sent(cfg, ws);
    assert FinalAt(sent, |sent|) && sent[..|sent|] == sent;
    ArrivalsRoundTrip(cfg, ws, sent, |sent|, doneAt, cap, r);
  }

  /** Chunks of two results are refused. */
  lemma TwoResultsRefused(d: seq<Chunk>, doneAt: nat, cap: int, r: Result, i: nat, j: nat)
    requires IsCollected(d, doneAt, cap, r) && Acceptable(Taken(d, doneAt), cap)
    requires i < |Taken(d, doneAt)| && j < |Taken(d, doneAt)|
    requires Taken(d, doneAt)[i].resultId != Taken(d, doneAt)[j].resultId
    ensures r == Err(ManyResults)
  {
    var t := Taken(d, doneAt);
    TallyHolds(t, cap);
    var acc, p, q := AddAll(t, cap).acc, t[i].resultId, t[j].resultId;
    HasEncoding(t, i);
    HasEncoding(t, j);
    assert Accumulates(t, acc, p) && Accumulates(t, acc, q);
    assert acc.Keys == {p, q} + (acc.Keys - {p, q});
    assert |acc.Keys| >= |{p, q}| == 2;
  }

  lemma {:induction false} HasEncoding(d: seq<Chunk>, i: nat)
    requires i < |d|
    ensures FirstEncoding(d, d[i].resultId).Some?
  {
    if i < |d| - 1 {
      HasEncoding(d[..|d| - 1], i);
    }
  }

  lemma DeliveredResult(cfg: Config, ws: seq<bytes>, d: seq<Chunk>, doneAt: nat, cap: int, r: Result)
    requires cfg.encoding.Utf8? || cfg.encoding.Base64?
    requires (forall x <- d :: x in Sent(cfg, ws)) && HasFinal(Taken(d, doneAt))
    requires cap > 0 ==> DataSize(Taken(d, doneAt)) <= cap
    requires IsCollected(d, doneAt, cap, r)
    ensures r == if Complete(Sent(cfg, ws), Taken(d, doneAt))
                 then Ok(Flatten(AllReceived(cfg.encoding, Segments(cfg, ws)))) else Err(Gap)
  {
    var sent := Sent(cfg, ws);
    var received := AllReceived(cfg.encoding, Segments(cfg, ws));
    SentPlain(cfg, ws);
    AssembleDelivery(sent, cfg.resultId, cfg.encoding, Taken(d, doneAt), received + [[]]);
    CollectedIsAssembly(sent, cfg.resultId, cfg.encoding, d, doneAt, cap, r);
    FlattenSnoc(received, []);
  }

  lemma SentPlain(cfg: Config, ws: seq<bytes>)
    requires cfg.encoding.Utf8? || cfg.encoding.Base64?
    ensures var sent := Sent(cfg, ws);
            var all := AllReceived(cfg.encoding, Segments(cfg, ws)) + [[]];
            && Numbered(sent, cfg.resultId, cfg.encoding) && |all| == |sent|
            && forall i :: 0 <= i < |sent| ==> Plain(cfg.encoding, sent[i].data) == Some(all[i])
  {
    SentShape(cfg, ws);
  }

  lemma CollectedIsAssembly(sent: seq<Chunk>, id: nat, e: Encoding, d: seq<Chunk>, doneAt: nat, cap: int, r: Result)
    requires Numbered(sent, id, e) && (forall x <- d :: x in sent) && Taken(d, doneAt) != []
    requires cap > 0 ==> DataSize(Taken(d, doneAt)) <= cap
    requires IsCollected(d, doneAt, cap, r)
    ensures r == AssembleOne(Accum(e, Held(sent, Taken(d, doneAt))))
  {
    TallyOf(sent, id, e, Taken(d, doneAt), cap);
    OneAssembly(id, Accum(e, Held(sent, Taken(d, doneAt))), r);
  }

  /** The cap counts the text of the chunks, each time it arrives. */
  lemma {:induction false} OverCap(sent: seq<Chunk>, id: nat, e: Encoding, d: seq<Chunk>, cap: int)
    requires Numbered(sent, id, e) && (forall x <- d :: x in sent) && 0 < cap < DataSize(d)
    ensures AddAll(d, cap) == Rejected(TooLarge)
  {
    var front := d[..|d| - 1];
    if DataSize(front) > cap {
      OverCap(sent, id, e, front, cap);
    } else {
      TallyOf(sent, id, e, front, cap);
    }
  }

  /** A stream is refused as too large iff the text taken exceeds a positive cap. */
  lemma TooLargeIff(cfg: Config, ws: seq<bytes>, d: seq<Chunk>, doneAt: nat, cap: int, r: Result)
    requires cfg.encoding.Utf8? || cfg.encoding.Base64?
    requires (forall x <- d :: x in Sent(cfg, ws)) && IsCollected(d, doneAt, cap, r)
    ensures r == Err(TooLarge) <==> 0 < cap < DataSize(Taken(d, doneAt))
  {
    SentShape(cfg, ws);
    if 0 < cap < DataSize(Taken(d, doneAt)) {
      OverCap(Sent(cfg, ws), cfg.resultId, cfg.encoding, Taken(d, doneAt), cap);
    } else if Taken(d, doneAt) != [] {
      CollectedIsAssembly(Sent(cfg, ws), cfg.resultId, cfg.encoding, d, doneAt, cap, r);
    }
  }

  lemma PrefixReturned(sent: seq<Chunk>, id: nat, e: Encoding, d: seq<Chunk>, segments: seq<bytes>,
                       n: nat, doneAt: nat, cap: int, r: Result)
    requires Numbered(sent, id, e) && n < |sent| == |segments| && FirstOnly(Taken(d, doneAt), n)
    requires forall i :: 0 <= i < |sent| ==> Plain(e, sent[i].data) == Some(segments[i])
    requires (forall x <- d :: x in sent) && (cap > 0 ==> DataSize(Taken(d, doneAt)) <= cap)
    requires IsCollected(d, doneAt, cap, r)
    ensures r == Ok(Flatten(segments[..n]))
  {
    if Taken(d, doneAt) == [] {
      assert 0 in SeqNos(Taken(d, doneAt)) <==> 0 < n;
    } else {
      CollectedIsAssembly(sent, id, e, d, doneAt, cap, r);
      AssemblePrefix(sent, e, Taken(d, doneAt), segments, n);
    }
  }

  /** A lost tail goes unnoticed: if the job ends before the final chunk has arrived, the
      first n segments come back as if they were the whole result. They are iff n is all. */
  lemma LostTailIsSilent(cfg: Config, ws: seq<bytes>, d: seq<Chunk>, n: nat, doneAt: nat, cap: int, r: Result)
    requires (cfg.encoding.Utf8? || cfg.encoding.Base64?) && cfg.chunkSize > 0
    requires (forall x <- d :: x in Sent(cfg, ws)) && (cap > 0 ==> DataSize(Taken(d, doneAt)) <= cap)
    requires n <= |Segments(cfg, ws)| && FirstOnly(Taken(d, doneAt), n)
    requires IsCollected(d, doneAt, cap, r)
    ensures var all := AllReceived(cfg.encoding, Segments(cfg, ws));
            r == Ok(Flatten(all[..n])) && (r == Ok(Flatten(all)) <==> n == |all|)
  {
    var received := AllReceived(cfg.encoding, Segments(cfg, ws));
    SentPlain(cfg, ws);
    PrefixReturned(Sent(cfg, ws), cfg.resultId, cfg.encoding, d, received + [[]], n, doneAt, cap, r);
    assert (received + [[]])[..n] == received[..n];
    if n < |received| {
      AllNonEmpty(cfg, ws);
      ShorterPrefix(received, n);
    } else {
      assert received[..n] == received;
    }
  }

  lemma AllNonEmpty(cfg: Config, ws: seq<bytes>)
    requires cfg.chunkSize > 0
    ensures forall i :: 0 <= i < |Segments(cfg, ws)| ==> |AllReceived(cfg.encoding, Segments(cfg, ws))[i]| > 0
  {
    var segments := Segments(cfg, ws);
    SegmentsHoldWritten(cfg, ws);
    forall i | 0 <= i < |segments| ensures |Received(cfg.encoding, segments[i])| > 0 {
      assert segments[i] in segments;
      JsonKeepsIff(segments[i]);
    }
  }

  lemma {:induction false} ShorterPrefix(pieces: seq<bytes>, n: nat)
    requires n < |pieces| && forall i :: 0 <= i < |pieces| ==> |pieces[i]| > 0
    ensures |Flatten(pieces[..n])| < |Flatten(pieces)|
  {
    var front := pieces[..|pieces| - 1];
    if n < |front| {
      ShorterPrefix(front, n);
      assert front[..n] == pieces[..n];
    }
  }

  lemma OneAssembly(id: nat, a: Accum, r: Result)
    requires IsAssembly(map[id := a], r)
    ensures r == AssembleOne(a)
  {
    var acc := map[id := a];
    assert id in acc && |acc.Keys| == |{id}| == 1;
  }

  /** The UTF-8 proviso bites: a two-byte letter cut by a chunk size of 1 becomes two segments
      that are not UTF-8, and no complete delivery brings the letter back. */
  lemma CutLetterIsCorrupted(d: seq<Chunk>, doneAt: nat, cap: int, r: Result)
    requires var cfg := Config(0, Utf8, 0, 1);
             && (forall x <- d :: x in Sent(cfg, [[0xC3, 0xA9]])) && HasFinal(Taken(d, doneAt))
             && Complete(Sent(cfg, [[0xC3, 0xA9]]), Taken(d, doneAt))
             && (cap > 0 ==> DataSize(Taken(d, doneAt)) <= cap) && IsCollected(d, doneAt, cap, r)
    ensures Segments(Config(0, Utf8, 0, 1), [[0xC3, 0xA9]]) == [[0xC3], [0xA9]]
    ensures ValidUtf8([0xC3, 0xA9]) && !ValidUtf8([0xC3]) && !ValidUtf8([0xA9])
    ensures r.Ok? && r.value != [0xC3, 0xA9]
  {
    var cfg := Config(0, Utf8, 0, 1);
    LetterInPieces();
    StreamRoundTrip(cfg, [[0xC3, 0xA9]], d, doneAt, cap, r);
    assert [0xC3] in Segments(cfg, [[0xC3, 0xA9]]);
  }

  lemma LetterInPieces()
    ensures Segments(Config(0, Utf8, 0, 1), [[0xC3, 0xA9]]) == [[0xC3], [0xA9]]
    ensures Written(Config(0, Utf8, 0, 1), [[0xC3, 0xA9]]) == [0xC3, 0xA9]
    ensures ValidUtf8([0xC3, 0xA9]) && !ValidUtf8([0xC3]) && !ValidUtf8([0xA9])
  {
    var cfg := Config(0, Utf8, 0, 1);
    var p: bytes := [0xC3, 0xA9];
    TwoPieces(p);
    assert [p][..0] == [];
    assert Segments(cfg, []) == [];
    assert Segments(cfg, [p]) == [] + Pieces(p, 1);
    assert Written(cfg, [p]) == [] + p;
    assert RuneLen(p) == 2 && p[2..] == [];
  }

  lemma TwoPieces(p: bytes)
    requires |p| == 2
    ensures Pieces(p, 1) == [[p[0]], [p[1]]]
  {
    assert p[1..][..1] == [p[1]] && p[1..][1..] == [];
    assert p[..1] == [p[0]] && Pieces(p[1..], 1) == [[p[1]]];
  }
}
