/**
  The lease pattern matcher (internal/glob/glob.go). A pattern is cut at '/' into
  segments: `**` stands for any number of segments, `*` for one, and a `*` inside any
  other segment for any text without '/'.
 */
module Glob {
  import opened Text

  // ---------------------------------------------------------------- one segment

  /** gaps[0] + parts[0] + gaps[1] + parts[1] + ... */
  ghost function Weave(gaps: seq<string>, parts: seq<string>): string
    requires |gaps| == |parts|
  {
    if parts == [] then "" else gaps[0] + parts[0] + Weave(gaps[1..], parts[1..])
  }

  /** The meaning of an in-segment pattern: `s` is the literal parts of `pat` in order,
      with some text standing at each '*'. */
  ghost predicate SegmentMatches(pat: string, s: string)
  {
    var parts := Split(pat, '*');
    exists gaps: seq<string> :: |gaps| == |parts| - 1 && s == parts[0] + Weave(gaps, parts[1..])
  }

  /** The state of the greedy scan: the remaining parts occur in `s` in this order, the
      last one at its very end. */
  ghost predicate Floats(parts: seq<string>, s: string)
    requires |parts| >= 1
    decreases |parts|, 1
  {
    if |parts| == 1 then HasSuffix(s, parts[0]) else exists k :: FloatsAt(parts, s, k)
  }

  /** `Floats` with the first part placed at offset `k`. */
  ghost predicate FloatsAt(parts: seq<string>, s: string, k: int)
    requires |parts| >= 2
    decreases |parts|, 0
  {
    0 <= k <= |s| && HasPrefix(s[k..], parts[0]) && Floats(parts[1..], s[k + |parts[0]|..])
  }

  lemma {:induction false} FloatsGivesGaps(parts: seq<string>, s: string) returns (gaps: seq<string>)
    requires |parts| >= 1 && Floats(parts, s)
    ensures |gaps| == |parts| && s == Weave(gaps, parts)
    decreases |parts|
  {
    if |parts| == 1 {
      gaps := [s[..|s| - |parts[0]|]];
      assert Weave(gaps[1..], parts[1..]) == "";
    } else {
      var k :| FloatsAt(parts, s, k);
      var rest := FloatsGivesGaps(parts[1..], s[k + |parts[0]|..]);
      gaps := [s[..k]] + rest;
      assert s == s[..k] + s[k..][..|parts[0]|] + s[k + |parts[0]|..];
    }
  }

  lemma {:induction false} GapsGiveFloats(gaps: seq<string>, parts: seq<string>)
    requires |gaps| == |parts| >= 1
    ensures Floats(parts, Weave(gaps, parts))
    decreases |parts|
  {
    var s := Weave(gaps, parts);
    if |parts| == 1 {
      assert Weave(gaps[1..], parts[1..]) == "";
    } else {
      GapsGiveFloats(gaps[1..], parts[1..]);
      var k := |gaps[0]|;
      assert s[k..] == parts[0] + Weave(gaps[1..], parts[1..]);
      assert s[k + |parts[0]|..] == Weave(gaps[1..], parts[1..]);
      assert FloatsAt(parts, s, k);
    }
  }

  /** More text in front never hurts: the fact that makes the leftmost choice safe. */
  lemma {:induction false} FloatsMonotone(parts: seq<string>, s: string, k: nat)
    requires |parts| >= 1 && k <= |s| && Floats(parts, s[k..])
    ensures Floats(parts, s)
  {
    if |parts| > 1 {
      var t := s[k..];
      var j :| FloatsAt(parts, t, j);
      assert t[j..] == s[k + j..];
      assert t[j + |parts[0]|..] == s[k + j + |parts[0]|..];
      assert FloatsAt(parts, s, k + j);
    }
  }

  /** Moving the first part to the left leaves the others more room. */
  lemma FurtherLeft(parts: seq<string>, s: string, from: nat, to: nat)
    requires |parts| >= 1 && from <= to <= |s| && Floats(parts, s[to..])
    ensures Floats(parts, s[from..])
  {
    DropDrop(s, from, to - from);
    FloatsMonotone(parts, s[from..], to - from);
  }

  /** One iteration of the greedy loop loses no solution and invents none. */
  lemma LeftmostSuffices(all: seq<string>, n: nat, s: string, i: int)
    requires n + 2 <= |all| && Leftmost(s, all[n], i)
    ensures Floats(all[n..], s) <==> i >= 0 && Floats(all[n + 1..], s[i + |all[n]|..])
  {
    var parts := all[n..];
    var p := parts[0];
    assert parts[1..] == all[n + 1..];
    if k :| FloatsAt(parts, s, k) {
      assert HasPrefix(s[k..], p);
      FurtherLeft(parts[1..], s, i + |p|, k + |p|);
    }
    if i >= 0 && Floats(parts[1..], s[i + |p|..]) {
      assert FloatsAt(parts, s, i);
    }
  }

  lemma SegmentMatchesIffFloats(pat: string, s: string)
    requires '*' in pat
    ensures var parts := Split(pat, '*');
            && |parts| >= 2
            && (SegmentMatches(pat, s) <==> HasPrefix(s, parts[0]) && Floats(parts[1..], s[|parts[0]|..]))
  {
    var parts := Split(pat, '*');
    if SegmentMatches(pat, s) {
      var gaps :| |gaps| == |parts| - 1 && s == parts[0] + Weave(gaps, parts[1..]);
      GapsGiveFloats(gaps, parts[1..]);
      assert s[|parts[0]|..] == Weave(gaps, parts[1..]);
    }
    if HasPrefix(s, parts[0]) && Floats(parts[1..], s[|parts[0]|..]) {
      var gaps := FloatsGivesGaps(parts[1..], s[|parts[0]|..]);
      assert s == parts[0] + Weave(gaps, parts[1..]);
    }
  }

  lemma {:induction false} StarsRebuildPattern(parts: seq<string>) returns (gaps: seq<string>)
    requires |parts| >= 1
    ensures |gaps| == |parts| - 1
    ensures Join(parts, '*') == parts[0] + Weave(gaps, parts[1..])
    decreases |parts|
  {
    if |parts| == 1 {
      gaps := [];
    } else {
      var rest := StarsRebuildPattern(parts[1..]);
      gaps := ["*"] + rest;
      assert parts[1..][1..] == parts[2..];
    }
  }

  /** A segment pattern matches its own text, and without '*' nothing else. */
  lemma SegmentMatchesLiteral(pat: string, s: string)
    ensures SegmentMatches(pat, pat)
    ensures '*' !in pat ==> (SegmentMatches(pat, s) <==> pat == s)
  {
    SplitJoins(pat, '*');
    var gaps := StarsRebuildPattern(Split(pat, '*'));
    if '*' !in pat {
      assert Split(pat, '*') == [pat];
      assert Weave([], []) == "";
    }
  }

  /** The loop of literalSegmentMatch: leftmost place for each middle part, last part at
      the end. */
  method ScanParts(parts: seq<string>, text: string) returns (found: bool)
    requires |parts| >= 2
    ensures found <==> Floats(parts[1..], text)
  {
    var s := text;
    var i := 1;
    while i < |parts| - 1
      invariant 1 <= i <= |parts| - 1
      invariant Floats(parts[1..], text) <==> Floats(parts[i..], s)
    {
      var idx := IndexOf(s, parts[i]);
      LeftmostSuffices(parts, i, s, idx);
      if idx < 0 {
        return false;
      }
      s := s[idx + |parts[i]|..];
      i := i + 1;
    }
    found := HasSuffix(s, parts[|parts| - 1]);
  }

  /** literalSegmentMatch: the greedy leftmost scan decides the wildcard language. */
  method LiteralSegmentMatch(pat: string, s: string) returns (matched: bool)
    ensures matched <==> SegmentMatches(pat, s)
  {
    SegmentMatchesLiteral(pat, s);
    if pat == s {
      return true;
    }
    if '*' !in pat {
      return false;
    }
    SegmentMatchesIffFloats(pat, s);
    var parts := Split(pat, '*');
    if !HasPrefix(s, parts[0]) {
      return false;
    }
    matched := ScanParts(parts, s[|parts[0]|..]);
  }

  // ---------------------------------------------------------------- whole targets

  function SplitSep(s: string): seq<string> {
    if s == "" then [] else Split(s, '/')
  }

  /** The segments of a path: none for the empty one, and otherwise free of '/' and the path
      again when joined. */
  lemma SegmentsJoin(s: string)
    ensures SplitSep(s) == [] <==> s == ""
    ensures s != "" ==> Join(SplitSep(s), '/') == s && forall x <- SplitSep(s) :: '/' !in x
  {
    SplitJoins(s, '/');
  }

  ghost predicate MatchSegments(p: seq<string>, s: seq<string>)
    decreases |p|
  {
    if p == [] then
      s == []
    else if p[0] == "**" then
      exists i :: 0 <= i <= |s| && MatchSegments(p[1..], s[i..])
    else
      && s != []
      && (p[0] == "*" || SegmentMatches(p[0], s[0]))
      && MatchSegments(p[1..], s[1..])
  }

  ghost predicate Match(pattern: string, s: string) {
    MatchSegments(SplitSep(pattern), SplitSep(s))
  }

  ghost function Concat(pieces: seq<seq<string>>): seq<string> {
    if pieces == [] then [] else pieces[0] + Concat(pieces[1..])
  }

  /** What one pattern segment may stand for. */
  ghost predicate Stands(seg: string, piece: seq<string>) {
    seg == "**" || (|piece| == 1 && (seg == "*" || SegmentMatches(seg, piece[0])))
  }

  /** `s` can be cut into consecutive pieces, one per pattern segment. */
  ghost predicate CutsInto(p: seq<string>, pieces: seq<seq<string>>, s: seq<string>) {
    |pieces| == |p| && Concat(pieces) == s && forall i :: 0 <= i < |p| ==> Stands(p[i], pieces[i])
  }

  lemma {:induction false} MatchGivesCut(p: seq<string>, s: seq<string>) returns (pieces: seq<seq<string>>)
    requires MatchSegments(p, s)
    ensures CutsInto(p, pieces, s)
    decreases |p|
  {
    if p == [] {
      pieces := [];
    } else {
      var i := 1;
      if p[0] == "**" {
        i :| 0 <= i <= |s| && MatchSegments(p[1..], s[i..]);
      }
      var rest := MatchGivesCut(p[1..], s[i..]);
      pieces := [s[..i]] + rest;
    }
  }

  lemma {:induction false} CutGivesMatch(p: seq<string>, pieces: seq<seq<string>>, s: seq<string>)
    requires CutsInto(p, pieces, s)
    ensures MatchSegments(p, s)
    decreases |p|
  {
    if p != [] {
      var k := |pieces[0]|;
      assert s[k..] == Concat(pieces[1..]);
      assert forall i :: 0 <= i < |p| - 1 ==> p[1..][i] == p[i + 1] && pieces[1..][i] == pieces[i + 1];
      CutGivesMatch(p[1..], pieces[1..], s[k..]);
      assert Stands(p[0], pieces[0]);
    }
  }

  /** Match accepts exactly the targets that can be cut along the pattern. */
  lemma MatchIffCut(pattern: string, s: string)
    ensures Match(pattern, s) <==> exists pieces :: CutsInto(SplitSep(pattern), pieces, SplitSep(s))
  {
    if Match(pattern, s) {
      var pieces := MatchGivesCut(SplitSep(pattern), SplitSep(s));
    }
    if pieces :| CutsInto(SplitSep(pattern), pieces, SplitSep(s)) {
      CutGivesMatch(SplitSep(pattern), pieces, SplitSep(s));
    }
  }

  /** matchSegments, with its search loop over split points. */
  method MatchSegmentsSearch(p: seq<string>, s: seq<string>) returns (matched: bool)
    ensures matched <==> MatchSegments(p, s)
    decreases |p|
  {
    if |p| == 0 {
      return |s| == 0;
    }
    var rest := p[1..];
    if p[0] == "**" {
      if |rest| == 0 {
        assert MatchSegments(rest, s[|s|..]);
        return true;
      }
      for i := 0 to |s| + 1
        invariant forall k :: 0 <= k < i ==> !MatchSegments(rest, s[k..])
      {
        var found := MatchSegmentsSearch(rest, s[i..]);
        if found {
          return true;
        }
      }
      return false;
    }
    if |s| == 0 {
      return false;
    }
    if p[0] != "*" {
      var head := LiteralSegmentMatch(p[0], s[0]);
      if !head {
        return false;
      }
    }
    matched := MatchSegmentsSearch(rest, s[1..]);
  }

  // ---------------------------------------------------------------- inclusion

  ghost predicate SegmentCovers(parent: string, child: string) {
    parent == child || ('*' !in child && SegmentMatches(parent, child))
  }

  ghost predicate CoversSegments(p: seq<string>, c: seq<string>)
    decreases |p|
  {
    if p == [] then
      c == []
    else if p[0] == "**" then
      exists i :: 0 <= i <= |c| && CoversSegments(p[1..], c[i..])
    else if p[0] == "*" then
      c != [] && c[0] != "**" && CoversSegments(p[1..], c[1..])
    else
      && c != [] && c[0] != "*" && c[0] != "**"
      && SegmentCovers(p[0], c[0])
      && CoversSegments(p[1..], c[1..])
  }

  ghost predicate Covers(parent: string, child: string) {
    CoversSegments(SplitSep(parent), SplitSep(child))
  }

  /** covers, with its search loop over split points. */
  method CoversSearch(p: seq<string>, c: seq<string>) returns (covered: bool)
    ensures covered <==> CoversSegments(p, c)
    decreases |p|
  {
    if |p| == 0 {
      return |c| == 0;
    }
    var rest := p[1..];
    if p[0] == "**" {
      for i := 0 to |c| + 1
        invariant forall k :: 0 <= k < i ==> !CoversSegments(rest, c[k..])
      {
        var found := CoversSearch(rest, c[i..]);
        if found {
          return true;
        }
      }
      return false;
    }
    if |c| == 0 || c[0] == "**" {
      return false;
    }
    if p[0] != "*" {
      if c[0] == "*" {
        return false;
      }
      if p[0] != c[0] {
        if '*' in c[0] {
          return false;
        }
        var head := LiteralSegmentMatch(p[0], c[0]);
        if !head {
          return false;
        }
      }
    }
    covered := CoversSearch(rest, c[1..]);
  }

  /** What one parent segment may stand for in a child pattern: `**` for any stretch, with
      wildcards of every kind in it; `*` for one segment other than `**`; any other segment for
      itself, or for one literal segment it matches. */
  ghost predicate Encloses(seg: string, piece: seq<string>) {
    || seg == "**"
    || (|piece| == 1 && seg == "*" && piece[0] != "**")
    || (|piece| == 1 && seg == piece[0] && seg != "*")
    || (|piece| == 1 && '*' !in piece[0] && SegmentMatches(seg, piece[0]))
  }

  /** The child's segments can be cut into consecutive pieces, one per parent segment. */
  ghost predicate Fits(p: seq<string>, pieces: seq<seq<string>>, c: seq<string>) {
    |pieces| == |p| && Concat(pieces) == c && forall i :: 0 <= i < |p| ==> Encloses(p[i], pieces[i])
  }

  lemma {:induction false} CoversGivesFit(p: seq<string>, c: seq<string>) returns (pieces: seq<seq<string>>)
    requires CoversSegments(p, c)
    ensures Fits(p, pieces, c)
    decreases |p|
  {
    if p == [] {
      pieces := [];
    } else {
      var i := 1;
      if p[0] == "**" {
        i :| 0 <= i <= |c| && CoversSegments(p[1..], c[i..]);
      }
      var rest := CoversGivesFit(p[1..], c[i..]);
      pieces := [c[..i]] + rest;
    }
  }

  lemma {:induction false} FitGivesCovers(p: seq<string>, pieces: seq<seq<string>>, c: seq<string>)
    requires Fits(p, pieces, c)
    ensures CoversSegments(p, c)
    decreases |p|
  {
    if p != [] {
      var k := |pieces[0]|;
      assert c[k..] == Concat(pieces[1..]);
      assert forall i :: 0 <= i < |p| - 1 ==> p[1..][i] == p[i + 1] && pieces[1..][i] == pieces[i + 1];
      FitGivesCovers(p[1..], pieces[1..], c[k..]);
      assert Encloses(p[0], pieces[0]);
      assert '*' in "*" && '*' in "**";
    }
  }

  /** Covers accepts exactly the children that can be cut along the parent. */
  lemma CoversIffFits(parent: string, child: string)
    ensures Covers(parent, child) <==> exists pieces :: Fits(SplitSep(parent), pieces, SplitSep(child))
  {
    if Covers(parent, child) {
      var pieces := CoversGivesFit(SplitSep(parent), SplitSep(child));
    }
    if pieces :| Fits(SplitSep(parent), pieces, SplitSep(child)) {
      FitGivesCovers(SplitSep(parent), pieces, SplitSep(child));
    }
  }

  /** A target matched by `c` has a tail matched by every tail of `c`. */
  lemma {:induction false} MatchTail(c: seq<string>, s: seq<string>, i: nat) returns (k: nat)
    requires i <= |c| && MatchSegments(c, s)
    ensures k <= |s| && MatchSegments(c[i..], s[k..])
    decreases i
  {
    if i == 0 {
      k := 0;
      assert c[0..] == c && s[0..] == s;
    } else {
      var k' := MatchTail(c, s, i - 1);
      k := NextTail(c, s, i - 1, k');
    }
  }

  lemma NextTail(c: seq<string>, s: seq<string>, i: nat, k: nat) returns (k': nat)
    requires i < |c| && k <= |s| && MatchSegments(c[i..], s[k..])
    ensures k' <= |s| && MatchSegments(c[i + 1..], s[k'..])
  {
    var j := OneSegment(c[i..], s[k..]);
    assert c[i..][1..] == c[i + 1..] && s[k..][j..] == s[k + j..];
    k' := k + j;
  }

  /** What is left of the target behind the first pattern segment. */
  lemma OneSegment(c: seq<string>, s: seq<string>) returns (j: nat)
    requires c != [] && MatchSegments(c, s)
    ensures j <= |s| && MatchSegments(c[1..], s[j..])
  {
    j := 1;
    if c[0] == "**" {
      j :| 0 <= j <= |s| && MatchSegments(c[1..], s[j..]);
    }
  }

  lemma {:induction false} CoversSegmentsSound(p: seq<string>, c: seq<string>, s: seq<string>)
    requires CoversSegments(p, c) && MatchSegments(c, s)
    ensures MatchSegments(p, s)
    decreases |p|
  {
    if p == [] {
    } else if p[0] == "**" {
      var i :| 0 <= i <= |c| && CoversSegments(p[1..], c[i..]);
      var k := MatchTail(c, s, i);
      CoversSegmentsSound(p[1..], c[i..], s[k..]);
    } else {
      CoversSegmentsSound(p[1..], c[1..], s[1..]);
      if p[0] != "*" && p[0] != c[0] {
        SegmentMatchesLiteral(c[0], s[0]);
      }
    }
  }

  /** Section 9.4: a covered child never grants a target the parent refuses. */
  lemma CoversSound(parent: string, child: string, target: string)
    requires Covers(parent, child) && Match(child, target)
    ensures Match(parent, target)
  {
    CoversSegmentsSound(SplitSep(parent), SplitSep(child), SplitSep(target));
  }

  lemma {:induction false} CoversSegmentsReflexive(p: seq<string>)
    ensures CoversSegments(p, p)
    decreases |p|
  {
    if p != [] {
      CoversSegmentsReflexive(p[1..]);
    }
  }

  lemma CoversReflexive(p: string)
    ensures Covers(p, p)
  {
    CoversSegmentsReflexive(SplitSep(p));
  }

  lemma {:induction false} CoversTail(p: seq<string>, c: seq<string>, i: nat) returns (k: nat)
    requires i <= |p| && CoversSegments(p, c)
    ensures k <= |c| && CoversSegments(p[i..], c[k..])
    decreases |p|
  {
    if i == 0 {
      k := 0;
      assert p[0..] == p && c[0..] == c;
    } else {
      var j := 1;
      if p[0] == "**" {
        j :| 0 <= j <= |c| && CoversSegments(p[1..], c[j..]);
      }
      var k' := CoversTail(p[1..], c[j..], i - 1);
      k := j + k';
      assert p[1..][i - 1..] == p[i..];
      assert c[j..][k'..] == c[k..];
    }
  }

  lemma {:induction false} CoversSegmentsTransitive(a: seq<string>, b: seq<string>, c: seq<string>)
    requires CoversSegments(a, b) && CoversSegments(b, c)
    ensures CoversSegments(a, c)
    decreases |a|
  {
    if a == [] {
    } else if a[0] == "**" {
      var i :| 0 <= i <= |b| && CoversSegments(a[1..], b[i..]);
      var k := CoversTail(b, c, i);
      CoversSegmentsTransitive(a[1..], b[i..], c[k..]);
    } else {
      CoversSegmentsTransitive(a[1..], b[1..], c[1..]);
      if a[0] != "*" && a[0] != b[0] {
        SegmentMatchesLiteral(b[0], c[0]);
      }
    }
  }

  lemma CoversTransitive(a: string, b: string, c: string)
    requires Covers(a, b) && Covers(b, c)
    ensures Covers(a, c)
  {
    CoversSegmentsTransitive(SplitSep(a), SplitSep(b), SplitSep(c));
  }

  lemma {:induction false} CoversSegmentsOnLiterals(p: seq<string>, c: seq<string>)
    requires forall x <- c :: '*' !in x
    ensures CoversSegments(p, c) <==> MatchSegments(p, c)
    decreases |p|
  {
    if p == [] {
    } else if p[0] == "**" {
      forall i | 0 <= i <= |c|
        ensures CoversSegments(p[1..], c[i..]) <==> MatchSegments(p[1..], c[i..])
      {
        CoversSegmentsOnLiterals(p[1..], c[i..]);
      }
    } else if c != [] {
      assert '*' !in c[0] && '*' in "*" && '*' in "**";
      CoversSegmentsOnLiterals(p[1..], c[1..]);
      SegmentMatchesLiteral(p[0], c[0]);
    }
  }

  /** On a concrete child the inclusion check is exact: it is the match itself. */
  lemma CoversOnConcreteChild(parent: string, child: string)
    requires '*' !in child
    ensures Covers(parent, child) <==> Match(parent, child)
  {
    if child != "" {
      SplitJoins(child, '/');
      JoinMentions(Split(child, '/'), '/');
    }
    CoversSegmentsOnLiterals(SplitSep(parent), SplitSep(child));
  }

  lemma {:induction false} JoinMentions(parts: seq<string>, sep: char)
    ensures forall p <- parts :: forall x <- p :: x in Join(parts, sep)
  {
    if |parts| > 1 {
      JoinMentions(parts[1..], sep);
      assert parts == [parts[0]] + parts[1..];
    }
  }

  // ---------------------------------------------------------------- where the check is complete

  /** Every segment is a lone '*' or has none. */
  ghost predicate Plain(c: seq<string>) {
    forall i :: 0 <= i < |c| ==> c[i] == "*" || '*' !in c[i]
  }

  predicate AllStars(seg: string) {
    forall i :: 0 <= i < |seg| ==> seg[i] == '*'
  }

  /** No segment mentions `ch`, and none spells '*' with three stars or more. */
  ghost predicate Avoids(p: seq<string>, ch: char) {
    forall i :: 0 <= i < |p| ==> ch !in p[i] && (AllStars(p[i]) ==> |p[i]| <= 2)
  }

  /** The child's own target, with `ch` for each lone star. */
  function Instance(c: seq<string>, ch: char): (t: seq<string>)
    ensures |t| == |c|
  {
    seq(|c|, i requires 0 <= i < |c| => if c[i] == "*" then [ch] else c[i])
  }

  lemma {:induction false} InstanceMatches(c: seq<string>, ch: char)
    requires Plain(c)
    ensures MatchSegments(c, Instance(c, ch))
    decreases |c|
  {
    if c != [] {
      InstanceMatches(c[1..], ch);
      assert Instance(c, ch)[1..] == Instance(c[1..], ch);
      SegmentMatchesLiteral(c[0], c[0]);
      assert '*' in "**";
    }
  }

  lemma {:induction false} WeaveMentions(gaps: seq<string>, parts: seq<string>, i: nat, x: char)
    requires |gaps| == |parts| && i < |parts| && x in parts[i]
    ensures x in Weave(gaps, parts)
  {
    if i > 0 {
      WeaveMentions(gaps[1..], parts[1..], i - 1, x);
    }
  }

  lemma {:induction false} PartMentions(s: string, sep: char, x: char) returns (i: nat)
    requires x in s && x != sep
    ensures i < |Split(s, sep)| && x in Split(s, sep)[i]
  {
    if s[0] == x {
      i := 0;
    } else {
      assert s == [s[0]] + s[1..];
      i := PartMentions(s[1..], sep, x);
      if s[0] == sep {
        i := i + 1;
      }
    }
  }

  /** A pattern that matches a character it does not mention is all stars. */
  lemma UnmentionedNeedsStars(pat: string, ch: char)
    requires SegmentMatches(pat, [ch]) && ch !in pat
    ensures pat != "" && AllStars(pat)
  {
    SegmentMatchesLiteral(pat, [ch]);
    var parts := Split(pat, '*');
    var gaps :| |gaps| == |parts| - 1 && [ch] == parts[0] + Weave(gaps, parts[1..]);
    forall k | 0 <= k < |pat| ensures pat[k] == '*' {
      if pat[k] != '*' {
        LiteralShows(pat, gaps, pat[k]);
      }
    }
  }

  lemma LiteralShows(pat: string, gaps: seq<string>, x: char)
    requires x in pat && x != '*' && |gaps| == |Split(pat, '*')| - 1
    ensures x in Split(pat, '*')[0] + Weave(gaps, Split(pat, '*')[1..])
  {
    var i := PartMentions(pat, '*', x);
    if i > 0 {
      WeaveMentions(gaps, Split(pat, '*')[1..], i - 1, x);
    }
  }

  lemma {:induction false} InstanceDecides(p: seq<string>, c: seq<string>, ch: char)
    requires Plain(c) && Avoids(p, ch) && MatchSegments(p, Instance(c, ch))
    ensures CoversSegments(p, c)
    decreases |p|
  {
    if p == [] {
    } else if p[0] == "**" {
      var t := Instance(c, ch);
      var i :| 0 <= i <= |t| && MatchSegments(p[1..], t[i..]);
      assert t[i..] == Instance(c[i..], ch);
      InstanceDecides(p[1..], c[i..], ch);
    } else {
      assert Instance(c, ch)[1..] == Instance(c[1..], ch);
      InstanceDecides(p[1..], c[1..], ch);
      assert '*' in "*" && '*' in "**";
      if c[0] == "*" && p[0] != "*" {
        UnmentionedNeedsStars(p[0], ch);
        StarsSpelt(p[0]);
      }
    }
  }

  lemma StarsSpelt(seg: string)
    requires AllStars(seg) && 0 < |seg| <= 2
    ensures seg == "*" || seg == "**"
  {
  }

  /** For a child whose stars stand alone, and a parent that does not spell '*' with three
      stars or more, the check is exact: the child is covered iff every target it grants the
      parent grants. `ch` is any character the parent does not mention. */
  lemma CoversIffIncluded(parent: string, child: string, ch: char)
    requires Plain(SplitSep(child)) && Avoids(SplitSep(parent), ch) && ch != '/'
    ensures Covers(parent, child) <==> forall target :: Match(child, target) ==> Match(parent, target)
  {
    if Covers(parent, child) {
      forall target | Match(child, target) ensures Match(parent, target) {
        CoversSound(parent, child, target);
      }
    }
    if forall target :: Match(child, target) ==> Match(parent, target) {
      var target := InstanceTarget(child, ch);
      InstanceMatches(SplitSep(child), ch);
      assert Match(child, target);
      InstanceDecides(SplitSep(parent), SplitSep(child), ch);
    }
  }

  lemma InstanceTarget(child: string, ch: char) returns (target: string)
    requires ch != '/'
    ensures SplitSep(target) == Instance(SplitSep(child), ch)
  {
    if child == "" {
      target := "";
    } else {
      PartsFree(child, '/');
      SplitJoins(child, '/');
      var t := Instance(Split(child, '/'), ch);
      target := Join(t, '/');
      SplitOfJoin(t, '/');
    }
  }

  lemma {:induction false} SplitTrailingStar(literal: string)
    requires '*' !in literal
    ensures Split(literal + "*", '*') == [literal, ""]
  {
    if literal == "" {
      assert Split("*"[1..], '*') == [""];
    } else {
      SplitTrailingStar(literal[1..]);
      assert (literal + "*")[1..] == literal[1..] + "*";
      assert [literal[0]] + literal[1..] == literal;
    }
  }

  /** A trailing star: any text that begins with the literal. */
  lemma TrailingStar(literal: string, s: string)
    requires '*' !in literal
    ensures SegmentMatches(literal + "*", s) <==> HasPrefix(s, literal)
  {
    SplitTrailingStar(literal);
    if SegmentMatches(literal + "*", s) {
      var gaps :| |gaps| == 1 && s == literal + Weave(gaps, [""]);
    }
    if HasPrefix(s, literal) {
      WeaveOne(s[|literal|..]);
      assert s == literal + Weave([s[|literal|..]], [""]);
    }
  }

  /** Text beginning with "ab" begins with "a". */
  lemma AbStarInsideAStar(s: string)
    requires SegmentMatches("ab*", s)
    ensures SegmentMatches("a*", s)
  {
    TrailingStar("ab", s);
    TrailingStar("a", s);
    assert "ab" + "*" == "ab*" && "a" + "*" == "a*";
    assert s[..2][..1] == "a";
  }

  lemma WeaveOne(gap: string)
    ensures Weave([gap], [""]) == gap
  {
    assert Weave([gap][1..], [""][1..]) == "";
  }

  /** The check is conservative: "a*" includes "ab*" but Covers refuses it. */
  lemma CoversIsConservative(target: string)
    ensures !Covers("a*", "ab*")
    ensures Match("ab*", target) ==> Match("a*", target)
  {
    SplitOne("a*");
    SplitOne("ab*");
    assert !SegmentCovers("a*", "ab*") by {
      assert "ab*"[2] == '*';
    }
    if Match("ab*", target) {
      var s := SplitSep(target);
      assert MatchSegments(["ab*"], s) && s != [];
      AbStarInsideAStar(s[0]);
      assert MatchSegments(["a*"], s);
    }
  }

  lemma SplitOne(s: string)
    requires s != "" && '/' !in s
    ensures SplitSep(s) == [s]
  {
    SplitJoins(s, '/');
  }
}
