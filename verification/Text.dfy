/**
  The string operations the glob matcher and the list cursor rely on. A string is a
  sequence of characters, one per byte of the Go string.
 */
module Text {

  /** `parts` glued back together with `sep` between neighbours. */
  function Join(parts: seq<string>, sep: char): string
  {
    if parts == [] then ""
    else if |parts| == 1 then parts[0]
    else parts[0] + [sep] + Join(parts[1..], sep)
  }

  /** `strings.Split` on a one-character separator. */
  function Split(s: string, sep: char): (parts: seq<string>)
    ensures |parts| >= 1
    ensures |parts| == 1 <==> sep !in s
  {
    if s == "" then
      [""]
    else
      var rest := Split(s[1..], sep);
      if s[0] == sep then [""] + rest else [[s[0]] + rest[0]] + rest[1..]
  }

  lemma {:induction false} PartsFree(s: string, sep: char)
    ensures forall i :: 0 <= i < |Split(s, sep)| ==> sep !in Split(s, sep)[i]
  {
    if s != "" {
      PartsFree(s[1..], sep);
      var rest := Split(s[1..], sep);
      assert s[0] != sep ==> sep !in [s[0]] + rest[0];
    }
  }

  /** The parts are free of the separator and join back to the text. */
  lemma {:induction false} SplitJoins(s: string, sep: char)
    ensures Join(Split(s, sep), sep) == s
    ensures forall p <- Split(s, sep) :: sep !in p
    ensures sep !in s ==> Split(s, sep) == [s]
  {
    PartsFree(s, sep);
    if s != "" {
      SplitJoins(s[1..], sep);
      var rest := Split(s[1..], sep);
      if s[0] == sep {
        JoinCons("", rest, sep);
      } else {
        JoinHead(s[0], rest, sep);
      }
      assert s == [s[0]] + s[1..];
    }
  }

  lemma JoinCons(part: string, parts: seq<string>, sep: char)
    requires parts != []
    ensures Join([part] + parts, sep) == part + [sep] + Join(parts, sep)
  {
    assert ([part] + parts)[1..] == parts;
  }

  lemma JoinHead(c: char, parts: seq<string>, sep: char)
    requires parts != []
    ensures Join([[c] + parts[0]] + parts[1..], sep) == [c] + Join(parts, sep)
  {
    assert ([[c] + parts[0]] + parts[1..])[1..] == parts[1..];
  }

  lemma {:induction false} SplitHead(head: string, rest: string, sep: char)
    requires sep !in head
    ensures Split(head + [sep] + rest, sep) == [head] + Split(rest, sep)
  {
    var s := head + [sep] + rest;
    if head == "" {
      assert s[1..] == rest;
    } else {
      SplitHead(head[1..], rest, sep);
      assert s[1..] == head[1..] + [sep] + rest;
      assert head == [head[0]] + head[1..];
    }
  }

  /** Splitting undoes joining. */
  lemma {:induction false} SplitOfJoin(parts: seq<string>, sep: char)
    requires parts != [] && forall i :: 0 <= i < |parts| ==> sep !in parts[i]
    ensures Split(Join(parts, sep), sep) == parts
  {
    if |parts| == 1 {
      SplitJoins(parts[0], sep);
    } else {
      SplitOfJoin(parts[1..], sep);
      SplitHead(parts[0], Join(parts[1..], sep), sep);
      assert parts == [parts[0]] + parts[1..];
    }
  }

  lemma DropDrop(s: string, a: nat, b: nat)
    requires a + b <= |s|
    ensures s[a..][b..] == s[a + b..]
  {
  }

  predicate HasPrefix(s: string, t: string) {
    |t| <= |s| && s[..|t|] == t
  }

  predicate HasSuffix(s: string, t: string) {
    |t| <= |s| && s[|s| - |t|..] == t
  }

  ghost predicate Leftmost(s: string, t: string, i: int) {
    && (i == -1 || 0 <= i <= |s| - |t|)
    && (i >= 0 ==> HasPrefix(s[i..], t))
    && forall k :: 0 <= k <= |s| && (i < 0 || k < i) ==> !HasPrefix(s[k..], t)
  }

  /** `strings.Index`: the leftmost occurrence of `t` in `s`, or -1. */
  function IndexOf(s: string, t: string): (i: int)
    ensures Leftmost(s, t, i)
  {
    if HasPrefix(s, t) then
      assert s[0..] == s;
      0
    else if s == "" then
      -1
    else
      var j := IndexOf(s[1..], t);
      assert forall k :: 1 <= k <= |s| ==> s[k..] == s[1..][k - 1..];
      if j < 0 then -1 else j + 1
  }
}
