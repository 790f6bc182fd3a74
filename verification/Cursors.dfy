/** List cursors (server/server.go: encodeCursor, decodeCursor, afterCursor). */
module Cursors {
  import opened Base
  import opened Text
  import opened JobOrder

  const I64: int := 0x8000_0000_0000_0000

  // ---------------------------------------------------------------- decimal numbers

  predicate IsDigit(c: char) {
    '0' <= c <= '9'
  }

  /** strconv.FormatInt, base 10. */
  function Digits(n: nat): string {
    if n < 10 then [(48 + n) as char] else Digits(n / 10) + [(48 + n % 10) as char]
  }

  function FormatInt(i: int): string {
    if i < 0 then "-" + Digits(-i) else Digits(i)
  }

  function Number(s: string): nat
    requires forall c <- s :: IsDigit(c)
  {
    if s == "" then 0
    else
      assert IsDigit(s[|s| - 1]);
      Number(s[..|s| - 1]) * 10 + (s[|s| - 1] as int - 48)
  }

  /** strconv.ParseInt, base 10, 64 bits: an optional sign, digits, in range. */
  function ParseInt(s: string): Option<int> {
    var signed := s != "" && (s[0] == '-' || s[0] == '+');
    var body := if signed then s[1..] else s;
    if body == "" || exists c <- body :: !IsDigit(c) then None
    else
      var n: int := if signed && s[0] == '-' then 0 - Number(body) else Number(body);
      if -I64 <= n < I64 then Some(n) else None
  }

  lemma {:induction false} DigitsNumber(n: nat)
    ensures Digits(n) != "" && (forall c <- Digits(n) :: IsDigit(c)) && Number(Digits(n)) == n
  {
    if n >= 10 {
      DigitsNumber(n / 10);
      var s := Digits(n);
      assert s[..|s| - 1] == Digits(n / 10);
    } else {
      var s := Digits(n);
      assert s[..0] == "";
    }
  }

  lemma FormatParse(i: int)
    requires -I64 <= i < I64
    ensures ParseInt(FormatInt(i)) == Some(i)
    ensures '|' !in FormatInt(i)
  {
    DigitsNumber(if i < 0 then -i else i);
    var s := FormatInt(i);
    if i < 0 {
      assert s[1..] == Digits(-i);
    } else {
      assert IsDigit(s[0]);
    }
  }

  // ---------------------------------------------------------------- cursors

  datatype Cursor = FromStart | Legacy(id: string) | After(ts: int, id: string)

  function EncodeCursor(k: Key): string {
    FormatInt(k.createdAt) + "|" + k.id
  }

  /** An empty or unparseable cursor starts over; one without '|' is a bare job id. */
  function DecodeCursor(cursor: string): Cursor {
    if cursor == "" then FromStart
    else
      var sep := IndexOf(cursor, "|");
      if sep < 0 then Legacy(cursor)
      else
        match ParseInt(cursor[..sep])
        case None => FromStart
        case Some(ts) => After(ts, cursor[sep + 1..])
  }

  predicate AfterCursor(cur: Cursor, k: Key) {
    match cur
    case FromStart => true
    case Legacy(id) => StrLess(id, k.id)
    case After(ts, id) => k.createdAt > ts || (k.createdAt == ts && StrLess(id, k.id))
  }

  /** The separator is the first '|', whatever the job id holds. */
  lemma SeparatorAt(f: string, id: string)
    requires '|' !in f
    ensures IndexOf(f + "|" + id, "|") == |f|
  {
    var s := f + "|" + id;
    assert s[|f|..] == "|" + id;
    assert HasPrefix(s[|f|..], "|");
    LeftmostIs(s, f, IndexOf(s, "|"));
  }

  lemma LeftmostIs(s: string, f: string, i: int)
    requires |f| < |s| && s[..|f|] == f && '|' !in f && HasPrefix(s[|f|..], "|") && Leftmost(s, "|", i)
    ensures i == |f|
  {
    assert 0 <= i <= |f|;
    assert s[i..][..1] == "|";
    assert s[i] == '|';
    assert forall k :: 0 <= k < |f| ==> s[..|f|][k] == f[k];
  }

  lemma CursorDecodes(k: Key)
    requires -I64 <= k.createdAt < I64
    ensures DecodeCursor(EncodeCursor(k)) == After(k.createdAt, k.id)
  {
    FormatParse(k.createdAt);
    var f := FormatInt(k.createdAt);
    SeparatorAt(f, k.id);
    var s := f + "|" + k.id;
    assert s[..|f|] == f && s[|f| + 1..] == k.id;
  }

  /** What every cursor string selects: the empty one and one whose first part is no int64
      everything, a bare job id the ids after it, any other what sorts after its key. */
  lemma CursorSelects(cursor: string, head: string, id: string, x: Key)
    ensures AfterCursor(DecodeCursor(""), x)
    ensures cursor != "" && '|' !in cursor ==> (AfterCursor(DecodeCursor(cursor), x) <==> StrLess(cursor, x.id))
    ensures '|' !in head ==>
              (AfterCursor(DecodeCursor(head + "|" + id), x) <==>
                 ParseInt(head).None? || Less(Key(ParseInt(head).value, id), x))
  {
    if '|' !in cursor {
      NoSeparator(cursor);
    }
    if '|' !in head {
      SeparatorAt(head, id);
      var s := head + "|" + id;
      assert s[..|head|] == head && s[|head| + 1..] == id;
    }
  }

  lemma NoSeparator(cursor: string)
    requires '|' !in cursor
    ensures IndexOf(cursor, "|") < 0
  {
    forall k | 0 <= k <= |cursor| ensures !HasPrefix(cursor[k..], "|") {
      assert k < |cursor| ==> cursor[k..][0] == cursor[k] && cursor[k] in cursor;
    }
  }

  /** A cursor points at its key for every time UnixNano can represent and every job id,
      even one containing '|'. */
  lemma CursorRoundTrip(k: Key)
    requires -I64 <= k.createdAt < I64
    ensures DecodeCursor(EncodeCursor(k)) == After(k.createdAt, k.id)
    ensures forall x :: AfterCursor(DecodeCursor(EncodeCursor(k)), x) <==> Less(k, x)
  {
    CursorDecodes(k);
    forall x ensures AfterCursor(After(k.createdAt, k.id), x) <==> Less(k, x) {
    }
  }
}
