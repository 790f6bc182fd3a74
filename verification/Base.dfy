/** Types shared by every module. */
module Base {
  datatype Option<+T> = None | Some(value: T)

  /** Wire counters are Go uint64 values. */
  const U64: nat := 0x1_0000_0000_0000_0000

  /** How much of `pattern` has come up in `acts`, in order, other actions in between. */
  function Matched<A(==)>(acts: seq<A>, pattern: seq<A>): (n: nat)
    ensures n <= |pattern|
  {
    if acts == [] then 0
    else
      var n := Matched(acts[..|acts| - 1], pattern);
      if n < |pattern| && acts[|acts| - 1] == pattern[n] then n + 1 else n
  }

  /** `pattern` is a subsequence of `acts`. */
  predicate Contains<A(==)>(acts: seq<A>, pattern: seq<A>) {
    Matched(acts, pattern) == |pattern|
  }

  lemma Reassociate<T>(a: seq<T>, b: seq<T>, c: seq<T>)
    ensures (a + b) + c == a + (b + c)
  {
  }
}
