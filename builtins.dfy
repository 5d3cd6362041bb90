/** The few Python built-ins the node tree relies on: `str()`, `str.join` and truthiness. */
module Builtins {
  import opened Wrappers

  /** `str(x)` (and `f"{x}"`) of an optional string: an absent value prints as `None`. */
  function Str(x: Option<string>): string {
    match x
    case Some(s) => s
    case None => "None"
  }

  /** Python truthiness of an optional string: `not x` holds for `None` and for `""`. */
  predicate IsFalsy(x: Option<string>) {
    x.None? || x.value == ""
  }

  /** `sep.join(parts)`: the parts in order, with `sep` between neighbours. */
  function Join(sep: string, parts: seq<string>): string {
    if |parts| == 0 then ""
    else if |parts| == 1 then parts[0]
    else parts[0] + sep + Join(sep, parts[1..])
  }

  /** The parts written one after the other. */
  function Concat(parts: seq<string>): string {
    if parts == [] then "" else parts[0] + Concat(parts[1..])
  }

  /** Joining with the empty separator (`"".join(parts)`) is plain concatenation. */
  lemma {:induction false} JoinEmptySeparator(parts: seq<string>)
    ensures Join("", parts) == Concat(parts)
  {
    if |parts| > 1 {
      JoinEmptySeparator(parts[1..]);
    }
  }

  /** Only regroups string concatenation, as a hint to the solver. */
  lemma ConcatAssociates(a: string, b: string, c: string)
    ensures (a + b) + c == a + (b + c)
  {
  }
}
