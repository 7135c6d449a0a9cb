/** Joining sequences end to end. */
module Seqs {

  /** Concatenation of a sequence of strings, in order: `parts.join("")`. */
  function Concat(parts: seq<string>): string {
    if |parts| == 0 then [] else parts[0] + Concat(parts[1..])
  }

  /** Flattening of a sequence of sequences, in order. */
  function Flatten<T>(groups: seq<seq<T>>): seq<T> {
    if |groups| == 0 then [] else groups[0] + Flatten(groups[1..])
  }
}
