/** What the replicated tables hold: rows of named columns, in two tiers. */
module Rows {

  /** Tier A is append-only and keyed by content hash; Tier B is mutable and keyed by natural key. */
  datatype Tier = A | B

  /** A column as the driver or the wire yields it. */
  datatype Value = Text(text: string) | Flag(flag: bool) | Number(number: int) | Instant(millis: int) | Null | Undefined

  datatype Body = Body(columns: map<string, Value>)

  function Column(columns: map<string, Value>, c: string): Value {
    if c in columns then columns[c] else Undefined
  }

  function TextOf(b: Body, c: string): string {
    match Column(b.columns, c)
    case Text(s) => s
    case _ => ""
  }

  /** Which kind of disagreement a table is left with. */
  datatype Verdict = ContentFork | PeerBehind

  /** At most the first five keys are reported. */
  function FirstFive(s: seq<string>): seq<string> {
    if |s| <= 5 then s else s[..5]
  }
}
