/**
  The shapes shared by the viewer (web/src/state/types.ts): a parsed log as
  the viewer receives it, and an untyped JSON-like value for inputs whose
  shape is checked at run time.
 */
module LogTypes {
  import opened Wrappers

  /** An action of a parsed log: the plain line of the raw-text parser, or a
      record from an already-structured log, whose `raw` may be missing or
      not a string (both `None` here). */
  datatype ParsedAction = Plain(text: string) | Structured(raw: Option<string>)

  /** A turn; an absent `actions` list is the empty one. */
  datatype ParsedTurn = ParsedTurn(number: int, player: string, actions: seq<ParsedAction>)

  datatype ParsedLog = ParsedLog(
    file: string,
    players: seq<string>,
    setup: seq<string>,
    turns: seq<ParsedTurn>)

  /** Any value a caller may hand to the structured-log check. */
  datatype Json =
    | JUndefined
    | JNull
    | JBool(b: bool)
    | JNumber(n: int)
    | JString(s: string)
    | JArray(items: seq<Json>)
    | JObject(fields: map<string, Json>)
}
