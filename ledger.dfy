/** What the ledger client hands to the pipeline: transactions as decoded
    from the node's JSON, their events with loosely typed payloads, and the
    shape of the two read calls, which the model takes as oracles. */
module Ledger {
  import opened Wrappers

  /** A JSON value in an event payload. Only strings and booleans are ever
      read by the handlers; every other JSON value is `Other`. */
  datatype Value = Str(s: string) | Bool(b: bool) | Other

  type EventData = map<string, Value>

  /** An event: its fully qualified Move type (`0xADDR::module::Name`) and payload. */
  datatype Event = Event(typ: string, data: EventData)

  /** The fields of a ledger transaction the pipeline reads. */
  datatype Transaction = Transaction(
    version: string,
    hash: string,
    success: bool,
    kind: string,
    sender: string,
    timestamp: string,
    events: seq<Event>)

  /** Any failure of an outbound ledger call (network error, non-2xx status, bad JSON). */
  datatype LedgerError = LedgerError(detail: string)

  /** The answer of `GetTransactionsByVersionRange(start, limit)` for every
      possible request during one tick. */
  type Fetcher = (nat, nat) -> Result<seq<Transaction>, LedgerError>

  /** Go's `v, _ := data[key].(string)`: the string stored under `key`, or ""
      when the key is missing or holds another kind of value. */
  function StringField(data: EventData, key: string): string
  {
    if key in data && data[key].Str? then data[key].s else ""
  }

  /** Go's `v, _ := data[key].(bool)`: true only for a JSON `true` under `key`. */
  function BoolField(data: EventData, key: string): bool
  {
    key in data && data[key].Bool? && data[key].b
  }
}
