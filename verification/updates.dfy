/**
 The key/value update maps of the partial-update handlers. A map's values
 are dynamically typed; the handlers iterate the map in an unspecified
 order and assert each recognised key's value to a fixed type.
 */
module Updates {

  import opened Base
  import opened Envelope
  import opened Rows

  /** A dynamic value of an update map; `VOther` is any value of another type. */
  datatype Value =
    | VString(s: string)
    | VBool(b: bool)
    | VDate(date: Option<Timestamp>)
    | VOther

  /** Why a read-merge-write update produced no row. */
  datatype UpdateError =
    | ReadFailed(readError: DbError)    // the owner-scoped read found nothing
    | Panic                                  // a recognised key held a value of the wrong type
    | WriteFailed(writeError: DbError)

  /** A handler either answers with an envelope or panics before answering. */
  datatype Reply<+D> = Replied(result: ApiResult<D>) | Panicked

  /** `order` lists every key of `m` exactly once: an iteration order of the map. */
  predicate IsIterationOrder<V>(order: seq<string>, m: map<string, V>)
  {
    && (forall i, j :: 0 <= i < j < |order| ==> order[i] != order[j])
    && (forall k :: k in order ==> k in m)
    && (forall k :: k in m ==> k in order)
  }

  /** The payload of a string value, or `otherwise`. */
  function AsString(v: Value, otherwise: string): string
  {
    if v.VString? then v.s else otherwise
  }

  function AsBool(v: Value, otherwise: bool): bool
  {
    if v.VBool? then v.b else otherwise
  }

  /** The string a recognised key sets, or `current` when the map does not hold one. */
  function StringOr(updates: map<string, Value>, key: string, current: string): string
  {
    if key in updates && updates[key].VString? then updates[key].s else current
  }

  function BoolOr(updates: map<string, Value>, key: string, current: bool): bool
  {
    if key in updates && updates[key].VBool? then updates[key].b else current
  }

  function DateOr(updates: map<string, Value>, key: string, current: Option<Timestamp>): Option<Timestamp>
  {
    if key in updates && updates[key].VDate? then updates[key].date else current
  }

  /** The keys visited by an iteration order are the map's keys. */
  lemma IterationVisitsAllKeys<V>(order: seq<string>, m: map<string, V>)
    requires IsIterationOrder(order, m)
    ensures (set k | k in order) == m.Keys
  {
  }
}
