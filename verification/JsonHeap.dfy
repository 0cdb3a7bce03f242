/** Untrusted JavaScript values as the editor's validator receives them.

    Objects and arrays live in a heap and are reached through references, so one object may be
    shared by several parents or reach itself.  A reference outside the heap is neither a record
    nor an array. */
module JsonHeap {
  import opened Options

  type Id = nat

  datatype Value =
    | Undefined
    | Null
    | Bool(b: bool)
    | Number(n: real)
    | NaN
    | Infinite
    | Text(s: string)
    | Reference(id: Id)
    | Callable

  datatype Object =
    | Record(fields: map<string, Value>)
    | Array(items: seq<Value>)

  type Heap = map<Id, Object>

  predicate IsRecord(h: Heap, v: Value) {
    v.Reference? && v.id in h && h[v.id].Record?
  }

  predicate IsArray(h: Heap, v: Value) {
    v.Reference? && v.id in h && h[v.id].Array?
  }

  /** `v.key` for a record `v`. */
  function Get(h: Heap, v: Value, key: string): Value
    requires IsRecord(h, v)
  {
    if key in h[v.id].fields then h[v.id].fields[key] else Undefined
  }

  function Items(h: Heap, v: Value): seq<Value>
    requires IsArray(h, v)
  {
    h[v.id].items
  }

  /** The elements of `v`, none when `v` is not an array (`v ?? []` for a checked `v`). */
  function ItemsOrNone(h: Heap, v: Value): seq<Value> {
    if IsArray(h, v) then Items(h, v) else []
  }

  /** `v?.attrs?.[key]`, undefined where the attributes are absent. */
  function Attr(h: Heap, v: Value, key: string): Value {
    if IsRecord(h, v) && IsRecord(h, Get(h, v, "attrs")) then Get(h, Get(h, v, "attrs"), key) else Undefined
  }

  /** A string attribute, the empty string when it is absent or of another type. */
  function StringAttr(h: Heap, v: Value, key: string): string {
    if Attr(h, v, key).Text? then Attr(h, v, key).s else ""
  }
}
