/** JavaScript values as the frontend receives them from `JSON.parse` and
    keeps them in device state, with JavaScript's truthiness and property
    access. Objects are written as their entry lists, one entry per key, as
    `JSON.parse` produces them. */
module JsValue {
  import opened Seqs
  import opened Strings

  datatype Value =
    | Undefined
    | Null
    | Bool(b: bool)
    | Num(n: real)
    | Str(s: string)
    | Arr(items: seq<Value>)
    | Obj(fields: seq<(string, Value)>)

  /** `!!v`: false, 0, "", null and undefined are falsy, everything else truthy. */
  predicate Truthy(v: Value) {
    match v
    case Undefined => false
    case Null => false
    case Bool(b) => b
    case Num(n) => n != 0.0
    case Str(s) => s != ""
    case Arr(_) => true
    case Obj(_) => true
  }

  /** `typeof v === 'number'`. */
  predicate IsNumber(v: Value) { v.Num? }

  /** `typeof v === 'boolean'`. */
  predicate IsBoolean(v: Value) { v.Bool? }

  /** `a ?? b`: the fallback is taken for undefined and null only. */
  function Coalesce(a: Value, b: Value): (r: Value)
    ensures (a.Undefined? || a.Null?) ==> r == b
    ensures !(a.Undefined? || a.Null?) ==> r == a
  {
    if a.Undefined? || a.Null? then b else a
  }

  /** `a || b`. */
  function Or(a: Value, b: Value): (r: Value)
    ensures Truthy(a) ==> r == a
    ensures !Truthy(a) ==> r == b
  {
    if Truthy(a) then a else b
  }

  /** Index of the entry for `key` in an entry list. */
  function EntryIndex(fields: seq<(string, Value)>, key: string): (r: Option<nat>)
    ensures r.Some? ==> r.value < |fields| && fields[r.value].0 == key
    ensures r.None? ==> forall k :: 0 <= k < |fields| ==> fields[k].0 != key
  {
    FindIndex((e: (string, Value)) => e.0 == key, fields)
  }

  /** `v[key]`: own properties of objects; any other value reads `undefined` here. */
  function Get(v: Value, key: string): (r: Value)
    ensures !v.Obj? ==> r == Undefined
    ensures v.Obj? && (forall k :: 0 <= k < |v.fields| ==> v.fields[k].0 != key) ==> r == Undefined
  {
    match v
    case Obj(fields) =>
      (match EntryIndex(fields, key)
       case None => Undefined
       case Some(k) => fields[k].1)
    case _ => Undefined
  }

  /** `Object.entries(v)` and likewise the own properties `{...v}` copies:
      an object's entries, an array's or a string's index/element pairs, and
      nothing for the other values. */
  function Entries(v: Value): (r: seq<(string, Value)>)
    ensures v.Obj? ==> r == v.fields
    ensures v.Arr? ==> |r| == |v.items|
    ensures v.Str? ==> |r| == |v.s|
    ensures !(v.Obj? || v.Arr? || v.Str?) ==> r == []
  {
    match v
    case Obj(fields) => fields
    case Arr(items) => seq(|items|, k requires 0 <= k < |items| => (NatToString(k), items[k]))
    case Str(s) => seq(|s|, k requires 0 <= k < |s| => (NatToString(k), Str([s[k]])))
    case _ => []
  }

  function Keys(fields: seq<(string, Value)>): (r: seq<string>)
    ensures |r| == |fields|
    ensures forall k :: 0 <= k < |fields| ==> r[k] == fields[k].0
  {
    Map((e: (string, Value)) => e.0, fields)
  }
}
