/** The raw values the policy is handed: JavaScript data before anything about it has been checked. */
module JsValues {
  import opened Prelude

  /** A JavaScript number; NaN and the infinities are not told apart. */
  datatype Number = Fin(r: real) | NotFinite

  /** `Date` carries its time value. `Obj` is any other object that is not an array: `plain` if it is a
      literal, `fields` its own entries in order. */
  datatype Value =
    | Undefined
    | Null
    | Bool(b: bool)
    | Num(n: Number)
    | Str(s: string)
    | Arr(items: seq<Value>)
    | Date(t: Number)
    | Obj(plain: bool, fields: seq<(string, Value)>)

  /** Any object that is not an array. */
  predicate IsRecord(v: Value) {
    v.Obj? || v.Date?
  }

  predicate IsPlainObject(v: Value) {
    v.Obj? && v.plain
  }

  predicate IsCount(v: Value) {
    v.Num? && v.n.Fin? && v.n.r >= 0.0 && v.n.r == v.n.r.Floor as real
  }

  function CountOf(v: Value): nat
    requires IsCount(v)
  {
    v.n.r.Floor
  }

  predicate HasEntry(fields: seq<(string, Value)>, name: string) {
    exists i :: 0 <= i < |fields| && fields[i].0 == name
  }

  function Entry(fields: seq<(string, Value)>, name: string): Value {
    if fields == [] then Undefined
    else if fields[0].0 == name then fields[0].1
    else Entry(fields[1..], name)
  }

  /** An own property. */
  predicate Has(v: Value, name: string) {
    v.Obj? && HasEntry(v.fields, name)
  }

  /** v.name, undefined when absent. */
  function Get(v: Value, name: string): Value {
    if v.Obj? then Entry(v.fields, name) else Undefined
  }

  /** v[name] || 0, for an entry that is a count. */
  function CountAt(v: Value, name: string): nat {
    if IsCount(Get(v, name)) then CountOf(Get(v, name)) else 0
  }

  /** The characters String.prototype.trim removes. */
  predicate IsSpace(c: char) {
    || '\t' <= c <= '\r' || c == ' ' || c == '\U{00A0}' || c == '\U{1680}' || '\U{2000}' <= c <= '\U{200A}'
    || c == '\U{2028}' || c == '\U{2029}' || c == '\U{202F}' || c == '\U{205F}' || c == '\U{3000}' || c == '\U{FEFF}'
  }

  predicate Blank(s: string) {
    forall i :: 0 <= i < |s| ==> IsSpace(s[i])
  }

  /** Not equal to its own trim, for a string that is not blank. */
  predicate Padded(s: string) {
    s != "" && (IsSpace(s[0]) || IsSpace(s[|s| - 1]))
  }

  /** An object read by its entries: of distinct names each is found with its own value, and a name it
      does not have reads as undefined. */
  lemma {:induction false} GetReads(plain: bool, fields: seq<(string, Value)>, i: nat)
    requires i < |fields| && forall j, k :: 0 <= j < k < |fields| ==> fields[j].0 != fields[k].0
    ensures Get(Obj(plain, fields), fields[i].0) == fields[i].1 && Has(Obj(plain, fields), fields[i].0)
    decreases fields
  {
    if i > 0 { GetReads(plain, fields[1..], i - 1); }
  }

  lemma {:induction false} GetMisses(plain: bool, fields: seq<(string, Value)>, name: string)
    requires forall j :: 0 <= j < |fields| ==> fields[j].0 != name
    ensures Get(Obj(plain, fields), name) == Undefined && !Has(Obj(plain, fields), name)
  {
    if fields != [] { GetMisses(plain, fields[1..], name); }
  }

  /** What is no such object has no entries at all. */
  lemma OthersHaveNone(v: Value, name: string)
    ensures v.Date? || !IsRecord(v) ==> Get(v, name) == Undefined && !Has(v, name)
    ensures IsRecord(v) <==> v.Date? || v.Obj?
  {
  }

  /** White space and line ends as section 12.2 and 12.3 of ECMA-262 list them. */
  lemma SpacesAre(c: char)
    ensures IsSpace(c) <==>
              || c as int in {9, 10, 11, 12, 13, 32, 0xA0, 0x1680, 0x2028, 0x2029, 0x202F, 0x205F, 0x3000, 0xFEFF}
              || c as int in {0x2000, 0x2001, 0x2002, 0x2003, 0x2004, 0x2005, 0x2006, 0x2007, 0x2008, 0x2009, 0x200A}
  {
  }
}
