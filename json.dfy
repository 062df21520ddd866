/** The JSON values the catalog answers with, and the field rules that
    serde's derived `Deserialize` applies to a JSON object: a field that must
    appear exactly once, a `#[serde(default)]` field that may be absent, and
    unknown fields that are skipped. */
module Json {
  import opened Base

  /** A parsed JSON document (integral numbers only). An object keeps its
      entries in document order, duplicates included. */
  datatype Value =
    | Null
    | Bool(b: bool)
    | Number(n: int)
    | Str(s: string)
    | Array(items: seq<Value>)
    | Object(entries: seq<(string, Value)>)

  /** What an object holds under one key. */
  datatype Field = Absent | Present(value: Value) | Duplicate

  /** The entry for `key`; serde's derived visitor rejects a key seen twice. */
  function Lookup(es: seq<(string, Value)>, key: string): Field
  {
    if es == [] then Absent
    else
      var rest := Lookup(es[1..], key);
      if es[0].0 != key then rest
      else if rest.Absent? then Present(es[0].1)
      else Duplicate
  }

  /** No key occurs twice. */
  predicate DistinctKeys(es: seq<(string, Value)>) {
    forall i, j :: 0 <= i < j < |es| ==> es[i].0 != es[j].0
  }

  /** In an object without repeated keys each entry is found under its key. */
  lemma {:induction false} LookupDistinct(es: seq<(string, Value)>, i: nat)
    requires DistinctKeys(es) && i < |es|
    ensures Lookup(es, es[i].0) == Present(es[i].1)
  {
    if i > 0 {
      assert es[1..][i - 1] == es[i];
      LookupDistinct(es[1..], i - 1);
    } else {
      LookupAbsent(es[1..], es[0].0);
    }
  }

  /** A key no entry carries is absent. */
  lemma {:induction false} LookupAbsent(es: seq<(string, Value)>, key: string)
    requires forall i :: 0 <= i < |es| ==> es[i].0 != key
    ensures Lookup(es, key) == Absent
  {
    if es != [] {
      assert forall i :: 0 <= i < |es[1..]| ==> es[1..][i] == es[i + 1];
      LookupAbsent(es[1..], key);
    }
  }

  /** An entry appended under another key does not change what a key holds. */
  lemma {:induction false} LookupAppendOther(es: seq<(string, Value)>, k: string, v: Value, key: string)
    requires k != key
    ensures Lookup(es + [(k, v)], key) == Lookup(es, key)
  {
    if es != [] {
      assert (es + [(k, v)])[1..] == es[1..] + [(k, v)];
      LookupAppendOther(es[1..], k, v, key);
    }
  }

  /** An entry appended under a key the object lacks is found under it. */
  lemma {:induction false} LookupAppendAbsent(es: seq<(string, Value)>, k: string, v: Value)
    requires Lookup(es, k) == Absent
    ensures Lookup(es + [(k, v)], k) == Present(v)
  {
    if es != [] {
      assert (es + [(k, v)])[1..] == es[1..] + [(k, v)];
      LookupAppendAbsent(es[1..], k, v);
    }
  }

  /** A required string field. */
  function StrField(es: seq<(string, Value)>, key: string): Option<string> {
    match Lookup(es, key)
    case Present(Str(s)) => Some(s)
    case _ => None
  }

  /** A required `u32` field: an integral number in range. */
  function U32Field(es: seq<(string, Value)>, key: string): Option<u32> {
    match Lookup(es, key)
    case Present(Number(n)) => if 0 <= n < 0x1_0000_0000 then Some(n) else None
    case _ => None
  }

  /** A `#[serde(default)] bool` field: `false` when absent. */
  function BoolFieldOrFalse(es: seq<(string, Value)>, key: string): Option<bool> {
    match Lookup(es, key)
    case Absent => Some(false)
    case Present(Bool(b)) => Some(b)
    case _ => None
  }

  /** A required field decoded by `decode`. */
  function NestedField<T>(es: seq<(string, Value)>, key: string, decode: Value -> Option<T>): Option<T> {
    match Lookup(es, key)
    case Present(v) => decode(v)
    case _ => None
  }

  /** A `Vec<T>`: a JSON array whose every item decodes. */
  function DecodeArray<T>(j: Value, decode: Value -> Option<T>): (r: Option<seq<T>>)
    ensures r.Some? ==> j.Array? && |r.value| == |j.items|
    ensures r.Some? ==> forall i :: 0 <= i < |j.items| ==> decode(j.items[i]) == Some(r.value[i])
    ensures j.Array? && (forall i :: 0 <= i < |j.items| ==> decode(j.items[i]).Some?) ==> r.Some?
  {
    match j
    case Array(items) => DecodeItems(items, decode)
    case _ => None
  }

  function DecodeItems<T>(items: seq<Value>, decode: Value -> Option<T>): (r: Option<seq<T>>)
    ensures r.Some? ==> |r.value| == |items|
    ensures r.Some? ==> forall i :: 0 <= i < |items| ==> decode(items[i]) == Some(r.value[i])
    ensures (forall i :: 0 <= i < |items| ==> decode(items[i]).Some?) ==> r.Some?
    decreases |items|
  {
    if items == [] then Some([])
    else
      var head :- decode(items[0]);
      var tail :- DecodeItems(items[1..], decode);
      assert forall i :: 1 <= i < |items| ==> items[i] == items[1..][i - 1];
      Some([head] + tail)
  }
}
