/** The JSON values carried by the WebSocket protocol (RFC 8259), seen through
    JavaScript's eyes: `undefined` is included because a missing property reads
    as `undefined`, and numbers are integers (floating point is not modelled). */
module JsonValue {

  datatype Json =
    | Undefined
    | Null
    | Bool(b: bool)
    | Num(n: int)
    | Str(s: string)
    | Arr(items: seq<Json>)
    | Obj(fields: seq<(string, Json)>)

  /** JavaScript falsiness (`NaN` is not modelled): `x || d` yields `d` exactly for these. */
  predicate Falsy(v: Json) {
    v == Undefined || v == Null || v == Bool(false) || v == Num(0) || v == Str("")
  }

  /** The empty object `{}`. */
  const EmptyObject: Json := Obj([])

  /** Property read `o[k]` for the keys the pages read: the last binding of `k` on an
      object (objects built by `JSON.parse` keep the last duplicate), and `undefined`
      for a key the object lacks or on a value that is not an object. Built-in
      properties such as a string's `length` are not modelled. */
  function Get(v: Json, k: string): (r: Json)
    ensures !v.Obj? ==> r == Undefined
    ensures v.Obj? && (forall i | 0 <= i < |v.fields| :: v.fields[i].0 != k) ==> r == Undefined
    decreases if v.Obj? then |v.fields| else 0
  {
    if !v.Obj? || |v.fields| == 0 then Undefined
    else
      var last := v.fields[|v.fields| - 1];
      if last.0 == k then last.1 else Get(Obj(v.fields[..|v.fields| - 1]), k)
  }

  /** A binding is what a read of its key finds when no later binding shadows it. */
  lemma {:induction false} GetUnshadowed(before: seq<(string, Json)>, k: string, v: Json, after: seq<(string, Json)>)
    requires forall i | 0 <= i < |after| :: after[i].0 != k
    ensures Get(Obj(before + [(k, v)] + after), k) == v
    decreases |after|
  {
    var fs := before + [(k, v)] + after;
    if after != [] {
      var shorter := after[..|after| - 1];
      assert fs[..|fs| - 1] == before + [(k, v)] + shorter;
      GetUnshadowed(before, k, v, shorter);
    } else {
      assert fs[|fs| - 1] == (k, v);
    }
  }

  /** The single-key object `{name: payload}` that both ends of the protocol emit. */
  function Envelope(name: string, payload: Json): (r: Json)
    ensures r.Obj? && |r.fields| == 1
    ensures Get(r, name) == payload
  {
    Obj([(name, payload)])
  }
}
