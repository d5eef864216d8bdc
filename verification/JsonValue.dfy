/** Semantic equality of payment requirements (lib/x402/x402.go). */
module JsonValue {
  import opened Base

  /** A decoded JSON value; an object is a map, so key order is gone, and a number is its value. */
  datatype Json =
    | Null
    | Bool(flag: bool)
    | Number(value: real)
    | Text(text: Bytes)
    | Array(items: seq<Json>)
    | Object(fields: map<Bytes, Json>)

  /** Objects compare sizes and then only look up a's keys in b. */
  predicate DeepEqual(a: Json, b: Json) {
    match a
    case Object(fa) =>
      b.Object? && |fa| == |b.fields| && forall k <- fa :: k in b.fields && DeepEqual(fa[k], b.fields[k])
    case Array(xs) => b.Array? && |xs| == |b.items| && forall i :: 0 <= i < |xs| ==> DeepEqual(xs[i], b.items[i])
    case _ => a == b
  }

  lemma SubsetOfSameSize<T>(a: set<T>, b: set<T>)
    requires a <= b && |a| == |b|
    ensures a == b
  {
    assert b == a + (b - a) && |b - a| == 0;
  }

  /** One direction plus sizes is enough: deep equality is equality of values. */
  lemma {:induction false} DeepEqualIsEquality(a: Json, b: Json)
    ensures DeepEqual(a, b) <==> a == b
    decreases a
  {
    match a
    case Object(fa) =>
      forall k | k in fa && b.Object? && k in b.fields ensures DeepEqual(fa[k], b.fields[k]) <==> fa[k] == b.fields[k] {
        DeepEqualIsEquality(fa[k], b.fields[k]);
      }
      if DeepEqual(a, b) {
        assert fa.Keys <= b.fields.Keys;
        SubsetOfSameSize(fa.Keys, b.fields.Keys);
        assert fa == b.fields;
      }
    case Array(xs) =>
      forall i | 0 <= i < |xs| && b.Array? && i < |b.items|
        ensures DeepEqual(xs[i], b.items[i]) <==> xs[i] == b.items[i]
      {
        DeepEqualIsEquality(xs[i], b.items[i]);
      }
      if DeepEqual(a, b) {
        assert xs == b.items;
      }
    case _ =>
  }

  /** extra is raw JSON text, possibly empty. */
  datatype Requirements = Requirements(scheme: Bytes, network: Bytes, amount: Bytes, asset: Bytes, payTo: Bytes,
                                       maxTimeoutSeconds: int, extra: Bytes)

  /** parse stands for the JSON decoder: None on malformed text. */
  predicate RawEqual(parse: Bytes -> Option<Json>, a: Bytes, b: Bytes) {
    if a == [] || b == [] then a == [] && b == []
    else parse(a).Some? && parse(b).Some? && DeepEqual(parse(a).value, parse(b).value)
  }

  predicate EqualSemantic(parse: Bytes -> Option<Json>, a: Requirements, b: Requirements) {
    if a.scheme != b.scheme || a.network != b.network || a.amount != b.amount || a.asset != b.asset
       || a.payTo != b.payTo || a.maxTimeoutSeconds != b.maxTimeoutSeconds then false
    else RawEqual(parse, a.extra, b.extra)
  }

  /** What an entry means: its extra replaced by the value it decodes to; None when it does not decode. */
  function Meaning(parse: Bytes -> Option<Json>, a: Requirements): Option<(Requirements, Option<Json>)> {
    if a.extra == [] then Some((a, None))
    else if parse(a.extra).None? then None
    else Some((a.(extra := []), parse(a.extra)))
  }

  /** Two entries are equal exactly when both decode and mean the same, whatever order their keys were written in. */
  lemma EqualSemanticExactly(parse: Bytes -> Option<Json>, a: Requirements, b: Requirements)
    ensures EqualSemantic(parse, a, b) <==> Meaning(parse, a).Some? && Meaning(parse, a) == Meaning(parse, b)
  {
    if a.extra != [] && b.extra != [] && parse(a.extra).Some? && parse(b.extra).Some? {
      DeepEqualIsEquality(parse(a.extra).value, parse(b.extra).value);
    }
  }

  /** Symmetric and transitive always; reflexive exactly on entries whose extra is absent or decodes. */
  lemma EqualSemanticEquivalence(parse: Bytes -> Option<Json>, a: Requirements, b: Requirements, c: Requirements)
    ensures EqualSemantic(parse, a, a) <==> a.extra == [] || parse(a.extra).Some?
    ensures EqualSemantic(parse, a, b) ==> EqualSemantic(parse, b, a)
    ensures EqualSemantic(parse, a, b) && EqualSemantic(parse, b, c) ==> EqualSemantic(parse, a, c)
  {
    EqualSemanticExactly(parse, a, a);
    EqualSemanticExactly(parse, a, b);
    EqualSemanticExactly(parse, b, a);
    EqualSemanticExactly(parse, b, c);
    EqualSemanticExactly(parse, a, c);
  }
}
