/** JavaScript values as the front end reads them from API responses: the
    duck-typed records, the `??` fallback chains over their fields and the
    `toNum` conversion that both ModelDetails.jsx and ModelsChart.jsx define. */
module JsValues {

  datatype Option<+T> = None | Some(value: T)

  /** A JavaScript number: a finite value, NaN, or one of the two infinities. */
  datatype JsNumber = Finite(value: real) | NaN | Infinity(negative: bool)

  datatype JsValue =
    | Undefined
    | Null
    | Bool(b: bool)
    | Num(n: JsNumber)
    | Str(s: string)
    | Arr(items: seq<JsValue>)
    | Obj(fields: map<string, JsValue>)

  /** `Number(s)` for a string. How a string converts is not part of this
      model, so every operation that needs it takes one as a parameter. */
  type StringToNumber = string -> JsNumber

  /** `v == null`: true of both null and undefined. */
  predicate IsNullish(v: JsValue) {
    v.Undefined? || v.Null?
  }

  /** JavaScript truthiness. */
  predicate Truthy(v: JsValue) {
    match v
    case Undefined => false
    case Null => false
    case Bool(b) => b
    case Num(n) => n.Infinity? || (n.Finite? && n.value != 0.0)
    case Str(s) => s != ""
    case Arr(_) => true
    case Obj(_) => true
  }

  /** `v?.[key]`: a missing property, and any read through a value that is
      not an object, gives undefined. */
  function Get(v: JsValue, key: string): JsValue {
    if v.Obj? && key in v.fields then v.fields[key] else Undefined
  }

  /** `toNum(v)`: null and undefined give null, a string is converted with
      `Number`, and only a finite number survives `Number.isFinite`. */
  function ToNum(v: JsValue, number: StringToNumber): (r: Option<real>)
    ensures IsNullish(v) ==> r.None?
    ensures r.Some? ==> v.Num? || v.Str?
    ensures v.Num? ==> (r.Some? <==> v.n.Finite?) && (r.Some? ==> r.value == v.n.value)
    ensures v.Str? ==> (r.Some? <==> number(v.s).Finite?) && (r.Some? ==> r.value == number(v.s).value)
  {
    match v
    case Num(n) => if n.Finite? then Some(n.value) else None
    case Str(s) => if number(s).Finite? then Some(number(s).value) else None
    case _ => None
  }

  /** The JavaScript value a `toNum` result is handed on as: a number or null. */
  function FromNum(r: Option<real>): JsValue {
    match r
    case Some(x) => Num(Finite(x))
    case None => Null
  }

  /** `toNum` is idempotent: converting an already converted value again, as
      `prettyGB(minimalVram)` does, gives back the same number or null. */
  lemma ToNumIdempotent(v: JsValue, number: StringToNumber, other: StringToNumber)
    ensures ToNum(FromNum(ToNum(v, number)), other) == ToNum(v, number)
  {
  }

  /** `a ?? b ?? ... ?? null`: the first present entry, or none. A present
      zero is kept, because `??` tests for null and undefined only. */
  function FirstSome<T>(xs: seq<Option<T>>): (r: Option<T>)
    ensures r.None? <==> forall i :: 0 <= i < |xs| ==> xs[i].None?
    ensures r.Some? ==> exists i :: 0 <= i < |xs| && xs[i] == r && forall j :: 0 <= j < i ==> xs[j].None?
  {
    if xs == [] then None
    else if xs[0].Some? then xs[0]
    else
      var rest := FirstSome(xs[1..]);
      assert forall i :: 1 <= i < |xs| ==> xs[i] == xs[1..][i - 1];
      rest
  }

  /** `toNum(a) ?? toNum(b) ?? ... ?? null`: the first field that converts to a
      finite number; fields that are missing or not numeric are skipped. */
  function FirstNum(vs: seq<JsValue>, number: StringToNumber): (r: Option<real>)
    ensures r.None? <==> forall i :: 0 <= i < |vs| ==> ToNum(vs[i], number).None?
    ensures r.Some? ==> exists i :: 0 <= i < |vs| && ToNum(vs[i], number) == r
                                   && forall j :: 0 <= j < i ==> ToNum(vs[j], number).None?
  {
    var converted := seq(|vs|, i requires 0 <= i < |vs| => ToNum(vs[i], number));
    assert forall i :: 0 <= i < |vs| ==> converted[i] == ToNum(vs[i], number);
    FirstSome(converted)
  }
}
