/** JavaScript values as the application handles them after `JSON.parse`, and
    the few JavaScript operations on them that the application performs:
    property reads (`x.key`, `x?.key`, `x[i]`), `??`, object spread and the
    coercion `String(x)` that `JSON.parse` applies to a non-string argument.
    JavaScript's `undefined` is `None`: a property that holds `undefined`
    behaves, for everything modelled here, like an absent one. */
module Json {
  import opened Wrappers
  import opened Strings

  datatype Value =
    | Null
    | Bool(b: bool)
    | Num(n: real)
    | Str(s: string)
    | Arr(items: seq<Value>)
    | Obj(fields: map<string, Value>)

  /** Property `key` of a value that is neither `undefined` nor `null`: an
      object's own property, and `undefined` for every other value (none of
      the keys the application reads is a property of a string, number,
      boolean or array). */
  function Prop(v: Value, key: string): (r: Option<Value>)
    ensures r.Some? <==> v.Obj? && key in v.fields
  {
    if v.Obj? && key in v.fields then Some(v.fields[key]) else None
  }

  /** `x.key`: throws a TypeError on `undefined` and `null`. */
  function Member(x: Option<Value>, key: string): (r: Result<Option<Value>>)
    ensures r.Threw? <==> x.None? || x.value.Null?
    ensures r.Ok? ==> r.value == Prop(x.value, key)
  {
    match x
    case None => Threw
    case Some(Null) => Threw
    case Some(v) => Ok(Prop(v, key))
  }

  /** `x?.key` */
  function OptionalMember(x: Option<Value>, key: string): (r: Option<Value>)
    ensures Member(x, key).Ok? ==> r == Member(x, key).value
    ensures Member(x, key).Threw? ==> r.None?
  {
    if x.None? || x.value.Null? then None else Prop(x.value, key)
  }

  /** `x[i]` for an index `i`: arrays are indexed by position, strings by
      UTF-16 code unit, objects by the decimal numeral of `i`; throws on
      `undefined` and `null`. */
  function Element(x: Option<Value>, i: nat): (r: Result<Option<Value>>)
    ensures r.Threw? <==> x.None? || x.value.Null?
    ensures r.Ok? && x.value.Arr? ==> (r.value.Some? <==> i < |x.value.items|)
    ensures r.Ok? && x.value.Arr? && i < |x.value.items| ==> r.value == Some(x.value.items[i])
    ensures r.Ok? && x.value.Str? ==> (r.value.Some? <==> i < Utf16Length(x.value.s))
  {
    match x
    case None => Threw
    case Some(Null) => Threw
    case Some(Arr(items)) => Ok(if i < |items| then Some(items[i]) else None)
    case Some(Obj(m)) => Ok(if DecimalString(i) in m then Some(m[DecimalString(i)]) else None)
    case Some(Str(s)) => Ok(if i < Utf16Length(s) then Some(Str(CodeUnitAt(s, i))) else None)
    case Some(_) => Ok(None)
  }

  /** A character outside the Basic Multilingual Plane takes two indices:
      the second half of an emoji is an element, not `undefined`. */
  lemma WideCharacterTakesTwoIndices()
    ensures Element(Some(Str("\U{1F600}")), 1) == Ok(Some(Str("")))
    ensures Element(Some(Str("\U{1F600}")), 2) == Ok(None)
  {
    assert Utf16Length("\U{1F600}") == 2;
  }

  /** `a ?? b` */
  function Coalesce(a: Option<Value>, b: Option<Value>): (r: Option<Value>)
    ensures a.Some? && !a.value.Null? ==> r == a
    ensures a.None? || a.value.Null? ==> r == b
  {
    if a.None? || a.value.Null? then b else a
  }

  /** The own properties `{ ...x }` copies. Only objects are modelled as
      contributing properties; the index keys an array or string would
      contribute never name a field of the application's schemas. */
  function Spread(x: Option<Value>): map<string, Value> {
    if x.Some? && x.value.Obj? then x.value.fields else map[]
  }

  /** `{ ...obj, key: x }`: an `undefined` value behaves as an absent key. */
  function Put(m: map<string, Value>, key: string, x: Option<Value>): (r: map<string, Value>)
    ensures x.Some? ==> key in r && r[key] == x.value
    ensures x.None? ==> key !in r
  {
    if x.Some? then m[key := x.value] else m - {key}
  }

  /** Every other key of the spread object keeps its value. */
  lemma PutKeepsOthers(m: map<string, Value>, key: string, x: Option<Value>, k: string)
    requires k != key
    ensures (k in Put(m, key, x)) == (k in m)
    ensures k in m ==> Put(m, key, x)[k] == m[k]
  {
  }

  /** JavaScript truthiness of a value `JSON.parse` can produce: `null`,
      `false`, zero and the empty string are falsy; every array and object
      is truthy. */
  predicate Truthy(v: Value) {
    !(v.Null? || v == Bool(false) || v == Num(0.0) || v == Str(""))
  }

  /** `String(x)` for a value `JSON.parse` can produce: arrays print their
      elements joined by commas (with `null` elements empty), every object
      prints as `[object Object]`; `numberText` is `Number.prototype.toString`. */
  function TextOf(v: Value, numberText: real -> string): string
    decreases v
  {
    match v
    case Null => "null"
    case Bool(b) => if b then "true" else "false"
    case Num(n) => numberText(n)
    case Str(s) => s
    case Obj(_) => ObjectText
    case Arr(items) =>
      Join(seq(|items|, i requires 0 <= i < |items| =>
        if items[i].Null? then "" else TextOf(items[i], numberText)), ",")
  }

  const ObjectText := "[object Object]"

  /** `String(x)` where `x` may be `undefined`. */
  function TextOfJs(x: Option<Value>, numberText: real -> string): string {
    if x.None? then "undefined" else TextOf(x.value, numberText)
  }

  /** The text layer of the JavaScript runtime: `JSON.parse` (None when it
      throws), `JSON.stringify`, and number printing. */
  datatype Codec = Codec(
    parse: string -> Option<Value>,
    stringify: Value -> string,
    numberText: real -> string)

  /** Texts that are not JSON: the empty text, `undefined`, and any text that
      opens an array with the letter `o`, as `[object Object]` does. */
  ghost predicate RejectsNonJson(c: Codec) {
    && c.parse("") == None
    && c.parse("undefined") == None
    && forall s :: IsPrefix("[o", s) ==> c.parse(s) == None
  }

  lemma JoinStartsWithFirst(parts: seq<string>, sep: string)
    requires |parts| > 0
    ensures IsPrefix(parts[0], Join(parts, sep))
  {
  }

  /** `String(array)` of an array of objects is empty or starts with `[o`,
      which `JSON.parse` rejects. */
  lemma ObjectArrayTextIsNotJson(items: seq<Value>, c: Codec)
    requires forall i :: 0 <= i < |items| ==> items[i].Obj?
    requires RejectsNonJson(c)
    ensures c.parse(TextOf(Arr(items), c.numberText)) == None
  {
    var text := TextOf(Arr(items), c.numberText);
    if |items| == 0 {
      assert text == "";
    } else {
      var parts := seq(|items|, i requires 0 <= i < |items| =>
        if items[i].Null? then "" else TextOf(items[i], c.numberText));
      assert text == Join(parts, ",");
      assert parts[0] == ObjectText;
      JoinStartsWithFirst(parts, ",");
      assert IsPrefix("[o", text);
    }
  }
}
