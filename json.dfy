/** Parsed JSON values, property lookup as `value[key]` performs it on them, the walk along a
    dot-path that both extractors perform, and the text a template literal `${value}` produces. */
module JsonValue {
  import opened Wrappers
  import opened JsText

  /** A value `JSON.parse` can produce. Numbers are integers in this model. */
  datatype Json =
    | JNull
    | JBool(b: bool)
    | JNum(n: int)
    | JStr(s: string)
    | JArr(items: seq<Json>)
    | JObj(members: map<string, Json>)

  /** `value[key]`, with `None` for `undefined`: an object has its own members, an array
      its elements under their canonical index keys, and every other value nothing. */
  function Lookup(v: Json, key: string): Option<Json>
  {
    match v
    case JObj(m) => if key in m then Some(m[key]) else None
    case JArr(a) =>
      (match ArrayIndex(key)
       case Some(n) => if n < |a| then Some(a[n]) else None
       case None => None)
    case _ => None
  }

  /** An array has an element under `key` exactly when `key` is the decimal text of one of its positions. */
  lemma LookupArray(a: seq<Json>, key: string)
    ensures Lookup(JArr(a), key).Some? <==> exists n: nat :: n < |a| && key == NatToDecimal(n)
    ensures forall n: nat :: n < |a| ==> Lookup(JArr(a), NatToDecimal(n)) == Some(a[n])
  {
    forall n: nat | n < |a| ensures Lookup(JArr(a), NatToDecimal(n)) == Some(a[n]) {
      ArrayIndexOfDecimal(n);
    }
    if Lookup(JArr(a), key).Some? {
      DecimalOfArrayIndex(key);
      var n := ArrayIndex(key).value;
      assert n < |a| && key == NatToDecimal(n);
    }
  }

  /** Follows `keys` one property access at a time from `v`; `None` where a step meets null or
      a key that is undefined on the current value, which is where the extractors throw. */
  function Walk(v: Json, keys: seq<string>): Option<Json>
    decreases |keys|
  {
    if |keys| == 0 then Some(v)
    else match Lookup(v, keys[0])
      case None => None
      case Some(child) => Walk(child, keys[1..])
  }

  /** Walking a path in two parts is walking the first part and then the second from where it ends. */
  lemma {:induction false} WalkAppend(v: Json, a: seq<string>, b: seq<string>)
    ensures Walk(v, a + b) == match Walk(v, a) case None => None case Some(w) => Walk(w, b)
    decreases |a|
  {
    if |a| > 0 {
      assert (a + b)[0] == a[0] && (a + b)[1..] == a[1..] + b;
      match Lookup(v, a[0])
      case None =>
      case Some(child) => WalkAppend(child, a[1..], b);
    } else {
      assert a + b == b;
    }
  }

  /** A null reached by a walk ends it: it is accepted as the last value and fails any further step. */
  lemma NullEndsWalk(v: Json, a: seq<string>, b: seq<string>)
    requires Walk(v, a) == Some(JNull)
    ensures Walk(v, a + b) == if |b| == 0 then Some(JNull) else None
  {
    WalkAppend(v, a, b);
    assert Walk(JNull, b) == if |b| == 0 then Some(JNull) else None;
  }

  /** The text of `${value}`: `String(value)` for a primitive, `join(",")` of the elements for
      an array (with null elements as the empty text) and "[object Object]" for an object. */
  function TemplateText(v: Json): string
  {
    match v
    case JNull => "null"
    case JBool(b) => if b then "true" else "false"
    case JNum(n) => IntToDecimal(n)
    case JStr(s) => s
    case JArr(a) => ElementsText(a)
    case JObj(_) => "[object Object]"
  }

  /** `a.join(",")`. */
  function ElementsText(a: seq<Json>): string
  {
    if |a| == 0 then ""
    else
      var last := if a[|a| - 1] == JNull then "" else TemplateText(a[|a| - 1]);
      if |a| == 1 then last else ElementsText(a[..|a| - 1]) + "," + last
  }

  /** `${array}` is `join(",")` of the elements' texts, a null element giving the empty text. */
  lemma {:induction false} ElementsTextIsJoin(a: seq<Json>)
    ensures ElementsText(a)
         == Join(seq(|a|, k requires 0 <= k < |a| => if a[k] == JNull then "" else TemplateText(a[k])), ',')
  {
    var texts := seq(|a|, k requires 0 <= k < |a| => if a[k] == JNull then "" else TemplateText(a[k]));
    if |a| == 1 {
      assert texts == [texts[0]];
    } else if |a| > 1 {
      var init := a[..|a| - 1];
      ElementsTextIsJoin(init);
      var initTexts := seq(|init|, k requires 0 <= k < |init| => if init[k] == JNull then "" else TemplateText(init[k]));
      assert texts == initTexts + [texts[|a| - 1]];
      JoinSnoc(initTexts, ',', texts[|a| - 1]);
    }
  }

  /** The values JavaScript treats as false in `!value`. */
  predicate Falsy(v: Json) {
    v == JNull || v == JBool(false) || v == JNum(0) || v == JStr("")
  }
}
