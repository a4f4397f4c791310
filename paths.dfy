/** Dot-paths: `normalizePathFirstSegment`, which makes "params" and "data" one root name,
    and the two ways the extractors read a variable string as a path. */
module Paths {
  import opened JsText

  /** The segments after `normalizePathFirstSegment` has run on them. */
  function Normalized(p: seq<string>): (r: seq<string>)
    ensures |r| == |p|
    ensures forall k :: 1 <= k < |p| ==> r[k] == p[k]
    ensures |p| > 0 ==> (r[0] == "data" <==> p[0] == "params" || p[0] == "data")
    ensures |p| > 0 && p[0] != "params" ==> r[0] == p[0]
  {
    if |p| > 0 && (p[0] == "params" || p[0] == "data") then p[0 := "data"] else p
  }

  /** Normalising again changes nothing. */
  lemma NormalizedIdempotent(p: seq<string>)
    ensures Normalized(Normalized(p)) == Normalized(p)
  {
  }

  /** `normalizePathFirstSegment(pathArray)`: rewrites a first segment "params" or "data" to
      "data" in place and returns the same array. An empty array is left alone. */
  method NormalizeFirstSegment(pathArray: array<string>) returns (r: array<string>)
    modifies pathArray
    ensures r == pathArray
    ensures pathArray[..] == Normalized(old(pathArray[..]))
  {
    if pathArray.Length > 0 && (pathArray[0] == "params" || pathArray[0] == "data") {
      pathArray[0] := "data";
    }
    r := pathArray;
  }

  /** The keys walked for `variable`: `normalizePathFirstSegment(variable.split("."))`. */
  function PathOf(variable: string): seq<string>
  {
    Normalized(Split(variable, '.'))
  }

  /** "params.<rest>" and "data.<rest>" are walked alike: the key "data", then the segments of `<rest>`. */
  lemma ParamsIsData(rest: string)
    ensures PathOf("params." + rest) == PathOf("data." + rest) == ["data"] + Split(rest, '.')
  {
    RootThenRest("params.", rest);
    RootThenRest("data.", rest);
  }

  /** A first piece "params" or "data" becomes the key "data". */
  lemma RootThenRest(root: string, rest: string)
    requires root == "params." || root == "data."
    ensures PathOf(root + rest) == ["data"] + Split(rest, '.')
  {
    var head := root[..|root| - 1];
    assert root == head + ['.'];
    assert head == "params" || head == "data";
    assert '.' !in head;
    assert root + rest == head + ['.'] + rest;
    SplitAfterPiece(head, '.', rest);
    var p := [head] + Split(rest, '.');
    assert Normalized(p) == p[0 := "data"];
    assert p[0 := "data"] == ["data"] + Split(rest, '.');
  }

  /** The key a list-mode variable looks up in each item: `variable.split(".")[1]`, which is
      `undefined` without a dot, and `in` converts `undefined` to the key "undefined". */
  function PropertyName(variable: string): (r: string)
    ensures '.' !in variable ==> r == "undefined"
    ensures '.' in variable ==> '.' !in r
  {
    var parts := Split(variable, '.');
    SplitPieces(variable, '.');
    if |parts| > 1 then parts[1] else "undefined"
  }

  /** For "<alias>.<property>" and "<alias>.<property>.<more>" the key is `<property>`;
      the alias is never looked at. */
  lemma PropertyNameOf(alias: string, property: string, more: string)
    requires '.' !in alias && '.' !in property
    ensures PropertyName(alias + "." + property) == property
    ensures PropertyName(alias + "." + property + "." + more) == property
  {
    assert alias + "." + property == alias + ['.'] + property;
    SplitAfterPiece(alias, '.', property);
    JoinSplit(property, '.');
    assert alias + "." + property + "." + more == alias + ['.'] + (property + ['.'] + more);
    SplitAfterPiece(alias, '.', property + ['.'] + more);
    SplitAfterPiece(property, '.', more);
  }
}
