/** `extractDirectVariables` and `extractListVariables`: the two extraction modes, each a method
    with the loops of the original, proved equal to a specification function, and the lemmas that
    say what those functions produce. */
module Extract {
  import opened Wrappers
  import opened JsText
  import opened JsonValue
  import opened Paths
  import opened Collecting

  /** The errors the extractors throw. */
  datatype Failure =
    | InvalidVariable(variable: string)
    | ListNotFound(listVar: string)
    | NotAnArray(listVar: string)
    | InOnPrimitive(property: string, item: Json)

  /** The `message` of each thrown error; the variable or list path it names reads back from it. */
  function Message(f: Failure): (r: string)
    ensures f.InvalidVariable? ==> |r| >= 18 && r[..18] == "Invalid variable: " && r[18..] == f.variable
    ensures f.ListNotFound? ==> |r| >= 16 && r[..16] == "List not found: " && r[16..] == f.listVar
    ensures f.NotAnArray? ==> |r| >= 16 && r[|r| - 16..] == " is not an array" && r[..|r| - 16] == f.listVar
  {
    match f
    case InvalidVariable(v) => "Invalid variable: " + v
    case ListNotFound(l) => "List not found: " + l
    case NotAnArray(l) => l + " is not an array"
    case InOnPrimitive(p, x) => "Cannot use 'in' operator to search for '" + p + "' in " + TemplateText(x)
  }

  /** `typeof v === "object" && v !== null`: an object or an array. */
  predicate IsObject(v: Json) {
    v.JObj? || v.JArr?
  }

  /** Splits `s` into a fresh array, as `s.split(sep)` does. */
  method SplitToArray(s: string, sep: char) returns (a: array<string>)
    ensures fresh(a) && a[..] == Split(s, sep)
  {
    var parts := Split(s, sep);
    a := new string[|parts|](k requires 0 <= k < |parts| => parts[k]);
  }

  /** The walk loop of both extractors: follows `keys` from `root`, giving `None` where the
      original throws (a null or undefined value, or a key that is undefined on it). */
  method Resolve(root: Json, keys: array<string>) returns (r: Option<Json>)
    ensures r == Walk(root, keys[..])
  {
    var value := root;
    var i := 0;
    while i < keys.Length
      invariant 0 <= i <= keys.Length
      invariant Walk(root, keys[..]) == Walk(value, keys[i..])
    {
      assert keys[i..][0] == keys[i] && keys[i..][1..] == keys[i + 1..];
      if value == JNull || Lookup(value, keys[i]).None? {
        return None;
      }
      value := Lookup(value, keys[i]).value;
      i := i + 1;
    }
    assert keys[i..] == [];
    return Some(value);
  }

  // ---------------------------------------------------------------------------
  // Direct mode

  /** Whether the direct-mode walk of `variable` reaches a value. */
  predicate Resolves(doc: Json, variable: string) {
    Walk(doc, PathOf(variable)).Some?
  }

  /** The text direct mode shows for a value: the pretty JSON for an object or array,
      `${value}` for anything else. */
  function Formatted(v: Json, pretty: Json -> string): string
  {
    if IsObject(v) then pretty(v) else TemplateText(v)
  }

  /** The line direct mode writes for one variable, or its error. */
  function DirectEntry(doc: Json, variable: string, pretty: Json -> string): Result<string, Failure>
  {
    match Walk(doc, PathOf(variable))
    case None => Failure(InvalidVariable(variable))
    case Some(v) => Success(variable + ": " + Formatted(v, pretty) + "\n")
  }

  function DirectEntries(doc: Json, vars: seq<string>, pretty: Json -> string): seq<Result<string, Failure>>
  {
    seq(|vars|, k requires 0 <= k < |vars| => DirectEntry(doc, vars[k], pretty))
  }

  /** What `extractDirectVariables(doc, vars)` returns or throws; `pretty` stands for
      `JSON.stringify(value, null, 2)`. */
  function DirectReport(doc: Json, vars: seq<string>, pretty: Json -> string): Result<string, Failure>
  {
    Collect(DirectEntries(doc, vars, pretty))
  }

  /** `extractDirectVariables(paramsData, varList)`. */
  method ExtractDirect(paramsData: Json, varList: seq<string>, pretty: Json -> string)
    returns (r: Result<string, Failure>)
    ensures r == DirectReport(paramsData, varList, pretty)
  {
    var result := "";
    ghost var entries := DirectEntries(paramsData, varList, pretty);
    for i := 0 to |varList|
      invariant Collect(entries[..i]) == Success(result)
    {
      var variable := varList[i];
      var parts := SplitToArray(variable, '.');
      var keys := NormalizeFirstSegment(parts);
      var value := Resolve(paramsData, keys);
      CollectStep(entries, i, result);
      if value.None? {
        CollectFailedPrefix(entries, i + 1);
        return Failure(InvalidVariable(variable));
      }
      var v := value.value;
      if IsObject(v) {
        result := result + (variable + ": " + pretty(v) + "\n");
      } else {
        result := result + (variable + ": " + TemplateText(v) + "\n");
      }
    }
    assert entries[..|varList|] == entries;
    return Success(result);
  }

  /** The line of a variable that resolves. */
  function DirectLine(doc: Json, variable: string, pretty: Json -> string): string
    requires Resolves(doc, variable)
  {
    variable + ": " + Formatted(Walk(doc, PathOf(variable)).value, pretty) + "\n"
  }

  /** When every variable resolves, the report is one line per variable, in input order, each
      naming the variable as typed; no variables give the empty report. */
  lemma DirectReportSucceeds(doc: Json, vars: seq<string>, pretty: Json -> string)
    requires forall k :: 0 <= k < |vars| ==> Resolves(doc, vars[k])
    ensures DirectReport(doc, vars, pretty)
         == Success(Concat(seq(|vars|, k requires 0 <= k < |vars| => DirectLine(doc, vars[k], pretty))))
  {
    var entries := DirectEntries(doc, vars, pretty);
    CollectAllSucceed(entries);
    assert seq(|entries|, k requires 0 <= k < |entries| => entries[k].value)
        == seq(|vars|, k requires 0 <= k < |vars| => DirectLine(doc, vars[k], pretty));
  }

  /** The first variable, in input order, that does not resolve aborts the whole report. */
  lemma DirectReportFails(doc: Json, vars: seq<string>, pretty: Json -> string, i: nat)
    requires i < |vars| && !Resolves(doc, vars[i])
    requires forall k :: 0 <= k < i ==> Resolves(doc, vars[k])
    ensures DirectReport(doc, vars, pretty) == Failure(InvalidVariable(vars[i]))
  {
    CollectFirstFailure(DirectEntries(doc, vars, pretty), i);
  }

  /** The report succeeds exactly when every variable resolves. */
  lemma DirectReportOutcome(doc: Json, vars: seq<string>, pretty: Json -> string)
    ensures DirectReport(doc, vars, pretty).Success? <==> forall k :: 0 <= k < |vars| ==> Resolves(doc, vars[k])
  {
    var entries := DirectEntries(doc, vars, pretty);
    CollectSucceeds(entries);
    assert forall k :: 0 <= k < |vars| ==> (entries[k].Success? <==> Resolves(doc, vars[k]));
  }

  /** "params.<rest>" and "data.<rest>" reach the same value: the whole walk starts at the root
      with the key "data". */
  lemma DirectParamsIsData(doc: Json, rest: string)
    ensures Walk(doc, PathOf("params." + rest)) == Walk(doc, PathOf("data." + rest))
    ensures Walk(doc, PathOf("params." + rest))
         == match Lookup(doc, "data") case None => None case Some(d) => Walk(d, Split(rest, '.'))
  {
    ParamsIsData(rest);
    var p := ["data"] + Split(rest, '.');
    assert p[0] == "data" && p[1..] == Split(rest, '.');
  }

  // ---------------------------------------------------------------------------
  // List mode

  /** Whether `property in item` holds for the key a list-mode variable names. */
  predicate HasProperty(item: Json, variable: string) {
    Lookup(item, PropertyName(variable)).Some?
  }

  /** The line list mode writes for one variable of one item, or its error: `in` throws a
      TypeError on an item that is not an object. */
  function ItemLine(item: Json, variable: string): Result<string, Failure>
  {
    if !IsObject(item) then Failure(InOnPrimitive(PropertyName(variable), item))
    else match Lookup(item, PropertyName(variable))
      case None => Failure(InvalidVariable(variable))
      case Some(x) => Success(variable + ": " + TemplateText(x) + "\n")
  }

  function ItemLines(item: Json, vars: seq<string>): seq<Result<string, Failure>>
  {
    seq(|vars|, k requires 0 <= k < |vars| => ItemLine(item, vars[k]))
  }

  /** The block of one item: its lines, then the blank separator line. */
  function ItemBlock(item: Json, vars: seq<string>): Result<string, Failure>
  {
    match Collect(ItemLines(item, vars))
    case Failure(e) => Failure(e)
    case Success(s) => Success(s + "\n")
  }

  function ItemBlocks(items: seq<Json>, vars: seq<string>): seq<Result<string, Failure>>
  {
    seq(|items|, k requires 0 <= k < |items| => ItemBlock(items[k], vars))
  }

  /** What `extractListVariables(doc, listVar, vars)` returns or throws. */
  function ListReport(doc: Json, listVar: string, vars: seq<string>): Result<string, Failure>
  {
    match Walk(doc, PathOf(listVar))
    case None => Failure(ListNotFound(listVar))
    case Some(list) =>
      if list.JArr? then Collect(ItemBlocks(list.items, vars)) else Failure(NotAnArray(listVar))
  }

  /** `extractListVariables(paramsData, listVar, varList)`. */
  method ExtractList(paramsData: Json, listVar: string, varList: seq<string>)
    returns (r: Result<string, Failure>)
    ensures r == ListReport(paramsData, listVar, varList)
  {
    var result := "";
    var parts := SplitToArray(listVar, '.');
    var listPath := NormalizeFirstSegment(parts);
    var currentObj := Resolve(paramsData, listPath);
    if currentObj.None? {
      return Failure(ListNotFound(listVar));
    }
    if !currentObj.value.JArr? {
      return Failure(NotAnArray(listVar));
    }
    var items := currentObj.value.items;
    ghost var blocks := ItemBlocks(items, varList);
    for i := 0 to |items|
      invariant Collect(blocks[..i]) == Success(result)
    {
      var block := ExtractItem(items[i], varList);
      CollectStep(blocks, i, result);
      if block.Failure? {
        CollectFailedPrefix(blocks, i + 1);
        return Failure(block.error);
      }
      result := result + block.value;
    }
    assert blocks[..|items|] == blocks;
    return Success(result);
  }

  /** The body of the item loop of `extractListVariables`: the lines of one item and the blank
      line after them, or the error thrown for its first variable that fails. */
  method ExtractItem(item: Json, varList: seq<string>) returns (r: Result<string, Failure>)
    ensures r == ItemBlock(item, varList)
  {
    var itemOutput := "";
    ghost var lines := ItemLines(item, varList);
    for j := 0 to |varList|
      invariant Collect(lines[..j]) == Success(itemOutput)
    {
      var variable := varList[j];
      var segments := SplitToArray(variable, '.');
      var property := if segments.Length > 1 then segments[1] else "undefined";
      CollectStep(lines, j, itemOutput);
      if !IsObject(item) {
        CollectFailedPrefix(lines, j + 1);
        return Failure(InOnPrimitive(property, item));
      }
      var found := Lookup(item, property);
      if found.None? {
        CollectFailedPrefix(lines, j + 1);
        return Failure(InvalidVariable(variable));
      }
      itemOutput := itemOutput + (variable + ": " + TemplateText(found.value) + "\n");
    }
    assert lines[..|varList|] == lines;
    return Success(itemOutput + "\n");
  }

  /** The block of an item that has every property: one line per variable, then a blank line. */
  function BlockText(item: Json, vars: seq<string>): string
    requires forall k :: 0 <= k < |vars| ==> HasProperty(item, vars[k])
  {
    Concat(seq(|vars|, k requires 0 <= k < |vars| && HasProperty(item, vars[k]) =>
      vars[k] + ": " + TemplateText(Lookup(item, PropertyName(vars[k])).value) + "\n")) + "\n"
  }

  /** The block of one item, when the item has every property. */
  lemma ItemBlockSucceeds(item: Json, vars: seq<string>)
    requires forall k :: 0 <= k < |vars| ==> HasProperty(item, vars[k])
    ensures ItemBlock(item, vars) == Success(BlockText(item, vars))
  {
    var lines := ItemLines(item, vars);
    CollectAllSucceed(lines);
    assert seq(|lines|, k requires 0 <= k < |lines| => lines[k].value)
        == seq(|vars|, k requires 0 <= k < |vars| && HasProperty(item, vars[k]) =>
             vars[k] + ": " + TemplateText(Lookup(item, PropertyName(vars[k])).value) + "\n");
  }

  /** Over an array whose items have every property, the report is one block per item, in
      array order, each of one line per variable in input order and a blank line; an empty
      array gives the empty report. */
  lemma ListReportSucceeds(doc: Json, listVar: string, vars: seq<string>, items: seq<Json>)
    requires Walk(doc, PathOf(listVar)) == Some(JArr(items))
    requires forall i, k :: 0 <= i < |items| && 0 <= k < |vars| ==> HasProperty(items[i], vars[k])
    ensures ListReport(doc, listVar, vars)
         == Success(Concat(seq(|items|, i requires 0 <= i < |items| => BlockText(items[i], vars))))
  {
    var blocks := ItemBlocks(items, vars);
    forall i | 0 <= i < |items| ensures blocks[i] == Success(BlockText(items[i], vars)) {
      ItemBlockSucceeds(items[i], vars);
    }
    CollectAllSucceed(blocks);
    assert seq(|blocks|, k requires 0 <= k < |blocks| => blocks[k].value)
        == seq(|items|, i requires 0 <= i < |items| => BlockText(items[i], vars));
  }

  /** The first missing property, items in array order and variables in input order, aborts
      the whole report with that variable's error; on an item that is not an object this is
      the first variable, and the error is the TypeError of `in`. */
  lemma ListReportFirstMissing(doc: Json, listVar: string, vars: seq<string>, items: seq<Json>, i: nat, j: nat)
    requires Walk(doc, PathOf(listVar)) == Some(JArr(items))
    requires i < |items| && j < |vars| && !HasProperty(items[i], vars[j])
    requires forall i', k :: 0 <= i' < i && 0 <= k < |vars| ==> HasProperty(items[i'], vars[k])
    requires forall k :: 0 <= k < j ==> HasProperty(items[i], vars[k])
    ensures ListReport(doc, listVar, vars)
         == Failure(if IsObject(items[i]) then InvalidVariable(vars[j]) else InOnPrimitive(PropertyName(vars[j]), items[i]))
  {
    var blocks := ItemBlocks(items, vars);
    CollectFirstFailure(ItemLines(items[i], vars), j);
    forall i' | 0 <= i' < i ensures blocks[i'].Success? {
      ItemBlockSucceeds(items[i'], vars);
    }
    CollectFirstFailure(blocks, i);
  }

  /** The list report fails with `List not found` when the walk fails, with `is not an array`
      when it ends elsewhere than on an array, and otherwise succeeds exactly when every item
      has every property. */
  lemma ListReportOutcome(doc: Json, listVar: string, vars: seq<string>)
    ensures Walk(doc, PathOf(listVar)).None? ==> ListReport(doc, listVar, vars) == Failure(ListNotFound(listVar))
    ensures Walk(doc, PathOf(listVar)).Some? && !Walk(doc, PathOf(listVar)).value.JArr?
            ==> ListReport(doc, listVar, vars) == Failure(NotAnArray(listVar))
    ensures ListReport(doc, listVar, vars).Success?
            <==> exists items :: Walk(doc, PathOf(listVar)) == Some(JArr(items))
                   && forall i, k :: 0 <= i < |items| && 0 <= k < |vars| ==> HasProperty(items[i], vars[k])
  {
    match Walk(doc, PathOf(listVar))
    case None =>
    case Some(list) =>
      if list.JArr? {
        var items := list.items;
        var blocks := ItemBlocks(items, vars);
        CollectSucceeds(blocks);
        forall i | 0 <= i < |items|
          ensures blocks[i].Success? <==> forall k :: 0 <= k < |vars| ==> HasProperty(items[i], vars[k])
        {
          ItemBlockOutcome(items[i], vars);
        }
      }
  }

  /** One item's block is produced exactly when the item has every variable's property. */
  lemma ItemBlockOutcome(item: Json, vars: seq<string>)
    ensures ItemBlock(item, vars).Success? <==> forall k :: 0 <= k < |vars| ==> HasProperty(item, vars[k])
  {
    var lines := ItemLines(item, vars);
    CollectSucceeds(lines);
    assert forall k :: 0 <= k < |vars| ==> (lines[k].Success? <==> HasProperty(item, vars[k]));
  }

  /** An item that is not an object stops at the first variable with the TypeError of `in`. */
  lemma PrimitiveItemFails(item: Json, vars: seq<string>)
    requires !IsObject(item) && |vars| > 0
    ensures ItemBlock(item, vars) == Failure(InOnPrimitive(PropertyName(vars[0]), item))
  {
    CollectFirstFailure(ItemLines(item, vars), 0);
  }

  /** A property that is present with the value null passes the `in` check and shows as "null". */
  lemma ItemNullProperty(members: map<string, Json>, variable: string)
    requires PropertyName(variable) in members && members[PropertyName(variable)] == JNull
    ensures ItemLine(JObj(members), variable) == Success(variable + ": null\n")
  {
    assert TemplateText(JNull) == "null";
    assert variable + ": " + "null" + "\n" == variable + ": null\n";
  }
}
