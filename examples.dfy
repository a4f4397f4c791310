/** Worked inputs, derived from the general lemmas: the variables "params.affiliation" and
    "params.id" over a document with a "data" object, and "item.name" and "item.price" over a
    two-item list. Each concrete text is reached through small steps, since the solver handles
    long string literals poorly when they meet the recursive definitions all at once. */
module Examples {
  import opened Wrappers
  import opened JsText
  import opened JsonValue
  import opened Paths
  import opened Collecting
  import opened Extract

  /** `{"data":{"id":82850,"affiliation":"Acme"}}` */
  function AcmeDoc(): Json {
    JObj(map["data" := JObj(map["id" := JNum(82850), "affiliation" := JStr("Acme")])])
  }

  /** `{"data":{"items":[{"name":"A","price":1},{"name":"B","price":2}]}}` */
  function ItemsDoc(): Json {
    JObj(map["data" := JObj(map["items" := JArr([
      JObj(map["name" := JStr("A"), "price" := JNum(1)]),
      JObj(map["name" := JStr("B"), "price" := JNum(2)])])])])
  }

  lemma NormalizedExamples()
    ensures Normalized(["params", "x"]) == ["data", "x"]
    ensures Normalized(["data", "x"]) == ["data", "x"]
    ensures Normalized(["other", "x"]) == ["other", "x"]
  {
  }

  lemma SplitSingle(s: string)
    requires '.' !in s
    ensures Split(s, '.') == [s]
  {
    JoinSplit(s, '.');
  }

  /** A variable "params.<key>" reads the member `<key>` of the document's "data" object. */
  lemma DirectEntryUnderData(doc: Json, variable: string, key: string, v: Json, pretty: Json -> string)
    requires '.' !in key && variable == "params." + key
    requires doc.JObj? && "data" in doc.members && doc.members["data"].JObj?
    requires key in doc.members["data"].members && doc.members["data"].members[key] == v
    ensures DirectEntry(doc, variable, pretty) == Success(variable + ": " + Formatted(v, pretty) + "\n")
  {
    DirectParamsIsData(doc, key);
    SplitSingle(key);
    assert Walk(doc.members["data"], [key]) == Some(v);
  }

  /** Proof step only: `x + ": " + t + "\n"` regrouped as `x` and its tail. */
  lemma LineText(x: string, t: string, tail: string)
    requires tail == ": " + t + "\n"
    ensures x + ": " + t + "\n" == x + tail
  {
  }

  lemma AffiliationLine(doc: Json, variable: string, key: string, pretty: Json -> string)
    requires doc == AcmeDoc() && key == "affiliation" && variable == "params." + key
    ensures DirectEntry(doc, variable, pretty) == Success(variable + ": Acme\n")
  {
    DirectEntryUnderData(doc, variable, key, JStr("Acme"), pretty);
    LineText(variable, "Acme", ": Acme\n");
  }

  lemma IdLine(doc: Json, variable: string, key: string, pretty: Json -> string)
    requires doc == AcmeDoc() && key == "id" && variable == "params." + key
    ensures DirectEntry(doc, variable, pretty) == Success(variable + ": 82850\n")
  {
    DirectEntryUnderData(doc, variable, key, JNum(82850), pretty);
    assert Formatted(JNum(82850), pretty) == "82850";
    LineText(variable, "82850", ": 82850\n");
  }

  lemma TwoEntries(doc: Json, vars: seq<string>, pretty: Json -> string, first: string, second: string)
    requires |vars| == 2
    requires DirectEntry(doc, vars[0], pretty) == Success(first) && DirectEntry(doc, vars[1], pretty) == Success(second)
    ensures DirectReport(doc, vars, pretty) == Success(first + second)
  {
    CollectTwo(DirectEntries(doc, vars, pretty));
  }

  /** Direct mode: "params.affiliation" and "params.id" read `data.affiliation` and `data.id`,
      one line each, in input order. */
  lemma DirectExample(doc: Json, a: string, b: string, vars: seq<string>, pretty: Json -> string)
    requires doc == AcmeDoc() && a == "affiliation" && b == "id"
    requires vars == ["params." + a, "params." + b]
    ensures DirectReport(doc, vars, pretty) == Success(vars[0] + ": Acme\n" + (vars[1] + ": 82850\n"))
  {
    AffiliationLine(doc, vars[0], a, pretty);
    IdLine(doc, vars[1], b, pretty);
    TwoEntries(doc, vars, pretty, vars[0] + ": Acme\n", vars[1] + ": 82850\n");
  }

  lemma ItemsListPath(doc: Json, key: string, listVar: string)
    requires doc == ItemsDoc() && key == "items" && listVar == "data." + key
    ensures Walk(doc, PathOf(listVar)) == Some(doc.members["data"].members[key])
  {
    ParamsIsData(key);
    SplitSingle(key);
    assert PathOf(listVar) == ["data", key];
    var data := doc.members["data"];
    assert Walk(data, [key]) == Some(data.members[key]);
  }

  /** The line of an object item for a variable whose property it has. */
  lemma ItemLineOf(members: map<string, Json>, variable: string, alias: string, property: string)
    requires '.' !in alias && '.' !in property && variable == alias + "." + property
    requires property in members
    ensures ItemLine(JObj(members), variable) == Success(variable + ": " + TemplateText(members[property]) + "\n")
  {
    PropertyNameOf(alias, property, "");
  }

  lemma ItemBlockOf(item: Json, vars: seq<string>, first: string, second: string)
    requires |vars| == 2 && ItemLine(item, vars[0]) == Success(first) && ItemLine(item, vars[1]) == Success(second)
    ensures ItemBlock(item, vars) == Success(first + second + "\n")
  {
    CollectTwo(ItemLines(item, vars));
  }

  /** An item with a text property and a number property gives one block of two lines. */
  lemma ItemExample(item: Json, alias: string, p: string, q: string, text: string, n: nat, vars: seq<string>)
    requires alias == "item" && p == "name" && q == "price"
    requires item == JObj(map[p := JStr(text), q := JNum(n)])
    requires vars == [alias + "." + p, alias + "." + q]
    ensures ItemBlock(item, vars) == Success(vars[0] + ": " + text + "\n" + (vars[1] + ": " + NatToDecimal(n) + "\n") + "\n")
  {
    ItemLineOf(item.members, vars[0], alias, p);
    ItemLineOf(item.members, vars[1], alias, q);
    assert TemplateText(JNum(n)) == NatToDecimal(n);
    ItemBlockOf(item, vars, vars[0] + ": " + text + "\n", vars[1] + ": " + NatToDecimal(n) + "\n");
  }

  /** List mode: two items and two variables give two blocks of two lines, each block
      followed by a blank line. */
  lemma ListExample(doc: Json, key: string, listVar: string, alias: string, p: string, q: string, vars: seq<string>)
    requires doc == ItemsDoc() && key == "items" && listVar == "data." + key
    requires alias == "item" && p == "name" && q == "price" && vars == [alias + "." + p, alias + "." + q]
    ensures ListReport(doc, listVar, vars)
         == Success(vars[0] + ": A\n" + (vars[1] + ": 1\n") + "\n" + (vars[0] + ": B\n" + (vars[1] + ": 2\n") + "\n"))
  {
    ItemsListPath(doc, key, listVar);
    var items := doc.members["data"].members[key].items;
    ItemExample(items[0], alias, p, q, "A", 1, vars);
    ItemExample(items[1], alias, p, q, "B", 2, vars);
    assert NatToDecimal(1) == "1" && NatToDecimal(2) == "2";
    LineText(vars[0], "A", ": A\n");
    LineText(vars[1], "1", ": 1\n");
    LineText(vars[0], "B", ": B\n");
    LineText(vars[1], "2", ": 2\n");
    var blocks := ItemBlocks(items, vars);
    assert blocks[0] == Success(vars[0] + ": A\n" + (vars[1] + ": 1\n") + "\n");
    assert blocks[1] == Success(vars[0] + ": B\n" + (vars[1] + ": 2\n") + "\n");
    CollectTwo(blocks);
  }
}
