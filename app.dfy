/** The decision logic of `processData` and `extractValues`: the checks made on the three input
    texts, in the original's order, the choice between the two extraction modes, and the text of
    every error. `JSON.parse` is the parameter `parse` (`None` when it throws) and
    `JSON.stringify(value, null, 2)` the parameter `pretty`. */
module App {
  import opened Wrappers
  import opened JsText
  import opened JsonValue
  import opened Extract

  /** What `processData` returns: the trimmed input text and its parse, null when there is no text. */
  datatype Input = Input(raw: string, parsed: Json)

  const InvalidJsonMessage := "Invalid JSON data"
  const NoJsonMessage := "Please enter JSON data in the params input field."
  const NoVariablesMessage := "Please enter at least one variable to extract."

  /** `processData()`: input that is empty or only white space gives no text and a null parse;
      any other input is parsed, and a parse that throws gives "Invalid JSON data". */
  function ProcessData(paramsText: string, parse: string -> Option<Json>): (r: Result<Input, string>)
    ensures (forall k :: 0 <= k < |paramsText| ==> IsJsSpace(paramsText[k])) ==> r == Success(Input("", JNull))
    ensures r.Failure? <==> Trim(paramsText) != "" && parse(Trim(paramsText)).None?
    ensures r.Failure? ==> r.error == InvalidJsonMessage
    ensures Trim(paramsText) != "" && r.Success? ==> r.value == Input(Trim(paramsText), parse(Trim(paramsText)).value)
  {
    var inputText := Trim(paramsText);
    if inputText == "" then Success(Input("", JNull))
    else match parse(inputText)
      case None => Failure(InvalidJsonMessage)
      case Some(v) => Success(Input(inputText, v))
  }

  /** `varListInput.split(",").map(v => v.trim())`: at least one entry, none holding a comma
      or starting or ending with white space. */
  function VariableList(varListInput: string): (r: seq<string>)
    ensures |r| >= 1
    ensures forall k :: 0 <= k < |r| ==> ',' !in r[k]
    ensures forall k :: 0 <= k < |r| ==> r[k] == [] || (!IsJsSpace(r[k][0]) && !IsJsSpace(r[k][|r[k]| - 1]))
  {
    var parts := Split(varListInput, ',');
    SplitPieces(varListInput, ',');
    seq(|parts|, k requires 0 <= k < |parts| => Trim(parts[k]))
  }

  /** Text shown in place of results: "Error: " in front and " Try again." behind. */
  predicate IsErrorText(s: string) {
    |s| >= 18 && s[..7] == "Error: " && s[|s| - 11..] == " Try again."
  }

  /** Comma-separated pieces, each with white space around it, give the trimmed pieces in order:
      "params.a, params.b" gives "params.a" and "params.b". */
  lemma VariableListOfJoin(pieces: seq<string>, names: seq<string>)
    requires |pieces| >= 1 && |names| == |pieces|
    requires forall k :: 0 <= k < |pieces| ==> ',' !in pieces[k] && Trim(pieces[k]) == names[k]
    ensures VariableList(Join(pieces, ',')) == names
  {
    SplitJoin(pieces, ',');
  }

  /** The text shown for a thrown error. */
  function ErrorText(message: string): (r: string)
    ensures IsErrorText(r) && r[7..|r| - 11] == message
  {
    var r := "Error: " + message + " Try again.";
    assert r[..7] == "Error: ";
    assert r[|r| - 11..] == " Try again.";
    assert r[7..|r| - 11] == message;
    r
  }

  /** An extractor's outcome as `extractValues` shows it. */
  function Shown(outcome: Result<string, Failure>): (r: Result<string, string>)
    ensures r.Success? <==> outcome.Success?
    ensures r.Success? ==> r.value == outcome.value
    ensures r.Failure? ==> IsErrorText(r.error) && r.error[7..|r.error| - 11] == Message(outcome.error)
  {
    match outcome
    case Success(s) => Success(s)
    case Failure(e) => Failure(ErrorText(Message(e)))
  }

  /** `extractValues()`: the extracted text, or the error text it shows instead. */
  function ExtractValues(paramsText: string, listText: string, varText: string,
                         parse: string -> Option<Json>, pretty: Json -> string): (r: Result<string, string>)
    ensures r.Failure? ==> IsErrorText(r.error)
  {
    match ProcessData(paramsText, parse)
    case Failure(message) => Failure(ErrorText(message))
    case Success(data) =>
      if Falsy(data.parsed) then Failure(ErrorText(NoJsonMessage))
      else
        var listVar := Trim(listText);
        var varListInput := Trim(varText);
        if varListInput == "" then Failure(ErrorText(NoVariablesMessage))
        else
          var varList := VariableList(varListInput);
          if listVar == "" then Shown(DirectReport(data.parsed, varList, pretty))
          else Shown(ListReport(data.parsed, listVar, varList))
  }

  /** Input that is empty or only white space is reported as missing JSON, whatever else was typed;
      input that does not parse is reported as invalid JSON. */
  lemma ExtractValuesWithoutJson(paramsText: string, listText: string, varText: string,
                                 parse: string -> Option<Json>, pretty: Json -> string)
    ensures (forall k :: 0 <= k < |paramsText| ==> IsJsSpace(paramsText[k]))
            ==> ExtractValues(paramsText, listText, varText, parse, pretty) == Failure(ErrorText(NoJsonMessage))
    ensures Trim(paramsText) != "" && parse(Trim(paramsText)).None?
            ==> ExtractValues(paramsText, listText, varText, parse, pretty) == Failure(ErrorText(InvalidJsonMessage))
  {
  }

  /** Once the input parses to `doc`: a falsy `doc` is reported as missing JSON, then a blank
      variable list as missing variables; otherwise a blank list path selects direct mode and
      any other list path list mode, over the trimmed, comma-separated variables. */
  lemma ExtractValuesDispatch(paramsText: string, listText: string, varText: string,
                              parse: string -> Option<Json>, pretty: Json -> string, doc: Json)
    requires Trim(paramsText) != "" && parse(Trim(paramsText)) == Some(doc)
    ensures ExtractValues(paramsText, listText, varText, parse, pretty)
         == if Falsy(doc) then Failure(ErrorText(NoJsonMessage))
            else if Trim(varText) == "" then Failure(ErrorText(NoVariablesMessage))
            else if Trim(listText) == "" then Shown(DirectReport(doc, VariableList(Trim(varText)), pretty))
            else Shown(ListReport(doc, Trim(listText), VariableList(Trim(varText))))
  {
  }
}
