/**
 * The event builders of `ServerSentEventGenerator` in _site/datastar-sdk.js:
 * they validate their arguments, turn options and payloads into `key value`
 * data lines, and hand those to `send`. A thrown `Error` is a `Failure`
 * carrying its message.
 */
module Datastar {
  import opened Basics
  import opened Strings
  import opened JsValues
  import opened ServerSentEvents
  import JsonText

  const ElementPatchModes: seq<string> := ["outer", "inner", "replace", "prepend", "append", "before", "after", "remove"]
  const DefaultElementPatchMode := "outer"
  const PatchElementsEvent := "datastar-patch-elements"
  const PatchSignalsEvent := "datastar-patch-signals"

  // ---------------------------------------------------------------------
  // Data lines.
  // ---------------------------------------------------------------------

  function PrefixEach(prefix: string, parts: seq<string>): (lines: seq<string>)
    ensures |lines| == |parts|
    ensures forall i :: 0 <= i < |parts| ==> lines[i] == prefix + parts[i]
  {
    if parts == [] then [] else [prefix + parts[0]] + PrefixEach(prefix, parts[1..])
  }

  /** `#eachNewlineIsADataLine(prefix, data)`: one `prefix line` per newline-separated segment. */
  function EachNewlineIsADataLine(prefix: string, data: string): (lines: seq<string>)
    ensures |lines| >= 1
  {
    PrefixEach(prefix + " ", Split(data, "\n"))
  }

  /** What a reader of the data lines takes after the `prefix ` of each. */
  function Payloads(prefix: string, lines: seq<string>): (payloads: seq<string>)
    requires forall i :: 0 <= i < |lines| ==> StartsWith(lines[i], prefix + " ")
    ensures |payloads| == |lines|
    ensures forall i :: 0 <= i < |lines| ==> lines[i] == prefix + " " + payloads[i]
  {
    if lines == [] then []
    else
      var p := prefix + " ";
      assert StartsWith(lines[0], p);
      assert lines[0] == lines[0][..|p|] + lines[0][|p|..];
      [lines[0][|p|..]] + Payloads(prefix, lines[1..])
  }

  /** One line per newline of the payload, plus one. */
  lemma NewlineLinesCount(prefix: string, data: string)
    ensures |EachNewlineIsADataLine(prefix, data)| == CountChar(data, '\n') + 1
  {
    SplitCharCount(data, '\n');
  }

  /** Every line carries the prefix and a space. */
  lemma NewlineLinesPrefixed(prefix: string, data: string)
    ensures var lines := EachNewlineIsADataLine(prefix, data);
      forall i :: 0 <= i < |lines| ==> StartsWith(lines[i], prefix + " ")
  {
    var parts := Split(data, "\n");
    var lines := EachNewlineIsADataLine(prefix, data);
    forall i | 0 <= i < |lines| ensures StartsWith(lines[i], prefix + " ") {
      assert lines[i] == prefix + " " + parts[i];
    }
  }

  /** Every line carries the prefix, and the payloads joined by newlines give back the data. */
  lemma NewlineLinesRoundTrip(prefix: string, data: string)
    ensures var lines := EachNewlineIsADataLine(prefix, data);
      && (forall i :: 0 <= i < |lines| ==> StartsWith(lines[i], prefix + " "))
      && JoinWith(Payloads(prefix, lines), "\n") == data
  {
    var parts := Split(data, "\n");
    var lines := EachNewlineIsADataLine(prefix, data);
    NewlineLinesPrefixed(prefix, data);
    var payloads := Payloads(prefix, lines);
    forall i | 0 <= i < |lines| ensures payloads[i] == parts[i] {
      assert prefix + " " + payloads[i] == prefix + " " + parts[i];
    }
    assert payloads == parts;
    SplitJoin(data, "\n");
  }

  /** Without carriage returns in the key or payload, no data line contains a line terminator. */
  lemma NewlineLinesAreLineFree(prefix: string, data: string)
    requires LineFree(prefix)
    requires forall i :: 0 <= i < |data| ==> data[i] != '\r'
    ensures var lines := EachNewlineIsADataLine(prefix, data);
      forall i :: 0 <= i < |lines| ==> LineFree(lines[i])
  {
    var parts := Split(data, "\n");
    var lines := EachNewlineIsADataLine(prefix, data);
    forall i | 0 <= i < |lines| ensures LineFree(lines[i]) {
      SplitCharPartsFree(data, '\n', i);
      SplitPartsAreFactors(data, i);
      assert lines[i] == prefix + " " + parts[i];
    }
  }

  /** No part of `Split(s, "\n")` holds a character that `s` lacks. */
  lemma {:induction false} SplitPartsAreFactors(s: string, k: nat)
    requires k < |Split(s, "\n")|
    ensures forall i :: 0 <= i < |Split(s, "\n")[k]| ==> Split(s, "\n")[k][i] in s
    decreases |s|
  {
    var parts := Split(s, "\n");
    match IndexOf(s, "\n")
    case None =>
      assert parts == [s];
    case Some(i) =>
      var rest := s[i + 1..];
      assert parts == [s[..i]] + Split(rest, "\n");
      if k > 0 {
        SplitPartsAreFactors(rest, k - 1);
        assert parts[k] == Split(rest, "\n")[k - 1];
        forall j | 0 <= j < |parts[k]| ensures parts[k][j] in s {
          SuffixMember(s, i + 1, parts[k][j]);
        }
      } else {
        forall j | 0 <= j < |parts[k]| ensures parts[k][j] in s {
          assert parts[k][j] == s[j];
        }
      }
  }

  lemma SuffixMember(s: string, i: nat, c: char)
    requires i <= |s| && c in s[i..]
    ensures c in s
  {
    var m :| 0 <= m < |s[i..]| && s[i..][m] == c;
    assert s[i + m] == c;
  }

  // ---------------------------------------------------------------------
  // Options.
  // ---------------------------------------------------------------------

  /** `#hasDefaultValue(key, val)`: only the three keys of `DefaultMapping` have a default. */
  predicate HasDefaultValue(key: string, val: JsValue)
    ensures HasDefaultValue(key, val) ==> key == "mode" || key == "useViewTransition" || key == "onlyIfMissing"
    ensures HasDefaultValue(key, val) ==> !Unprintable(val)
  {
    if key == "mode" then val == JsString(DefaultElementPatchMode)
    else if key == "useViewTransition" then val == JsBool(false)
    else if key == "onlyIfMissing" then val == JsBool(false)
    else false
  }

  /** An option that survives the default filter. */
  predicate Kept(option: (string, JsValue))
  {
    !HasDefaultValue(option.0, option.1)
  }

  /** A value whose `.toString()` throws. */
  predicate Unprintable(v: JsValue)
  {
    v == JsUndefined || v == JsNull
  }

  /**
   * `#eachOptionIsADataLine(options)`: the options that differ from their
   * default, in key order, each as `key value` lines; throws when a kept
   * option is `undefined` or `null`.
   */
  function EachOptionIsADataLine(options: Options): (r: Result<seq<string>, string>)
    ensures r.Failure? <==> exists i :: 0 <= i < |options| && Kept(options[i]) && Unprintable(options[i].1)
    ensures r.Failure? ==> r.error == NoPropertiesError
  {
    if options == [] then Success([])
    else
      assert forall i :: 1 <= i < |options| ==> options[i] == options[1..][i - 1];
      var rest := EachOptionIsADataLine(options[1..]);
      if !Kept(options[0]) then rest
      else match ToStringCall(options[0].1)
        case Failure(e) => Failure(e)
        case Success(text) =>
          if rest.Failure? then rest
          else Success(EachNewlineIsADataLine(options[0].0, text) + rest.value)
  }

  /** Options all at their defaults produce no data line at all. */
  lemma {:induction false} DefaultsProduceNoLines(options: Options)
    requires forall i :: 0 <= i < |options| ==> HasDefaultValue(options[i].0, options[i].1)
    ensures EachOptionIsADataLine(options) == Success([])
  {
    if options != [] {
      DefaultsProduceNoLines(options[1..]);
    }
  }

  /** `line` is a data line of `option`, which is not at its default. */
  predicate KeyedBy(line: string, option: (string, JsValue))
  {
    Kept(option) && StartsWith(line, option.0 + " ")
  }

  /** The lines of the first option, if kept, followed by those of the rest. */
  lemma OptionLinesUnfold(options: Options)
    requires options != [] && EachOptionIsADataLine(options).Success?
    ensures EachOptionIsADataLine(options[1..]).Success?
    ensures !Unprintable(options[0].1) || !Kept(options[0])
    ensures EachOptionIsADataLine(options).value
         == (if Kept(options[0]) then EachNewlineIsADataLine(options[0].0, TemplateText(options[0].1)) else [])
            + EachOptionIsADataLine(options[1..]).value
  {
  }

  /** The option the `j`-th option line comes from. */
  lemma {:induction false} OptionOfLine(options: Options, j: nat) returns (i: nat)
    requires EachOptionIsADataLine(options).Success?
    requires j < |EachOptionIsADataLine(options).value|
    ensures i < |options| && KeyedBy(EachOptionIsADataLine(options).value[j], options[i])
    decreases |options|
  {
    OptionLinesUnfold(options);
    var head := if Kept(options[0]) then EachNewlineIsADataLine(options[0].0, TemplateText(options[0].1)) else [];
    if j < |head| {
      NewlineLinesPrefixed(options[0].0, TemplateText(options[0].1));
      i := 0;
    } else {
      var k := OptionOfLine(options[1..], j - |head|);
      i := k + 1;
    }
  }

  /** Every option line starts with the key of a kept option. */
  lemma OptionLinesKeyed(options: Options)
    requires EachOptionIsADataLine(options).Success?
    ensures var lines := EachOptionIsADataLine(options).value;
      forall j :: 0 <= j < |lines| ==> exists i :: 0 <= i < |options| && KeyedBy(lines[j], options[i])
  {
    var lines := EachOptionIsADataLine(options).value;
    forall j | 0 <= j < |lines| ensures exists i :: 0 <= i < |options| && KeyedBy(lines[j], options[i]) {
      var i := OptionOfLine(options, j);
    }
  }

  /** The options that become data lines: all but `eventId` and `retryDuration`. */
  function RenderOptions(options: Options): Options
  {
    Without(options, ["eventId", "retryDuration"])
  }

  /** `line` starts with the key of an option other than `eventId` and `retryDuration`, not at its default. */
  predicate FromRenderedOption(line: string, options: Options)
  {
    exists i :: 0 <= i < |options| && OtherKeyed(line, options[i])
  }

  predicate OtherKeyed(line: string, option: (string, JsValue))
  {
    option.0 != "eventId" && option.0 != "retryDuration" && KeyedBy(line, option)
  }

  /**
   * `eventId` and `retryDuration` never become data lines: each line starts
   * with the key of another option, one that is not at its default.
   */
  lemma EventOptionsNeverDataLines(options: Options)
    requires EachOptionIsADataLine(RenderOptions(options)).Success?
    ensures var lines := EachOptionIsADataLine(RenderOptions(options)).value;
      forall j :: 0 <= j < |lines| ==> FromRenderedOption(lines[j], options)
  {
    var render := RenderOptions(options);
    var lines := EachOptionIsADataLine(render).value;
    forall j | 0 <= j < |lines| ensures FromRenderedOption(lines[j], options) {
      var i := OptionOfLine(render, j);
      assert render[i] in options && render[i].0 !in ["eventId", "retryDuration"];
      var k :| 0 <= k < |options| && options[k] == render[i];
      assert OtherKeyed(lines[j], options[k]);
    }
  }

  // ---------------------------------------------------------------------
  // Validation.
  // ---------------------------------------------------------------------

  predicate IsPatchMode(mode: JsValue)
  {
    mode.JsString? && mode.s in ElementPatchModes
  }

  function InvalidModeError(mode: JsValue): string
  {
    "Invalid ElementPatchMode: \"" + TemplateText(mode) + "\". Valid modes are: " + JoinWith(ElementPatchModes, ", ")
  }

  /** `#validateElementPatchMode(mode)`: `ElementPatchModes.includes(mode)` or throw. */
  function ValidateElementPatchMode(mode: JsValue): (r: Result<(), string>)
    ensures r.Success? <==> IsPatchMode(mode)
    ensures r.Failure? ==> r.error == InvalidModeError(mode)
  {
    if IsPatchMode(mode) then Success(()) else Failure(InvalidModeError(mode))
  }

  function RequiredError(paramName: string): string
  {
    paramName + " is required and cannot be empty"
  }

  /** `#validateRequired(value, paramName)`: an empty or all-whitespace string throws. */
  function ValidateRequired(value: string, paramName: string): (r: Result<(), string>)
    ensures r.Failure? <==> IsBlank(value)
    ensures r.Failure? ==> r.error == RequiredError(paramName)
  {
    if value == "" || IsBlank(value) then Failure(RequiredError(paramName)) else Success(())
  }

  // ---------------------------------------------------------------------
  // patchElements.
  // ---------------------------------------------------------------------

  const RemoveWithoutSelectorError := "For remove mode without selector, elements parameter with IDs is required"

  /** `patchMode === 'remove' && selector`. */
  predicate RemovesWithSelector(options: Options)
  {
    Get(RenderOptions(options), "mode") == JsString("remove") && Truthy(Get(RenderOptions(options), "selector"))
  }

  /** The first throw of `patchElements`, if any, before the option lines are built. */
  function PatchElementsError(elements: string, options: Options): Option<string>
  {
    var render := RenderOptions(options);
    var mode := Get(render, "mode");
    var selector := Get(render, "selector");
    if Truthy(mode) && ValidateElementPatchMode(mode).Failure? then Some(ValidateElementPatchMode(mode).error)
    else if !RemovesWithSelector(options) && ValidateRequired(elements, "elements").Failure? then Some(ValidateRequired(elements, "elements").error)
    else if !Truthy(selector) && mode == JsString("remove") && (elements == "" || IsBlank(elements)) then Some(RemoveWithoutSelectorError)
    else None
  }

  /** The `elements` lines, left out only when removing by selector with blank elements. */
  function ElementLines(elements: string, options: Options): seq<string>
  {
    if !RemovesWithSelector(options) || !IsBlank(elements) then EachNewlineIsADataLine("elements", elements) else []
  }

  /** What `patchElements(elements, options)` returns or throws. */
  function PatchElementsLines(elements: string, options: Options): (r: Result<seq<string>, string>)
    ensures r.Success? ==> |r.value| >= 2 && r.value[0] == "event: " + PatchElementsEvent + "\n" && r.value[|r.value| - 1] == "\n"
  {
    match PatchElementsError(elements, options)
    case Some(e) => Failure(e)
    case None =>
      match EachOptionIsADataLine(RenderOptions(options))
      case Failure(e) => Failure(e)
      case Success(optionLines) =>
        Success(Send(PatchElementsEvent, optionLines + ElementLines(elements, options),
                     Get(options, "eventId"), Get(options, "retryDuration")))
  }

  /** `patchElements(elements, options)`. */
  method PatchElements(elements: string, options: Options) returns (r: Result<seq<string>, string>)
    ensures r == PatchElementsLines(elements, options)
  {
    var eventId := Get(options, "eventId");
    var retryDuration := Get(options, "retryDuration");
    var renderOptions := RenderOptions(options);
    var patchMode := Get(renderOptions, "mode");
    if Truthy(patchMode) {
      var valid := ValidateElementPatchMode(patchMode);
      if valid.Failure? {
        return Failure(valid.error);
      }
    }
    var selector := Get(renderOptions, "selector");
    var isRemoveWithSelector := patchMode == JsString("remove") && Truthy(selector);
    if !isRemoveWithSelector {
      var required := ValidateRequired(elements, "elements");
      if required.Failure? {
        return Failure(required.error);
      }
    }
    if !Truthy(selector) && patchMode == JsString("remove") {
      if elements == "" || IsBlank(elements) {
        return Failure(RemoveWithoutSelectorError);
      }
    }
    var optionLines := EachOptionIsADataLine(renderOptions);
    if optionLines.Failure? {
      return Failure(optionLines.error);
    }
    var dataLines := optionLines.value;
    assert isRemoveWithSelector == RemovesWithSelector(options);
    assert PatchElementsError(elements, options) == None;
    if !isRemoveWithSelector || !IsBlank(elements) {
      dataLines := dataLines + EachNewlineIsADataLine("elements", elements);
    }
    assert dataLines == optionLines.value + ElementLines(elements, options);
    return Success(Send(PatchElementsEvent, dataLines, eventId, retryDuration));
  }

  /**
   * The error cases of `patchElements`, in the order it checks them: a mode
   * outside the eight, blank elements (unless removing by selector), and an
   * option the line builder cannot print.
   */
  lemma PatchElementsErrors(elements: string, options: Options)
    ensures var mode := Get(RenderOptions(options), "mode");
      var r := PatchElementsLines(elements, options);
      && (Truthy(mode) && !IsPatchMode(mode) ==> r == Failure(InvalidModeError(mode)))
      && ((!(Truthy(mode) && !IsPatchMode(mode)) && !RemovesWithSelector(options) && IsBlank(elements))
          ==> r == Failure(RequiredError("elements")))
      && (r.Failure? <==>
            (Truthy(mode) && !IsPatchMode(mode)) || (!RemovesWithSelector(options) && IsBlank(elements))
            || EachOptionIsADataLine(RenderOptions(options)).Failure?)
  {
  }

  /**
   * The check for remove mode without a selector never fires: once the mode
   * and `elements` validations have passed, its condition is false.
   */
  lemma RemoveWithoutSelectorCheckUnreachable(elements: string, options: Options)
    requires var mode := Get(RenderOptions(options), "mode");
      !(Truthy(mode) && !IsPatchMode(mode)) && !(!RemovesWithSelector(options) && IsBlank(elements))
    ensures var render := RenderOptions(options);
      !(!Truthy(Get(render, "selector")) && Get(render, "mode") == JsString("remove") && IsBlank(elements))
  {
  }

  /**
   * On success the event carries the option lines, then the `elements`
   * lines, which are left out exactly when removing by selector with blank
   * elements.
   */
  lemma PatchElementsSucceeds(elements: string, options: Options)
    requires PatchElementsLines(elements, options).Success?
    ensures var optionLines := EachOptionIsADataLine(RenderOptions(options)).value;
      var tail := if RemovesWithSelector(options) && IsBlank(elements) then [] else EachNewlineIsADataLine("elements", elements);
      PatchElementsLines(elements, options).value
        == Send(PatchElementsEvent, optionLines + tail, Get(options, "eventId"), Get(options, "retryDuration"))
  {
  }

  // ---------------------------------------------------------------------
  // patchSignals.
  // ---------------------------------------------------------------------

  /** What `patchSignals(signals, options)` returns or throws. */
  function PatchSignalsLines(signals: string, options: Options): (r: Result<seq<string>, string>)
    ensures IsBlank(signals) ==> r == Failure(RequiredError("signals"))
    ensures !IsBlank(signals) ==> r.Failure? == EachOptionIsADataLine(RenderOptions(options)).Failure?
  {
    match ValidateRequired(signals, "signals")
    case Failure(e) => Failure(e)
    case Success(_) =>
      match EachOptionIsADataLine(RenderOptions(options))
      case Failure(e) => Failure(e)
      case Success(optionLines) =>
        Success(Send(PatchSignalsEvent, optionLines + EachNewlineIsADataLine("signals", signals),
                     Get(options, "eventId"), Get(options, "retryDuration")))
  }

  /**
   * A client reading a `patchSignals` event gets its type and, after the
   * option lines, `signals` lines whose payloads join back to the signals.
   */
  lemma PatchSignalsCarriesSignals(signals: string, options: Options)
    requires PatchSignalsLines(signals, options).Success?
    ensures var optionLines := EachOptionIsADataLine(RenderOptions(options)).value;
      var lines := PatchSignalsLines(signals, options).value;
      var signalLines := EachNewlineIsADataLine("signals", signals);
      && lines == Send(PatchSignalsEvent, optionLines + signalLines, Get(options, "eventId"), Get(options, "retryDuration"))
      && (forall i :: 0 <= i < |signalLines| ==> StartsWith(signalLines[i], "signals "))
      && JoinWith(Payloads("signals", signalLines), "\n") == signals
  {
    NewlineLinesRoundTrip("signals", signals);
  }

  // ---------------------------------------------------------------------
  // executeScript.
  // ---------------------------------------------------------------------

  const DataEffect := " data-effect=\"el.remove()\""

  /** The `attributes` option of `executeScript`. */
  datatype Attributes =
    | AttributeRecord(entries: seq<(string, JsValue)>)
    | AttributeList(items: seq<string>)
    | AttributeOther(value: JsValue)

  /** `Object.entries(attributes).map(([k, v]) => ` ${k}="${v}"`).join("")`. */
  function RecordText(entries: seq<(string, JsValue)>): string
  {
    if entries == [] then ""
    else " " + entries[0].0 + "=\"" + TemplateText(entries[0].1) + "\"" + RecordText(entries[1..])
  }

  /**
   * The attribute text before the optional `data-effect`: a plain object
   * gives ` k="v"` per entry, a non-empty array its items after a space,
   * anything else (an absent option defaults to `{}`) nothing.
   */
  function AttributeText(attributes: Attributes): string
  {
    match attributes
    case AttributeRecord(entries) => RecordText(entries)
    case AttributeList(items) => if |items| > 0 then " " + JoinWith(items, " ") else ""
    case AttributeOther(_) => ""
  }

  /** `autoRemove` after its default of `true`, which applies only to an absent option. */
  predicate RemovesItself(autoRemove: JsValue)
  {
    autoRemove == JsUndefined || Truthy(autoRemove)
  }

  /** The final `attrString`. */
  function OpeningAttributes(attributes: Attributes, autoRemove: JsValue): string
  {
    AttributeText(attributes) + if RemovesItself(autoRemove) then DataEffect else ""
  }

  function ScriptTag(script: string, attributes: Attributes, autoRemove: JsValue): string
  {
    "<script" + OpeningAttributes(attributes, autoRemove) + ">" + script + "</script>"
  }

  /** The data lines of a script event: append to the body, then the tag. */
  function ScriptDataLines(scriptTag: string): seq<string>
  {
    EachNewlineIsADataLine("mode", "append") + EachNewlineIsADataLine("selector", "body")
      + EachNewlineIsADataLine("elements", scriptTag)
  }

  /** `executeScript(script, { autoRemove, attributes, eventId, retryDuration })`. */
  method ExecuteScript(script: string, autoRemove: JsValue, attributes: Attributes, eventId: JsValue, retryDuration: JsValue)
    returns (lines: seq<string>)
    ensures lines == Send(PatchElementsEvent, ScriptDataLines(ScriptTag(script, attributes, autoRemove)), eventId, retryDuration)
  {
    var attrString := "";
    match attributes {
      case AttributeRecord(entries) =>
        attrString := RecordText(entries);
      case AttributeList(items) =>
        attrString := if |items| > 0 then " " + JoinWith(items, " ") else "";
      case AttributeOther(_) =>
    }
    assert attrString == AttributeText(attributes);
    if RemovesItself(autoRemove) {
      attrString := attrString + DataEffect;
    }
    assert attrString == OpeningAttributes(attributes, autoRemove);
    var scriptTag := "<script" + attrString + ">" + script + "</script>";
    assert scriptTag == ScriptTag(script, attributes, autoRemove);
    lines := Send(PatchElementsEvent, ScriptDataLines(scriptTag), eventId, retryDuration);
  }

  /** A payload without a newline is a single data line. */
  lemma SingleDataLine(prefix: string, data: string)
    requires forall i :: 0 <= i < |data| ==> data[i] != '\n'
    ensures EachNewlineIsADataLine(prefix, data) == [prefix + " " + data]
  {
    forall i | 0 <= i <= |data| ensures !OccursAt(data, "\n", i) {
      OccursAtChar(data, '\n', i);
    }
    SplitAbsent(data, "\n");
  }

  /** A fixed option line without a newline. */
  lemma FixedLine(prefix: string, data: string, line: string)
    requires forall i :: 0 <= i < |data| ==> data[i] != '\n'
    requires line == prefix + " " + data
    ensures EachNewlineIsADataLine(prefix, data) == [line]
  {
    SingleDataLine(prefix, data);
  }

  /**
   * A script event's data lines are `mode append`, `selector body` and then
   * `elements` lines whose payloads join back to the script tag.
   */
  lemma ScriptEventLines(scriptTag: string)
    ensures var lines := ScriptDataLines(scriptTag);
      var elementLines := lines[2..];
      && |lines| >= 3
      && lines[0] == "mode append" && lines[1] == "selector body"
      && (forall i :: 0 <= i < |elementLines| ==> StartsWith(elementLines[i], "elements "))
      && JoinWith(Payloads("elements", elementLines), "\n") == scriptTag
  {
    ScriptHeadLines();
    NewlineLinesRoundTrip("elements", scriptTag);
    var rest := EachNewlineIsADataLine("elements", scriptTag);
    var lines := ScriptDataLines(scriptTag);
    assert lines == ["mode append", "selector body"] + rest;
    assert lines[2..] == rest;
  }

  /** The two fixed options of a script event are one line each. */
  lemma ScriptHeadLines()
    ensures EachNewlineIsADataLine("mode", "append") == ["mode append"]
    ensures EachNewlineIsADataLine("selector", "body") == ["selector body"]
  {
    FixedLine("mode", "append", "mode append");
    FixedLine("selector", "body", "selector body");
  }

  /** The tag opens with the attributes and wraps the script unchanged. */
  lemma ScriptTagWraps(script: string, attributes: Attributes, autoRemove: JsValue)
    ensures var tag := ScriptTag(script, attributes, autoRemove);
      && StartsWith(tag, "<script" + OpeningAttributes(attributes, autoRemove) + ">")
      && EndsWith(tag, ">" + script + "</script>")
  {
    ElementWraps(OpeningAttributes(attributes, autoRemove), script);
  }

  /** `<script` + attributes + `>` + script + `</script>` splits at either end of the tag. */
  lemma ElementWraps(attrs: string, script: string)
    ensures StartsWith("<script" + attrs + ">" + script + "</script>", "<script" + attrs + ">")
    ensures EndsWith("<script" + attrs + ">" + script + "</script>", ">" + script + "</script>")
  {
    var tag := "<script" + attrs + ">" + script + "</script>";
    var open := "<script" + attrs + ">";
    assert tag == open + (script + "</script>");
    PrefixOfConcat(open, script + "</script>");
    var close := ">" + script + "</script>";
    assert tag == ("<script" + attrs) + close;
    SuffixOfConcat("<script" + attrs, close);
  }

  /**
   * The script's attributes end in the `data-effect` attribute exactly when
   * `autoRemove` (default true) holds or the caller's own attributes
   * already end in it.
   */
  lemma ScriptEffectIff(attributes: Attributes, autoRemove: JsValue)
    ensures var attrs := OpeningAttributes(attributes, autoRemove);
      EndsWith(attrs, DataEffect) <==> RemovesItself(autoRemove) || EndsWith(AttributeText(attributes), DataEffect)
  {
    var attrs := OpeningAttributes(attributes, autoRemove);
    if RemovesItself(autoRemove) {
      assert attrs[|attrs| - |DataEffect|..] == DataEffect;
    } else {
      assert attrs == AttributeText(attributes);
    }
  }

  // ---------------------------------------------------------------------
  // removeElements.
  // ---------------------------------------------------------------------

  const RemoveTargetError := "Either selector or elements (with IDs) must be provided to remove elements."

  /** Neither a selector nor non-blank elements: nothing says what to remove. */
  predicate NoTarget(selector: JsValue, elements: Option<string>)
  {
    !Truthy(selector) && (elements.None? || IsBlank(elements.value))
  }

  /** The options object `removeElements` passes on, as written: `selector` is always a key. */
  function RemoveOptionsAsWritten(selector: JsValue, options: Options): Options
  {
    [("selector", selector), ("mode", JsString("remove")),
     ("eventId", Get(options, "eventId")), ("retryDuration", Get(options, "retryDuration"))]
  }

  /** The render options of what `removeElements` passes on, as written. */
  lemma RenderRemoveOptionsAsWritten(selector: JsValue, options: Options)
    ensures RenderOptions(RemoveOptionsAsWritten(selector, options)) == [("selector", selector), ("mode", JsString("remove"))]
  {
    var passed := RemoveOptionsAsWritten(selector, options);
    var keys := ["eventId", "retryDuration"];
    assert "selector" !in keys && "mode" !in keys;
    WithoutStep(passed, keys);
    WithoutStep(passed[1..], keys);
    WithoutStep(passed[2..], keys);
    WithoutStep(passed[3..], keys);
    assert passed[4..] == [];
  }

  /** `removeElements(selector, elements, options)` as written. */
  function RemoveElementsAsWritten(selector: JsValue, elements: Option<string>, options: Options): (r: Result<seq<string>, string>)
    ensures NoTarget(selector, elements) ==> r == Failure(RemoveTargetError)
    ensures r.Success? ==> |r.value| >= 2 && r.value[0] == "event: " + PatchElementsEvent + "\n"
  {
    if NoTarget(selector, elements) then Failure(RemoveTargetError)
    else PatchElementsLines(if elements.Some? then elements.value else "", RemoveOptionsAsWritten(selector, options))
  }

  /**
   * Removing by elements without a selector, the second way the method
   * offers, always throws: the `selector: undefined` it passes on is not a
   * default, so the option line builder calls `toString` on it.
   */
  lemma RemoveByElementsThrowsAsWritten(selector: JsValue, elements: string, options: Options)
    requires Unprintable(selector) && !IsBlank(elements)
    ensures RemoveElementsAsWritten(selector, Some(elements), options) == Failure(NoPropertiesError)
  {
    var passed := RemoveOptionsAsWritten(selector, options);
    var render := RenderOptions(passed);
    RenderRemoveOptionsAsWritten(selector, options);
    assert Get(render, "mode") == JsString("remove") && Get(render, "selector") == selector;
    assert IsPatchMode(JsString("remove"));
    assert PatchElementsError(elements, passed) == None;
    assert Kept(render[0]) && Unprintable(render[0].1);
  }

  /** The options the corrected `removeElements` passes on: `selector` only when one is given. */
  function RemoveOptions(selector: JsValue, options: Options): Options
  {
    (if Truthy(selector) then [("selector", selector)] else [])
      + [("mode", JsString("remove")), ("eventId", Get(options, "eventId")), ("retryDuration", Get(options, "retryDuration"))]
  }

  /** The render options of what the corrected `removeElements` passes on. */
  lemma RenderRemoveOptions(selector: JsValue, options: Options)
    ensures RenderOptions(RemoveOptions(selector, options))
         == (if Truthy(selector) then [("selector", selector)] else []) + [("mode", JsString("remove"))]
  {
    var passed := RemoveOptions(selector, options);
    var keys := ["eventId", "retryDuration"];
    var tail := [("mode", JsString("remove")), ("eventId", Get(options, "eventId")), ("retryDuration", Get(options, "retryDuration"))];
    assert "selector" !in keys && "mode" !in keys;
    WithoutStep(tail, keys);
    WithoutStep(tail[1..], keys);
    WithoutStep(tail[2..], keys);
    assert tail[3..] == [];
    if Truthy(selector) {
      assert passed == [("selector", selector)] + tail;
      WithoutStep(passed, keys);
      assert passed[1..] == tail;
    } else {
      assert passed == tail;
    }
  }

  /** `removeElements`, passing `selector` on only when it is given. */
  function RemoveElements(selector: JsValue, elements: Option<string>, options: Options): (r: Result<seq<string>, string>)
    ensures NoTarget(selector, elements) ==> r == Failure(RemoveTargetError)
    ensures r.Success? ==> |r.value| >= 2 && r.value[0] == "event: " + PatchElementsEvent + "\n"
  {
    if NoTarget(selector, elements) then Failure(RemoveTargetError)
    else PatchElementsLines(if elements.Some? then elements.value else "", RemoveOptions(selector, options))
  }

  /** The corrected `removeElements` throws exactly when there is nothing to remove. */
  lemma RemoveElementsFailsOnlyWithoutTarget(selector: JsValue, elements: Option<string>, options: Options)
    ensures RemoveElements(selector, elements, options).Failure? <==> NoTarget(selector, elements)
    ensures NoTarget(selector, elements) ==> RemoveElements(selector, elements, options) == Failure(RemoveTargetError)
  {
    if !NoTarget(selector, elements) {
      var e := if elements.Some? then elements.value else "";
      if Truthy(selector) {
        RemoveBySelectorPasses(selector, e, options);
      } else {
        assert RemoveOptions(selector, options) == RemoveOptions(JsUndefined, options);
        RemoveByElementsPasses(e, options);
        RemoveModeLine();
      }
    }
  }

  /** Removing by a selector passes every check of `patchElements`, whatever the elements. */
  lemma RemoveBySelectorPasses(selector: JsValue, elements: string, options: Options)
    requires Truthy(selector)
    ensures PatchElementsError(elements, RemoveOptions(selector, options)) == None
    ensures EachOptionIsADataLine(RenderOptions(RemoveOptions(selector, options))).Success?
  {
    var passed := RemoveOptions(selector, options);
    var render := RenderOptions(passed);
    RenderRemoveOptions(selector, options);
    assert render == [("selector", selector), ("mode", JsString("remove"))];
    assert IsPatchMode(JsString("remove"));
    assert Get(render, "mode") == JsString("remove");
    assert Get(render, "selector") == selector;
    assert RemovesWithSelector(passed);
    assert !Unprintable(render[0].1) && !Unprintable(render[1].1);
  }

  /** The `remove` mode is not the default, so it becomes the line `mode remove`. */
  lemma RemoveModeLine()
    ensures EachOptionIsADataLine([("mode", JsString("remove"))]) == Success(["mode remove"])
  {
    FixedLine("mode", "remove", "mode remove");
    assert !HasDefaultValue("mode", JsString("remove"));
    assert ToStringCall(JsString("remove")) == Success("remove");
    assert [("mode", JsString("remove"))][1..] == [];
  }

  /** Removing by elements alone sends the `remove` mode and the elements, and nothing else. */
  lemma RemoveByElementsSends(elements: string, options: Options)
    requires !IsBlank(elements)
    ensures RemoveElements(JsUndefined, Some(elements), options)
         == Success(Send(PatchElementsEvent, ["mode remove"] + EachNewlineIsADataLine("elements", elements),
                         Get(options, "eventId"), Get(options, "retryDuration")))
  {
    var passed := RemoveOptions(JsUndefined, options);
    assert RemoveElements(JsUndefined, Some(elements), options) == PatchElementsLines(elements, passed);
    RemoveByElementsPasses(elements, options);
    RemoveModeLine();
    var eventId := Get(options, "eventId");
    var retryDuration := Get(options, "retryDuration");
    assert passed == [("mode", JsString("remove")), ("eventId", eventId), ("retryDuration", retryDuration)];
    assert |"mode"| != |"eventId"| && |"mode"| != |"retryDuration"| && |"eventId"| != |"retryDuration"|;
    GetStep(passed, "eventId");
    GetStep(passed[1..], "eventId");
    GetStep(passed, "retryDuration");
    GetStep(passed[1..], "retryDuration");
    GetStep(passed[2..], "retryDuration");
    var lines := ["mode remove"] + EachNewlineIsADataLine("elements", elements);
    assert ElementLines(elements, passed) == EachNewlineIsADataLine("elements", elements);
    assert PatchElementsLines(elements, passed) == Success(Send(PatchElementsEvent, lines, eventId, retryDuration));
  }

  /** Removing by elements alone passes every check of `patchElements`. */
  lemma RemoveByElementsPasses(elements: string, options: Options)
    requires !IsBlank(elements)
    ensures RenderOptions(RemoveOptions(JsUndefined, options)) == [("mode", JsString("remove"))]
    ensures !RemovesWithSelector(RemoveOptions(JsUndefined, options))
    ensures PatchElementsError(elements, RemoveOptions(JsUndefined, options)) == None
  {
    RenderRemoveOptions(JsUndefined, options);
    assert IsPatchMode(JsString("remove"));
  }

  // ---------------------------------------------------------------------
  // removeSignals.
  // ---------------------------------------------------------------------

  /** `signalKeys`: one key or an array of keys. */
  datatype SignalKeys = OneKey(key: string) | KeyArray(keys: seq<string>)

  function KeyList(signalKeys: SignalKeys): seq<string>
  {
    match signalKeys
    case OneKey(key) => [key]
    case KeyArray(keys) => keys
  }

  /** The keys in order of first occurrence, each once. */
  function Distinct(keys: seq<string>): (d: seq<string>)
    ensures forall k :: k in d <==> k in keys
    ensures forall i, j :: 0 <= i < j < |d| ==> d[i] != d[j]
  {
    if keys == [] then []
    else
      var d := Distinct(keys[..|keys| - 1]);
      var last := keys[|keys| - 1];
      assert keys == keys[..|keys| - 1] + [last];
      if last in d then d else d + [last]
  }

  /**
   * The keys come out of `Distinct` in the order of their first occurrence:
   * `positions` picks each one's first position in `keys`, in increasing order.
   */
  lemma {:induction false} DistinctKeepsFirstOccurrences(keys: seq<string>) returns (positions: seq<nat>)
    ensures var d := Distinct(keys);
      && |positions| == |d|
      && (forall k :: 0 <= k < |d| ==> positions[k] < |keys| && d[k] == keys[positions[k]] && d[k] !in keys[..positions[k]])
      && (forall k, l :: 0 <= k < l < |positions| ==> positions[k] < positions[l])
  {
    if keys == [] {
      positions := [];
    } else {
      var n := |keys| - 1;
      var init := keys[..n];
      var before := DistinctKeepsFirstOccurrences(init);
      var d := Distinct(init);
      assert keys == init + [keys[n]];
      forall k | 0 <= k < |d| ensures keys[..before[k]] == init[..before[k]] && init[before[k]] == keys[before[k]] {
      }
      if keys[n] in d {
        positions := before;
      } else {
        positions := before + [n];
        assert keys[..n] == init;
      }
    }
  }

  /**
   * The JSON text `removeSignals` sends as its signals: `JSON.stringify`
   * lists the patch object's keys in property order.
   */
  function RemovalPatch(signalKeys: SignalKeys): string
  {
    JsonText.Stringify(JsonText.NullPatch(OwnKeys(Distinct(KeyList(signalKeys)))))
  }

  /** `removeSignals(signalKeys, options)`: a patch object with each key set to `null`. */
  method RemoveSignals(signalKeys: SignalKeys, options: Options) returns (r: Result<seq<string>, string>)
    ensures r == PatchSignalsLines(RemovalPatch(signalKeys), options)
  {
    var keys := match signalKeys case OneKey(key) => [key] case KeyArray(keys) => keys;
    var patch: JsonText.Members := [];
    var i := 0;
    while i < |keys|
      invariant 0 <= i <= |keys|
      invariant patch == JsonText.NullPatch(Distinct(keys[..i]))
    {
      NullPatchStep(keys, i);
      patch := JsonText.SetMember(patch, keys[i], JsonText.JNull);
      i := i + 1;
    }
    assert keys[..i] == keys;
    assert Keys(patch) == Distinct(keys);
    // Every member is null, so listing the keys in property order lists the members.
    r := PatchSignalsLines(JsonText.Stringify(JsonText.NullPatch(OwnKeys(Keys(patch)))), options);
  }

  /** Setting the next key to `null` extends the patch of the keys before it. */
  lemma NullPatchStep(keys: seq<string>, i: nat)
    requires i < |keys|
    ensures JsonText.DistinctKeys(JsonText.NullPatch(Distinct(keys[..i])))
    ensures JsonText.SetMember(JsonText.NullPatch(Distinct(keys[..i])), keys[i], JsonText.JNull)
         == JsonText.NullPatch(Distinct(keys[..i + 1]))
  {
    var next := keys[..i + 1];
    assert next[..|next| - 1] == keys[..i] && next[|next| - 1] == keys[i];
    var d := Distinct(keys[..i]);
    var p := JsonText.NullPatch(d);
    assert Keys(p) == d;
    var r := JsonText.SetMember(p, keys[i], JsonText.JNull);
    if keys[i] in d {
      assert Distinct(next) == d;
      assert r == p;
    } else {
      assert Distinct(next) == d + [keys[i]];
      assert JsonText.NullPatch(d + [keys[i]]) == p + [(keys[i], JsonText.JNull)];
    }
  }

  /**
   * The signals `removeSignals` sends are never blank, so it throws only on
   * an option it cannot print; read back, they name each key once, in
   * property order; and a client applying them as a merge patch removes
   * exactly those signals and keeps every other one.
   */
  lemma RemovalPatchMeaning(signalKeys: SignalKeys, options: Options, signals: map<string, JsonText.Json>)
    ensures !IsBlank(RemovalPatch(signalKeys))
    ensures PatchSignalsLines(RemovalPatch(signalKeys), options).Failure?
        <==> EachOptionIsADataLine(RenderOptions(options)).Failure?
    ensures JsonText.ReadNullObject(RemovalPatch(signalKeys)) == Some(OwnKeys(Distinct(KeyList(signalKeys))))
    ensures var read := OwnKeys(Distinct(KeyList(signalKeys)));
      (forall k :: k in read <==> k in KeyList(signalKeys)) && Unique(read)
    ensures JsonText.MergePatch(signals, JsonText.NullPatch(OwnKeys(Distinct(KeyList(signalKeys)))))
         == signals - set k | k in KeyList(signalKeys)
  {
    var keys := KeyList(signalKeys);
    var read := OwnKeys(Distinct(keys));
    var text := JsonText.Stringify(JsonText.NullPatch(read));
    assert RemovalPatch(signalKeys) == text;
    assert !IsJsWhitespace(text[0]);
    JsonText.NullObjectRoundTrip(read);
    OwnKeysOfDistinct(keys);
    RemovalRemovesKeys(keys, signals);
  }

  /** The merge patch of the keys in property order removes exactly the keys. */
  lemma RemovalRemovesKeys(keys: seq<string>, signals: map<string, JsonText.Json>)
    ensures JsonText.MergePatch(signals, JsonText.NullPatch(OwnKeys(Distinct(keys)))) == signals - set k | k in keys
  {
    var read := OwnKeys(Distinct(keys));
    JsonText.NullPatchRemoves(signals, read);
    OwnKeysOfDistinct(keys);
    assert (set k | k in read) == set k | k in keys;
  }

  /** Put in property order, the distinct keys are still each key once. */
  lemma OwnKeysOfDistinct(keys: seq<string>)
    ensures var read := OwnKeys(Distinct(keys));
      (forall k :: k in read <==> k in keys) && Unique(read)
  {
    var distinct := Distinct(keys);
    var read := OwnKeys(distinct);
    forall k ensures k in read <==> k in distinct {
      assert k in read <==> k in multiset(read);
      assert k in distinct <==> k in multiset(distinct);
    }
    PermutationUnique(distinct, read);
  }

  /** `removeSignals(["b", "1"])` sends `{"1":null,"b":null}`: the integer-like key comes first. */
  lemma RemovalPatchIndexFirst()
    ensures OwnKeys(Distinct(["b", "1"])) == ["1", "b"]
  {
    var keys := ["b", "1"];
    DistinctOfTwo("b", "1");
    assert keys[..1] == ["b"];
    IndexKeyKinds();
    assert IndexKeys(["b"]) == [] && OtherKeys(["b"]) == ["b"];
    assert IndexKeys(keys) == ["1"] && OtherKeys(keys) == ["b"];
  }

  lemma DistinctOfTwo(a: string, b: string)
    requires a != b
    ensures Distinct([a, b]) == [a, b]
  {
    assert [a][..0] == [];
    assert Distinct([a]) == [a];
    assert [a, b][..1] == [a];
    assert b !in [a];
  }

  lemma IndexKeyKinds()
    ensures IsArrayIndex("1") && !IsArrayIndex("b")
  {
    assert ParseDecimal("1") == 1 by {
      assert "1"[..0] == [];
    }
  }
}
