/** The generic stage entry point (entrypoint.py): it loads the metadata
    file, asks the stage for its parameters, lets the stage's check decide
    whether to continue, runs the stage's processing, shapes every failure
    into an `{error, code}` result and hands the result to its sinks.

    The stage is seen through its hooks: each may be missing (`hasattr` is
    false) or present, and a present hook is a function from what it is
    called with to what it returns or raises. */
module Entrypoint {
  import opened PyValues
  import opened Text
  import opened Paths
  import opened FileSystems

  /** A lifecycle hook of the stage. */
  datatype Hook<!A> = Absent | Present(call: A -> Outcome<Value>)

  // ---------------------------------------------------------------------
  // Rendering values as text

  /** `repr(v)`.  Strings are quoted with single quotes and not escaped;
      a mapping is not rendered key by key (see README). */
  function Repr(v: Value): string
    decreases v
  {
    match v
    case VNone => "None"
    case VBool(b) => if b then "True" else "False"
    case VInt(i) => IntToDecimal(i)
    case VStr(s) => "'" + s + "'"
    case VList(items) => "[" + ReprItems(items) + "]"
    case VDict(_) => "{...}"
  }

  /** The items of a list, each rendered by `repr`, separated by `, `. */
  function ReprItems(items: seq<Value>): string
    decreases items
  {
    if items == [] then ""
    else if |items| == 1 then Repr(items[0])
    else Repr(items[0]) + ", " + ReprItems(items[1..])
  }

  /** `str(v)`: a string is itself, anything else its `repr`. */
  function Str(v: Value): string
  {
    if v.VStr? then v.s else Repr(v)
  }

  // ---------------------------------------------------------------------
  // handle_error

  /** The message used when an error has none. */
  function DefaultErrorMessage(code: int): string
  {
    "An error has occurred with error code (" + IntToDecimal(code) + ")"
  }

  /** `handle_error(code, message)`: a result holding exactly the error and
      the code; a missing code becomes -1 and a false message (empty,
      missing) becomes the default message naming the code. */
  function HandleError(code: Option<int>, message: Value): (r: Value)
    ensures r.VDict? && r.entries.Keys == {"error", "code"}
    ensures code.None? ==> r.entries["code"] == VInt(-1)
    ensures code.Some? ==> r.entries["code"] == VInt(code.value)
    ensures Truthy(message) ==> r.entries["error"] == message
    ensures !Truthy(message) ==> r.entries["error"] == VStr(DefaultErrorMessage(r.entries["code"].i))
  {
    var c := if code.None? then -1 else code.value;
    var m := if !Truthy(message) then VStr(DefaultErrorMessage(c)) else message;
    VDict(map["error" := m, "code" := VInt(c)])
  }

  /** Default messages name their code: two different codes never share
      one, so the code can be told from the message alone. */
  lemma DefaultMessagesDistinct(a: int, b: int)
    requires a != b
    ensures DefaultErrorMessage(a) != DefaultErrorMessage(b)
  {
    var pre := "An error has occurred with error code (";
    if DefaultErrorMessage(a) == DefaultErrorMessage(b) {
      var sa := IntToDecimal(a);
      var sb := IntToDecimal(b);
      assert |sa| == |sb|;
      assert forall i :: 0 <= i < |sa| ==> sa[i] == DefaultErrorMessage(a)[|pre| + i];
      assert forall i :: 0 <= i < |sb| ==> sb[i] == DefaultErrorMessage(b)[|pre| + i];
      assert sa == sb;
      IntToDecimalInjective(a, b);
    }
  }

  // ---------------------------------------------------------------------
  // load_metadata

  /** `load_metadata(path)`: `{'metadata': v}` for a value other than JSON
      null, the invalid-JSON error for null, and the load error when
      reading or decoding raises.  `read` stands for opening the file and
      decoding it as JSON. */
  function LoadMetadata(path: string, read: string -> Outcome<Value>): (r: Value)
    ensures r.VDict? && |r.entries.Keys| == 1
    ensures "metadata" in r.entries <==> read(path).Done? && read(path).value != VNone
    ensures "metadata" in r.entries ==> r.entries["metadata"] == read(path).value
    ensures read(path) == Done(VNone) ==>
      r.entries == map["error" := VStr("Invalid JSON specified in metadata file \"" + path + "\"")]
    ensures read(path).Raised? ==>
      r.entries == map["error" := VStr("Unable to load metadata file \"" + path + "\"")]
  {
    match read(path)
    case Raised(_) => VDict(map["error" := VStr("Unable to load metadata file \"" + path + "\"")])
    case Done(v) =>
      if v != VNone then VDict(map["metadata" := v])
      else VDict(map["error" := VStr("Invalid JSON specified in metadata file \"" + path + "\"")])
  }

  // ---------------------------------------------------------------------
  // parse_continue_result and handle_check_continue

  /** The code and message read from what a check returned; `VNone` for
      either that is absent. */
  datatype ContinueResult = ContinueResult(code: Value, message: Value)

  /** `parse_continue_result(result)`: an integer (a boolean is one) is a
      code alone; a string is neither; a sequence gives its first item as
      the code and its second as the message, as far as it has them.
      Anything else raises: `len` of None, or `[0]` on a non-empty
      mapping. */
  function ParseContinueResult(result: Value): (r: Outcome<ContinueResult>)
    ensures result.VInt? || result.VBool? ==> r == Done(ContinueResult(result, VNone))
    ensures result.VStr? ==> r == Done(ContinueResult(VNone, VNone))
    ensures result.VList? ==> r.Done?
    ensures result.VList? && |result.items| > 0 ==> r.value.code == result.items[0]
    ensures result.VList? && |result.items| > 1 ==> r.value.message == result.items[1]
    ensures result.VList? && |result.items| <= 1 ==> r.value.message == VNone
    ensures result.VList? && result.items == [] ==> r.value.code == VNone
    ensures result.VNone? ==> r == Raised(TypeError)
    ensures result.VDict? ==> r == if result.entries == map[] then Done(ContinueResult(VNone, VNone)) else Raised(KeyError)
  {
    match result
    case VInt(_) => Done(ContinueResult(result, VNone))
    case VBool(_) => Done(ContinueResult(result, VNone))
    case VStr(_) => Done(ContinueResult(VNone, VNone))
    case VList(items) =>
      Done(ContinueResult(if |items| > 0 then items[0] else VNone, if |items| > 1 then items[1] else VNone))
    case VDict(m) => if m == map[] then Done(ContinueResult(VNone, VNone)) else Raised(KeyError)
    case VNone => Raised(TypeError)
  }

  /** The pair a check returns is read back as itself. */
  lemma ParsePairRoundTrip(code: Value, message: Value)
    ensures ParseContinueResult(VList([code, message])) == Done(ContinueResult(code, message))
  {
  }

  /** What `handle_check_continue` records: the code and the message, each
      only when it is true. */
  function Recorded(c: ContinueResult): (r: map<string, Value>)
    ensures "code" in r <==> Truthy(c.code)
    ensures "message" in r <==> Truthy(c.message)
    ensures r.Keys <= {"code", "message"}
    ensures forall k :: k in r ==> r[k] == (if k == "code" then c.code else c.message)
  {
    var withCode: map<string, Value> := if Truthy(c.code) then map["code" := c.code] else map[];
    if Truthy(c.message) then withCode["message" := c.message] else withCode
  }

  /** The outcome of `handle_check_continue`: `{}` when the stage has no
      check, otherwise what the check's answer records, or what calling
      it or reading its answer raises. */
  function CheckContinueResult(check: Hook<map<string, Value>>, params: map<string, Value>): Outcome<map<string, Value>>
  {
    if check.Absent? then Done(map[])
    else
      var answer := check.call(params);
      if answer.Raised? then Raised(answer.exc)
      else
        var parsed := ParseContinueResult(answer.value);
        if parsed.Raised? then Raised(parsed.exc) else Done(Recorded(parsed.value))
  }

  /** `handle_check_continue(instance, params)`, building the result one
      key at a time. */
  method HandleCheckContinue(check: Hook<map<string, Value>>, params: map<string, Value>)
    returns (r: Outcome<map<string, Value>>)
    ensures r == CheckContinueResult(check, params)
  {
    var result: map<string, Value> := map[];
    if check.Present? {
      var answer := check.call(params);
      if answer.Raised? {
        return Raised(answer.exc);
      }
      var parsed := ParseContinueResult(answer.value);
      if parsed.Raised? {
        return Raised(parsed.exc);
      }
      if Truthy(parsed.value.code) {
        result := result["code" := parsed.value.code];
      }
      if Truthy(parsed.value.message) {
        result := result["message" := parsed.value.message];
      }
    }
    return Done(result);
  }

  /** A check answering 0, a string, or an empty sequence records nothing:
      the result is `{}`, exactly as when there is no check. */
  lemma FalseAnswerRecordsNothing(check: Hook<map<string, Value>>, params: map<string, Value>)
    requires check.Present?
    requires check.call(params) in {Done(VInt(0)), Done(VBool(false))}
          || (check.call(params).Done? && check.call(params).value.VStr?)
          || check.call(params) == Done(VList([]))
    ensures CheckContinueResult(check, params) == Done(map[])
  {
  }

  /** A `(code, message)` answer records the code exactly when it is not 0
      and the message exactly when it is not empty. */
  lemma PairAnswerRecords(check: Hook<map<string, Value>>, params: map<string, Value>, code: int, message: string)
    requires check.Present? && check.call(params) == Done(VList([VInt(code), VStr(message)]))
    ensures CheckContinueResult(check, params).Done?
    ensures var r := CheckContinueResult(check, params).value;
      && ("code" in r <==> code != 0) && ("code" in r ==> r["code"] == VInt(code))
      && ("message" in r <==> message != "") && ("message" in r ==> r["message"] == VStr(message))
  {
    ParsePairRoundTrip(VInt(code), VStr(message));
  }

  // ---------------------------------------------------------------------
  // perform_processing

  const InvalidParamsMessage: string :=
    "Invalid return from getting transformer parameters from transformer class instance"
  const UnknownCheckError: string := "Unknown error returned from check_continue call"
  const NoProcessMessage: string :=
    "Transformer perform_process interface is not available for processing data"

  /** The error text when the parameters carry a code but no error. */
  function ParamsCodeMessage(code: Value): string
  {
    "Error returned from get_transformer_params with code: " + Str(code)
  }

  /** What asking for the parameters leads to: parameters to go on with,
      or the -101 result that ends processing. */
  datatype ParamsStep = UseParams(params: map<string, Value>) | Refuse(result: Value)

  /** The parameter step of `perform_processing`: `{}` when the instance
      has no `get_transformer_params`; a returned mapping without `code` is
      used; anything that is not a mapping, or a mapping with `code`, is
      refused with -101 (its `error`, if it has one, is the message). */
  function GetParams(getParams: Hook<Value>, metadata: Value): (r: Outcome<ParamsStep>)
    ensures getParams.Absent? ==> r == Done(UseParams(map[]))
    ensures r.Done? && r.value.Refuse? ==>
      r.value.result.VDict? && "code" in r.value.result.entries && r.value.result.entries["code"] == VInt(-101)
    ensures r.Done? && r.value.UseParams? && getParams.Present? ==>
      getParams.call(metadata) == Done(VDict(r.value.params)) && "code" !in r.value.params
  {
    if getParams.Absent? then Done(UseParams(map[]))
    else
      var returned := getParams.call(metadata);
      if returned.Raised? then Raised(returned.exc)
      else if !returned.value.VDict? then Done(Refuse(HandleError(Some(-101), VStr(InvalidParamsMessage))))
      else
        var params := returned.value.entries;
        if "code" in params then
          var error := if "error" in params then params["error"] else VStr(ParamsCodeMessage(params["code"]));
          Done(Refuse(HandleError(Some(-101), error)))
        else Done(UseParams(params))
  }

  /** `result['code'] < 0` for whatever the check recorded as the code:
      integers and booleans compare, anything else raises. */
  function IsNegative(v: Value): (r: Outcome<bool>)
    ensures v.VInt? ==> r == Done(v.i < 0)
    ensures v.VBool? ==> r == Done(false)
    ensures !(v.VInt? || v.VBool?) ==> r == Raised(TypeError)
  {
    match v
    case VInt(i) => Done(i < 0)
    case VBool(_) => Done(false)
    case _ => Raised(TypeError)
  }

  /** The check step of `perform_processing`: the recorded check result,
      with the generic error added when the code is negative and no error
      is there. */
  function CheckStep(check: Hook<map<string, Value>>, params: map<string, Value>): Outcome<map<string, Value>>
  {
    if check.Absent? then Done(map[])
    else
      var checked := CheckContinueResult(check, params);
      if checked.Raised? then checked
      else
        var result := checked.value;
        if "code" !in result then Done(result)
        else
          var negative := IsNegative(result["code"]);
          if negative.Raised? then Raised(negative.exc)
          else if negative.value && "error" !in result then Done(result["error" := VStr(UnknownCheckError)])
          else Done(result)
  }

  /** The outcome of `perform_processing(instance, args, metadata)`. */
  function Processing(getParams: Hook<Value>, check: Hook<map<string, Value>>,
                      process: Hook<map<string, Value>>, metadata: Value): Outcome<Value>
  {
    var step := GetParams(getParams, metadata);
    if step.Raised? then Raised(step.exc)
    else if step.value.Refuse? then Done(step.value.result)
    else
      var params := step.value.params;
      var checked := CheckStep(check, params);
      if checked.Raised? then Raised(checked.exc)
      else if "error" in checked.value then Done(VDict(checked.value))
      else if process.Present? then process.call(params)
      else Done(HandleError(Some(-102), VStr(NoProcessMessage)))
  }

  /** `perform_processing`, building the result one key at a time. */
  method PerformProcessing(getParams: Hook<Value>, check: Hook<map<string, Value>>,
                           process: Hook<map<string, Value>>, metadata: Value) returns (r: Outcome<Value>)
    ensures r == Processing(getParams, check, process, metadata)
  {
    var params: map<string, Value> := map[];
    if getParams.Present? {
      var returned := getParams.call(metadata);
      if returned.Raised? {
        return Raised(returned.exc);
      }
      if !returned.value.VDict? {
        return Done(HandleError(Some(-101), VStr(InvalidParamsMessage)));
      }
      params := returned.value.entries;
      if "code" in params {
        var error := if "error" in params then params["error"] else VStr(ParamsCodeMessage(params["code"]));
        return Done(HandleError(Some(-101), error));
      }
    }
    var result: map<string, Value> := map[];
    if check.Present? {
      var checked := HandleCheckContinue(check, params);
      if checked.Raised? {
        return Raised(checked.exc);
      }
      result := checked.value;
      if "code" in result {
        var negative := IsNegative(result["code"]);
        if negative.Raised? {
          return Raised(negative.exc);
        }
        if negative.value && "error" !in result {
          result := result["error" := VStr(UnknownCheckError)];
        }
      }
    }
    if "error" !in result {
      if process.Present? {
        r := process.call(params);
        return;
      }
      return Done(HandleError(Some(-102), VStr(NoProcessMessage)));
    }
    return Done(VDict(result));
  }

  /** Parameters that are not a mapping, or that carry a code, end
      processing with -101 before the check or the processing is called:
      the result does not depend on either.  The message is the
      parameters' error when they have a true one, else a default. */
  lemma RefusedParamsStop(getParams: Hook<Value>, metadata: Value,
                          check1: Hook<map<string, Value>>, process1: Hook<map<string, Value>>,
                          check2: Hook<map<string, Value>>, process2: Hook<map<string, Value>>)
    requires getParams.Present? && getParams.call(metadata).Done?
    requires var v := getParams.call(metadata).value; !v.VDict? || "code" in v.entries
    ensures Processing(getParams, check1, process1, metadata) == Processing(getParams, check2, process2, metadata)
    ensures var r := Processing(getParams, check1, process1, metadata);
      && r.Done? && r.value.VDict? && r.value.entries.Keys == {"error", "code"}
      && r.value.entries["code"] == VInt(-101)
    ensures var v := getParams.call(metadata).value;
      var r := Processing(getParams, check1, process1, metadata).value;
      && (!v.VDict? ==> r.entries["error"] == VStr(InvalidParamsMessage))
      && (v.VDict? && "error" in v.entries && Truthy(v.entries["error"]) ==> r.entries["error"] == v.entries["error"])
      && (v.VDict? && "error" !in v.entries ==>
            r.entries["error"] == VStr(ParamsCodeMessage(v.entries["code"])))
  {
  }

  /** A check that answers a negative code always yields a result with an
      error, and processing is not called: the result does not depend on
      the processing hook. */
  lemma NegativeCheckStops(getParams: Hook<Value>, check: Hook<map<string, Value>>, metadata: Value,
                           process1: Hook<map<string, Value>>, process2: Hook<map<string, Value>>)
    requires GetParams(getParams, metadata).Done? && GetParams(getParams, metadata).value.UseParams?
    requires var checked := CheckContinueResult(check, GetParams(getParams, metadata).value.params);
      check.Present? && checked.Done? && "code" in checked.value
      && checked.value["code"].VInt? && checked.value["code"].i < 0
    ensures Processing(getParams, check, process1, metadata) == Processing(getParams, check, process2, metadata)
    ensures var r := Processing(getParams, check, process1, metadata);
      var checked := CheckContinueResult(check, GetParams(getParams, metadata).value.params).value;
      && r.Done? && r.value.VDict?
      && "error" in r.value.entries && r.value.entries["code"] == checked["code"]
      && r.value.entries == checked["error" := VStr(UnknownCheckError)]
  {
  }

  /** A stage that turns the request down with a negative code and a
      message gets back that code and message, with the generic error. */
  lemma StageRefusal(getParams: Hook<Value>, check: Hook<map<string, Value>>, process: Hook<map<string, Value>>,
                     metadata: Value, params: map<string, Value>, code: int, message: string)
    requires GetParams(getParams, metadata) == Done(UseParams(params))
    requires check.Present? && check.call(params) == Done(VList([VInt(code), VStr(message)]))
    requires code < 0 && message != ""
    ensures Processing(getParams, check, process, metadata)
         == Done(VDict(map["code" := VInt(code), "message" := VStr(message), "error" := VStr(UnknownCheckError)]))
  {
    PairAnswerRecords(check, params, code, message);
  }

  /** When nothing stops processing, the result is what processing
      returns, called with the stage's parameters; without a processing
      hook it is the -102 error. */
  lemma ProcessingRuns(getParams: Hook<Value>, check: Hook<map<string, Value>>, process: Hook<map<string, Value>>,
                       metadata: Value, params: map<string, Value>)
    requires GetParams(getParams, metadata) == Done(UseParams(params))
    requires CheckStep(check, params).Done? && "error" !in CheckStep(check, params).value
    ensures process.Present? ==> Processing(getParams, check, process, metadata) == process.call(params)
    ensures process.Absent? ==>
      Processing(getParams, check, process, metadata) == Done(VDict(map["error" := VStr(NoProcessMessage), "code" := VInt(-102)]))
  {
  }

  /** A check answering 0 lets processing go ahead. */
  lemma ZeroCheckProceeds(getParams: Hook<Value>, check: Hook<map<string, Value>>, process: Hook<map<string, Value>>,
                          metadata: Value, params: map<string, Value>)
    requires GetParams(getParams, metadata) == Done(UseParams(params))
    requires check.Present? && check.call(params) == Done(VInt(0))
    ensures process.Present? ==> Processing(getParams, check, process, metadata) == process.call(params)
  {
    FalseAnswerRecordsNothing(check, params);
  }

  // ---------------------------------------------------------------------
  // handle_result

  /** What `handle_result` does outside the program. */
  datatype Effect =
    | Print(result: Value)
    | MakeDirs(path: string)
    | WriteFile(path: string, result: Value)

  /** The requested result types: the comma-separated parts, each with its
      surrounding white space removed. */
  function TypeParts(resultTypes: string): (parts: seq<string>)
    ensures |parts| == |Split(resultTypes, ',')|
    ensures forall i :: 0 <= i < |parts| ==> parts[i] == Strip(Split(resultTypes, ',')[i])
  {
    var pieces := Split(resultTypes, ',');
    seq(|pieces|, i requires 0 <= i < |pieces| => Strip(pieces[i]))
  }

  /** No requested part holds a comma, and none starts or ends with white
      space. */
  lemma TypePartsClean(resultTypes: string)
    ensures forall i :: 0 <= i < |TypeParts(resultTypes)| ==> ',' !in TypeParts(resultTypes)[i]
    ensures forall i :: 0 <= i < |TypeParts(resultTypes)| && TypeParts(resultTypes)[i] != [] ==>
      !IsSpace(TypeParts(resultTypes)[i][0]) && !IsSpace(TypeParts(resultTypes)[i][|TypeParts(resultTypes)[i]| - 1])
  {
    var pieces := Split(resultTypes, ',');
    forall i | 0 <= i < |pieces|
      ensures ',' !in Strip(pieces[i])
    {
      StripAddsNothing(pieces[i], ',');
    }
  }

  /** Writing the result to `path`: its folder is made first when it does
      not exist. */
  function WriteEffects(path: string, result: Value, t: Tree): (es: seq<Effect>)
    ensures |es| >= 1 && es[|es| - 1] == WriteFile(path, result)
    ensures forall i :: 0 <= i < |es| - 1 ==> es[i].MakeDirs?
    ensures |es| <= 2
    ensures |es| == 2 <==> !Exists(t, Dirname(path))
    ensures |es| == 2 ==> es[0] == MakeDirs(Dirname(path))
  {
    var dir := Dirname(path);
    (if !Exists(t, dir) then [MakeDirs(dir)] else []) + [WriteFile(path, result)]
  }

  /** The effects `handle_result` has for the requested parts: a print
      when `print` or `all` is among them; when `file` or `all` is and a
      path is given, the result is written there. */
  function SinkEffects(parts: seq<string>, resultFilePath: Option<string>, result: Value, t: Tree): seq<Effect>
  {
    var printed := if "print" in parts || "all" in parts then [Print(result)] else [];
    var filed :=
      if ("file" in parts || "all" in parts) && resultFilePath.Some? && resultFilePath.value != "" then
        WriteEffects(resultFilePath.value, result, t)
      else [];
    printed + filed
  }

  /** The effects `handle_result` has: none without result types, else
      those its comma-separated parts ask for. */
  function ResultEffects(resultTypes: Option<string>, resultFilePath: Option<string>, result: Value, t: Tree): (es: seq<Effect>)
    ensures resultTypes.None? ==> es == []
  {
    if resultTypes.None? then [] else SinkEffects(TypeParts(resultTypes.value), resultFilePath, result, t)
  }

  /** The result is printed exactly when `print` or `all` is among the
      parts, and written exactly when `file` or `all` is and the path is
      not empty; nothing else is printed or written. */
  lemma ResultSinks(parts: seq<string>, resultFilePath: Option<string>, result: Value, t: Tree, p: string, v: Value)
    ensures var es := SinkEffects(parts, resultFilePath, result, t);
      && (Print(v) in es <==> v == result && ("print" in parts || "all" in parts))
      && (WriteFile(p, v) in es <==>
            v == result && ("file" in parts || "all" in parts) && resultFilePath == Some(p) && p != "")
  {
    var es := SinkEffects(parts, resultFilePath, result, t);
    var printed := if "print" in parts || "all" in parts then [Print(result)] else [];
    if ("file" in parts || "all" in parts) && resultFilePath.Some? && resultFilePath.value != "" {
      var w := WriteEffects(resultFilePath.value, result, t);
      assert es == printed + w;
      assert forall i :: 0 <= i < |w| ==> (w[i] == WriteFile(p, v) <==> i == |w| - 1 && p == resultFilePath.value && v == result);
      assert forall i :: 0 <= i < |w| ==> !w[i].Print?;
    } else {
      assert es == printed;
    }
  }

  /** Where results go. */
  class Sinks {
    var effects: seq<Effect>

    constructor ()
      ensures effects == []
    {
      effects := [];
    }

    /** Records one effect. */
    method Emit(e: Effect)
      modifies this
      ensures effects == old(effects) + [e]
    {
      effects := effects + [e];
    }
  }

  /** Writes the result to `path`, making its folder first if needed. */
  method WriteResult(sinks: Sinks, path: string, result: Value, t: Tree)
    modifies sinks
    ensures sinks.effects == old(sinks.effects) + WriteEffects(path, result, t)
  {
    var dir := Dirname(path);
    if !Exists(t, dir) {
      sinks.Emit(MakeDirs(dir));
    }
    sinks.Emit(WriteFile(path, result));
  }

  /** The effects of `handle_result` once the parts are known. */
  method EmitResult(sinks: Sinks, parts: seq<string>, resultFilePath: Option<string>, result: Value, t: Tree)
    modifies sinks
    ensures sinks.effects == old(sinks.effects) + SinkEffects(parts, resultFilePath, result, t)
  {
    if "print" in parts || "all" in parts {
      sinks.Emit(Print(result));
    }
    if "file" in parts || "all" in parts {
      if resultFilePath.Some? && resultFilePath.value != "" {
        WriteResult(sinks, resultFilePath.value, result, t);
      }
    }
  }

  /** `handle_result(result_types, result_file_path, result)`: has the
      effects asked for and returns the result unchanged. */
  method HandleResult(sinks: Sinks, resultTypes: Option<string>, resultFilePath: Option<string>,
                      result: Value, t: Tree) returns (r: Value)
    modifies sinks
    ensures r == result
    ensures sinks.effects == old(sinks.effects) + ResultEffects(resultTypes, resultFilePath, result, t)
  {
    if resultTypes.Some? {
      var parts := TypeParts(resultTypes.value);
      EmitResult(sinks, parts, resultFilePath, result, t);
    }
    return result;
  }

  // ---------------------------------------------------------------------
  // do_work

  /** The command-line arguments `do_work` reads. */
  datatype CliArgs = CliArgs(result: Option<string>, metadata: Option<string>, workingSpace: Option<string>)

  /** `<working_space>/result.json`, or nothing without a working space. */
  function ResultFilePath(workingSpace: Option<string>): (p: Option<string>)
    ensures p.Some? <==> workingSpace.Some? && workingSpace.value != ""
    ensures p.Some? ==> Basename(p.value) == "result.json"
    ensures p.Some? && workingSpace.value[|workingSpace.value| - 1] != '/' ==> Dirname(p.value) == workingSpace.value
  {
    if workingSpace.Some? && workingSpace.value != "" then
      JoinedName(workingSpace.value, "result.json");
      Some(Join(workingSpace.value, "result.json"))
    else None
  }

  /** The result `do_work` arrives at, or what it raises. */
  function Work(args: CliArgs, t: Tree, read: string -> Outcome<Value>, getParams: Hook<Value>,
                check: Hook<map<string, Value>>, process: Hook<map<string, Value>>): Outcome<Value>
  {
    if args.metadata.None? || args.metadata.value == "" then
      Done(HandleError(Some(-1), VStr("No metadata path was specified.")))
    else if !Exists(t, args.metadata.value) then
      Done(HandleError(Some(-2), VStr("Unable to access metadata file '" + args.metadata.value + "'")))
    else
      var mdResult := LoadMetadata(args.metadata.value, read);
      if "metadata" in mdResult.entries then Processing(getParams, check, process, mdResult.entries["metadata"])
      else Done(HandleError(Some(-3), mdResult.entries["error"]))
  }

  /** Whether `do_work` gets as far as calling `perform_processing`: a
      metadata path is given, exists, and loads to a non-null value. */
  predicate ReachesProcessing(args: CliArgs, t: Tree, read: string -> Outcome<Value>)
  {
    args.metadata.Some? && args.metadata.value != "" && Exists(t, args.metadata.value)
    && "metadata" in LoadMetadata(args.metadata.value, read).entries
  }

  /** `do_work`: after the command line is read, the result is worked out
      and handed to the sinks, then returned.  `t` is the file system when
      `do_work` starts and `after` the one the stage's hooks leave when
      `perform_processing` returns; the result folder is looked up in the
      latter whenever processing ran. */
  method DoWork(sinks: Sinks, args: CliArgs, t: Tree, after: Tree, read: string -> Outcome<Value>, getParams: Hook<Value>,
                check: Hook<map<string, Value>>, process: Hook<map<string, Value>>) returns (r: Outcome<Value>)
    modifies sinks
    ensures r == Work(args, t, read, getParams, check, process)
    ensures r.Raised? ==> sinks.effects == old(sinks.effects)
    ensures r.Done? && ReachesProcessing(args, t, read) ==>
      sinks.effects == old(sinks.effects) + ResultEffects(args.result, ResultFilePath(args.workingSpace), r.value, after)
    ensures r.Done? && !ReachesProcessing(args, t, read) ==>
      sinks.effects == old(sinks.effects) + ResultEffects(args.result, ResultFilePath(args.workingSpace), r.value, t)
  {
    var resultTree := t;
    var result: Value;
    if args.metadata.None? || args.metadata.value == "" {
      result := HandleError(Some(-1), VStr("No metadata path was specified."));
    } else if !Exists(t, args.metadata.value) {
      result := HandleError(Some(-2), VStr("Unable to access metadata file '" + args.metadata.value + "'"));
    } else {
      var mdResult := LoadMetadata(args.metadata.value, read);
      if "metadata" in mdResult.entries {
        var processed := PerformProcessing(getParams, check, process, mdResult.entries["metadata"]);
        if processed.Raised? {
          return processed;
        }
        result := processed.value;
        resultTree := after;
      } else {
        result := HandleError(Some(-3), mdResult.entries["error"]);
      }
    }
    var resultPath := ResultFilePath(args.workingSpace);
    var handled := HandleResult(sinks, args.result, resultPath, result, resultTree);
    return Done(handled);
  }

  /** The metadata checks come first: no path gives -1, a path that does
      not exist -2, and a file that cannot be read or holds JSON null -3
      with the load error; none of them consults the stage. */
  lemma MetadataErrors(args: CliArgs, t: Tree, read: string -> Outcome<Value>, getParams: Hook<Value>,
                       check: Hook<map<string, Value>>, process: Hook<map<string, Value>>)
    ensures args.metadata.None? || args.metadata == Some("") ==>
      Work(args, t, read, getParams, check, process) == Done(HandleError(Some(-1), VStr("No metadata path was specified.")))
    ensures args.metadata.Some? && args.metadata.value != "" && !Exists(t, args.metadata.value) ==>
      (var w := Work(args, t, read, getParams, check, process);
       w.Done? && w.value.entries["code"] == VInt(-2))
    ensures args.metadata.Some? && args.metadata.value != "" && Exists(t, args.metadata.value)
            && (read(args.metadata.value).Raised? || read(args.metadata.value) == Done(VNone)) ==>
      (var w := Work(args, t, read, getParams, check, process);
       w.Done? && w.value.entries["code"] == VInt(-3)
       && w.value.entries["error"] == LoadMetadata(args.metadata.value, read).entries["error"])
  {
    if args.metadata.Some? && args.metadata.value != "" && Exists(t, args.metadata.value)
       && (read(args.metadata.value).Raised? || read(args.metadata.value) == Done(VNone)) {
      var md := LoadMetadata(args.metadata.value, read);
      assert "error" in md.entries && Truthy(md.entries["error"]);
    }
  }

  /** A readable, non-null metadata file is handed to the stage as it was
      decoded. */
  lemma MetadataHandedOn(args: CliArgs, t: Tree, read: string -> Outcome<Value>, getParams: Hook<Value>,
                         check: Hook<map<string, Value>>, process: Hook<map<string, Value>>, md: Value)
    requires args.metadata.Some? && args.metadata.value != "" && Exists(t, args.metadata.value)
    requires read(args.metadata.value) == Done(md) && md != VNone
    ensures Work(args, t, read, getParams, check, process) == Processing(getParams, check, process, md)
  {
  }
}
