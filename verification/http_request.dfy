/** The request for one set of parameters: the query and the values of its parameters. */
module HttpRequest {
  import opened Text
  import opened Lexing
  import opened EscapeTranslation
  import opened EscapeReplacement
  import opened QueryParameters
  import opened ParameterTypes
  import opened QueryTranslation
  import opened RequestQuery

  /** ParamBindingInfo: the types, the direction, and the value for this set as text, None for NULL. */
  datatype Binding = Binding(bound: Bound, input: bool, stream: bool, value: Option<string>)
  {
    predicate Supported() { input && !stream }

    /** A parameter that is NULL is nullable. */
    function Typed(): Bound { bound.(nullable := bound.nullable || value.None?) }
  }

  datatype Request = Request(outcome: Outcome, params: map<string, string>)

  function Bounds(bindings: seq<Binding>): seq<Bound> {
    seq(|bindings|, k requires 0 <= k < |bindings| => bindings[k].Typed())
  }

  /** The value for the marker at `k`; one without a binding is NULL. */
  function ValueAt(bindings: seq<Binding>, k: nat): Option<string> { if k < |bindings| then bindings[k].value
      else None }

  function ValueText(value: Option<string>): string {
    if value.None? then NULL_VALUE else EscapedParameter(value.value)
  }

  /** What the server makes of the text of a value. */
  function Received(text: string): Option<string> { if text == NULL_VALUE then None else Some(Unescaped(text)) }

  predicate AllSupported(bindings: seq<Binding>, n: nat) {
    forall k :: 0 <= k < n && k < |bindings| ==> bindings[k].Supported()
  }

  predicate AreDistinct(names: seq<string>) { forall i, j :: 0 <= i < j < |names| ==> names[i] != names[j] }

  /** The value of a name is that of the first parameter that has it, and there are no other names. */
  ghost predicate FirstValues(params: map<string, string>, names: seq<string>, bindings: seq<Binding>) {
    && (forall key :: key in params ==> exists k :: 0 <= k < |names| && key == "param_" + names[k])
    && forall k :: 0 <= k < |names| && (forall i :: 0 <= i < k ==> names[i] != names[k]) ==>
         && "param_" + names[k] in params
         && Received(params["param_" + names[k]]) == ValueAt(bindings, k)
  }

  /** Every name has the value of its marker. */
  ghost predicate AllValues(params: map<string, string>, names: seq<string>, bindings: seq<Binding>) {
    forall k :: 0 <= k < |names| ==>
      "param_" + names[k] in params && Received(params["param_" + names[k]]) == ValueAt(bindings, k)
  }

  lemma NullText()
    ensures ValueText(None) == ['\\', 'N']
  {
  }

  lemma ValueReceived(value: Option<string>)
    ensures Received(ValueText(value)) == value
  {
    if value.Some? {
      NoValueIsNull(value.value);
      ParameterReadBack(value.value);
    }
  }

  lemma SameKey(a: string, b: string)
    requires "param_" + a == "param_" + b
    ensures a == b
  {
    assert ("param_" + a)[6..] == a && ("param_" + b)[6..] == b;
  }

  lemma FirstValuesNone(bindings: seq<Binding>)
    ensures FirstValues(map[], [], bindings)
  {
  }

  /** std::map::emplace does nothing for a key that is there. */
  lemma Emplaced(params: map<string, string>, names: seq<string>, bindings: seq<Binding>, name: string)
    requires FirstValues(params, names, bindings)
    ensures var key := "param_" + name;
            var value := ValueText(ValueAt(bindings, |names|));
            FirstValues(if key in params then params else params[key := value], names + [name], bindings)
  {
    hide Received, ValueText;
    var key, value, all := "param_" + name, ValueText(ValueAt(bindings, |names|)), names + [name];
    ValueReceived(ValueAt(bindings, |names|));
    if key in params {
      var k :| 0 <= k < |names| && key == "param_" + names[k];
      SameKey(name, names[k]);
      assert all[k] == all[|names|];
    }
    var after := if key in params then params else params[key := value];
    forall k | 0 <= k < |all| && (forall i :: 0 <= i < k ==> all[i] != all[k])
      ensures "param_" + all[k] in after && Received(after["param_" + all[k]]) == ValueAt(bindings, k)
    {
      if k < |names| {
        assert forall i :: 0 <= i < k ==> names[i] == all[i];
      }
    }
    forall other | other in after ensures exists k :: 0 <= k < |all| && other == "param_" + all[k] {
      if other == key {
        assert other == "param_" + all[|names|];
      } else {
        var k :| 0 <= k < |names| && other == "param_" + names[k];
        assert other == "param_" + all[k];
      }
    }
  }

  // -------- names

  /** The name that the application has set, or else the one behind the '@' of the marker. */
  lemma WrittenName(i: nat, given: Option<string>, name: string)
    requires name != "" && name[0] != '@'
    ensures FinalName(i, given, "@" + name) == if given.None? then name else FinalName(i, given, "")
    ensures FinalName(i, Some(name), "") == FinalName(i, Some("@" + name), "") == name
  {
    assert ("@" + name)[1..] == name;
  }

  /** Markers without names have different names, made from their positions. */
  lemma PositionalNamesDiffer(i: nat, j: nat)
    requires FinalName(i, None, "") == FinalName(j, None, "")
    ensures i == j
  {
    var a, b := "odbc_positional_" + Decimal(i + 1), "odbc_positional_" + Decimal(j + 1);
    assert a[16..] == Decimal(i + 1) && b[16..] == Decimal(j + 1);
  }

  lemma PositionalNamesDistinct(parameters: seq<Param>, given: seq<Option<string>>)
    requires |given| == |parameters|
    requires forall k :: 0 <= k < |parameters| ==> given[k].None? && parameters[k].name == ""
    ensures AreDistinct(FinalNames(parameters, given))
  {
    hide FinalName;
    var names := FinalNames(parameters, given);
    forall i, j | 0 <= i < j < |names| ensures names[i] != names[j] {
      if names[i] == names[j] {
        PositionalNamesDiffer(i, j);
      }
    }
  }

  /** A name of the application that is also the one of a position: two markers have one value. */
  lemma NamesCollide()
    ensures FinalName(0, None, "@odbc_positional_2") == FinalName(1, None, "")
  {
    assert Decimal(2) == "2";
    assert "@odbc_positional_2"[1..] == "odbc_positional_2";
    assert "odbc_positional_" + "2" == "odbc_positional_2";
  }

  // -------- the request

  /** prepareHttpRequest. The values are those of the markers: for different names, the server receives for the name in
      the k-th {name:type} the value that is bound to the k-th marker,
          and NULL for one that is NULL or not bound. Of two
      parameters with one name the first one gives the value. A direction that is not supported makes it fail. */
  method PrepareHttpRequest(statement: Statement, bindings: seq<Binding>, given: seq<Option<string>>, noscan: bool,
      ghost q0: string, ghost split: Split)
    returns (r: Request)
    requires ExtractedAs(q0, split, statement.query, statement.parameters) && |given| == |statement.parameters|
    ensures var n := |statement.parameters|; var names := FinalNames(statement.parameters, given);
            if !AllSupported(bindings, n) || !AllTyped(Bounds(bindings), n) then r.outcome == Failed
            else
              && FirstValues(r.params, names, bindings)
              && (AreDistinct(names) ==> AllValues(r.params, names, bindings))
              && (WithoutAtSign(names) ==>
                    var q := Built(split, names, ParameterTypeNames(Bounds(bindings), n));
                    r.outcome == if noscan then Done(q) else Replaced(q, CutOf(q)))
  {
    hide FinalName, FirstValues, AllValues, AreDistinct, Replaced, CutOf, Built, ParameterType, Received, Weave, Scan,
         ValueText, FineQuery, Written, Answer, GivenIdentifiers, Plain, ExtractedAs, WithoutAtSign, Bounds;
    var params: map<string, string> := map[];
    ghost var names := FinalNames(statement.parameters, given);
    FirstValuesNone(bindings);
    for i := 0 to |statement.parameters|
      invariant AllSupported(bindings, i) && FirstValues(params, names[..i], bindings)
    {
      if i < |bindings| && !bindings[i].Supported() {
        return Request(Failed, map[]);
      }
      var name := FinalName(i, given[i], statement.parameters[i].name);
      Emplaced(params, names[..i], bindings, name);
      assert names[..i + 1] == names[..i] + [name];
      var key := "param_" + name;
      if key !in params {
        params := params[key := ValueText(ValueAt(bindings, i))];
      }
    }
    assert names[..|names|] == names;
    if AreDistinct(names) {
      DistinctValues(params, names, bindings);
    }
    var outcome := FinalQuery(statement, Bounds(bindings), given, noscan, q0, split);
    return Request(outcome, params);
  }

  lemma DistinctValues(params: map<string, string>, names: seq<string>, bindings: seq<Binding>)
    requires FirstValues(params, names, bindings) && AreDistinct(names)
    ensures AllValues(params, names, bindings)
  {
  }
}
