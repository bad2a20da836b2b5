/** The filters of a sensor dependency (pkg/sensors/dependencies/filter.go): the loops over expression
    and data filters, the combination of the five groups, and the final decision.

    JSON lookup, expression evaluation, templates, number parsing, regular expressions and scripts are
    uninterpreted functions, gathered in `Lib`; a value found in a payload is its raw JSON text. */
module EventFilter {
  import opened Strings
  import opened Wrappers
  import TimeFilter
  import opened TimeText

  /** A floating-point value: parsing also accepts "NaN" and the infinities. */
  datatype Number = Finite(value: real) | Infinite(positive: bool) | NaN

  datatype Lib = Lib(
    validJson: string -> bool,
    get: (string, string) -> Option<string>,
    compile: string -> Option<string>,
    evaluate: (string, map<string, string>) -> Result<bool, string>,
    render: (string, string) -> Result<string, string>,
    quote: string -> string,
    isTrue: string -> bool,
    number: string -> Number,
    parseBool: string -> Result<bool, string>,
    parseNumber: string -> Result<Number, string>,
    regexError: string -> Option<string>,
    matches: (string, string) -> bool,
    script: (string, string) -> Result<bool, string>,
    zones: TimeFilter.Zones)

  datatype Field = Field(path: string, name: string)

  datatype ExprFilter = ExprFilter(fields: seq<Field>, expr: string)

  datatype JsonType = BoolType | NumberType | StringType | OtherType(name: string)

  datatype Comparator = Ge | Gt | Lt | Le | Ne | Eq | Empty | Unknown

  datatype DataFilter = DataFilter(path: string, typ: JsonType, values: seq<string>, comparator: Comparator,
                                   template: string)

  datatype Context = Context(typ: string, subject: string, source: string, dataContentType: string)

  datatype Event = Event(data: Option<string>, context: Context, time: Instant)

  datatype Filters = Filters(exprs: Option<seq<ExprFilter>>, exprOr: bool, data: Option<seq<DataFilter>>, dataOr: bool,
                             context: Option<Context>, time: Option<TimeFilter.Filter>, script: string)

  // ----- what one filter says -----

  datatype Verdict = Pass | Fail | Err(message: string) | Skip

  function MissingPath(path: string): string { "path '" + path + "' does not exist" }

  /** The first field whose path is not in the payload, if any. */
  function FirstMissing(lib: Lib, payload: string, fields: seq<Field>): Option<string> {
    if fields == [] then None
    else if lib.get(payload, fields[0].path).None? then Some(fields[0].path)
    else FirstMissing(lib, payload, fields[1..])
  }

  /** Parameters by name; a later field of the same name wins. */
  function Parameters(lib: Lib, payload: string, fields: seq<Field>): map<string, string>
    requires FirstMissing(lib, payload, fields).None?
  {
    if fields == [] then map[]
    else
      var value := lib.get(payload, fields[0].path).value;
      var later := Parameters(lib, payload, fields[1..]);
      if fields[0].name in later then later else later[fields[0].name := value]
  }

  function ExprVerdict(lib: Lib, payload: string, f: ExprFilter): Verdict {
    var missing := FirstMissing(lib, payload, f.fields);
    if missing.Some? then Err(MissingPath(missing.value))
    else if f.fields == [] then Skip
    else if lib.compile(f.expr).Some? then Err(lib.compile(f.expr).value)
    else match lib.evaluate(f.expr, Parameters(lib, payload, f.fields))
      case Failure(e) => Err(e)
      case Success(b) => if b then Pass else Fail
  }

  predicate Below(a: Number, b: Number) {
    match (a, b)
    case (Finite(x), Finite(y)) => x < y
    case (Finite(_), Infinite(positive)) => positive
    case (Infinite(positive), Finite(_)) => !positive
    case (Infinite(p), Infinite(q)) => !p && q
    case _ => false
  }

  /** NaN equals nothing, itself included. */
  predicate Same(a: Number, b: Number) { !a.NaN? && a == b }

  predicate Compare(c: Comparator, a: Number, b: Number) {
    match c
    case Ge => Below(b, a) || Same(a, b)
    case Gt => Below(b, a)
    case Lt => Below(a, b)
    case Le => Below(a, b) || Same(a, b)
    case Ne => !Same(a, b)
    case Eq => Same(a, b)
    case Empty => Same(a, b)
    case Unknown => false
  }

  /** What one expected value says about the value found. */
  function ValueVerdict(lib: Lib, f: DataFilter, found: string, expected: string): Verdict {
    match f.typ
    case BoolType =>
      (match lib.parseBool(expected)
       case Failure(e) => Err(e)
       case Success(b) => if b == lib.isTrue(found) then Pass else Fail)
    case NumberType =>
      (match lib.parseNumber(expected)
       case Failure(e) => Err(e)
       case Success(n) => if Compare(f.comparator, lib.number(found), n) then Pass else Fail)
    case StringType =>
      if lib.regexError(expected).Some? then Err(lib.regexError(expected).value)
      else
        var match' := lib.matches(expected, found);
        if (f.comparator == Eq || f.comparator == Empty) && match' then Pass
        else if f.comparator == Ne && !match' then Pass
        else Fail
    case OtherType(name) => Err("unsupported JSON type '" + name + "'")
  }

  /** The first expected value that passes or errors decides. */
  function ValuesVerdict(lib: Lib, f: DataFilter, found: string, values: seq<string>): Verdict {
    if values == [] then Fail
    else
      var v := ValueVerdict(lib, f, found, values[0]);
      if v == Fail then ValuesVerdict(lib, f, found, values[1..]) else v
  }

  predicate IsNoValue(out: string) { out == "" || out == "<no value>" }

  function NoValueMessage(template: string, or: bool): string {
    if or then "template evaluated to empty string or no value: '" + template + "'"
    else "template '" + template + "' evaluated to empty string or no value"
  }

  function DataVerdict(lib: Lib, payload: string, or: bool, f: DataFilter): Verdict {
    var found := lib.get(payload, f.path);
    if found.None? then Err(MissingPath(f.path))
    else if f.values == [] then Err("no values specified")
    else if f.template == "" then ValuesVerdict(lib, f, found.value, f.values)
    else match lib.render(f.template, found.value)
      case Failure(e) => Err(e)
      case Success(out) =>
        if IsNoValue(out) then Err(NoValueMessage(f.template, or))
        else ValuesVerdict(lib, f, lib.quote(out), f.values)
  }

  // ----- what a list of filters says -----

  /** What stands between messages (errMessages are joined with it). */
  const SEPARATOR := " / "

  /** Messages of the filters that errored, in order. */
  function Messages(vs: seq<Verdict>): seq<string> {
    if vs == [] then [] else (if vs[0].Err? then [vs[0].message] else []) + Messages(vs[1..])
  }

  function One(kind: string, message: string): string { kind + " filter error (" + message + ")" }

  function Many(kind: string, messages: seq<string>): string { kind + " filter errors [" + Join(messages, SEPARATOR) + "]" }

  predicate Neutral(v: Verdict) { v.Pass? || v.Skip? }

  /** In or-mode some filter passes, or else every error is reported; otherwise the first filter that
      does not pass decides. */
  ghost predicate Combines(vs: seq<Verdict>, or: bool, kind: string, ok: bool, err: Option<string>) {
    if or then
      && (ok <==> Pass in vs)
      && err == (if ok || Messages(vs) == [] then None else Some(Many(kind, Messages(vs))))
    else
      && (ok <==> forall i :: 0 <= i < |vs| ==> Neutral(vs[i]))
      && (ok ==> err == None)
      && (!ok ==> exists i :: 0 <= i < |vs| && !Neutral(vs[i]) && (forall j :: 0 <= j < i ==> Neutral(vs[j]))
                              && err == if vs[i].Err? then Some(One(kind, vs[i].message)) else None)
  }

  function ExprVerdicts(lib: Lib, payload: string, fs: seq<ExprFilter>): seq<Verdict> {
    seq(|fs|, i requires 0 <= i < |fs| => ExprVerdict(lib, payload, fs[i]))
  }

  function DataVerdicts(lib: Lib, payload: string, or: bool, fs: seq<DataFilter>): seq<Verdict> {
    seq(|fs|, i requires 0 <= i < |fs| => DataVerdict(lib, payload, or, fs[i]))
  }

  lemma MessagesSnoc(vs: seq<Verdict>, v: Verdict)
    ensures Messages(vs + [v]) == Messages(vs) + if v.Err? then [v.message] else []
  {
    if vs == [] {
      assert vs + [v] == [v] && [v][1..] == [];
    } else {
      assert (vs + [v])[1..] == vs[1..] + [v];
      MessagesSnoc(vs[1..], v);
    }
  }

  /** What the loops know after `i` filters. */
  ghost predicate Progress(vs: seq<Verdict>, i: nat, or: bool, errMessages: seq<string>)
    requires i <= |vs|
  {
    if or then Pass !in vs[..i] && errMessages == Messages(vs[..i])
    else forall j :: 0 <= j < i ==> Neutral(vs[j])
  }

  lemma Advance(vs: seq<Verdict>, i: nat, or: bool, errMessages: seq<string>)
    requires i < |vs| && Progress(vs, i, or, errMessages)
    requires if or then vs[i] != Pass else Neutral(vs[i])
    ensures Progress(vs, i + 1, or, errMessages + if vs[i].Err? then [vs[i].message] else [])
  {
    MessagesSnoc(vs[..i], vs[i]);
    assert vs[..i + 1] == vs[..i] + [vs[i]];
  }

  lemma Stop(vs: seq<Verdict>, i: nat, or: bool, kind: string, errMessages: seq<string>)
    requires i < |vs| && Progress(vs, i, or, errMessages)
    ensures or && vs[i] == Pass ==> Combines(vs, or, kind, true, None)
    ensures !or && !Neutral(vs[i]) ==>
      Combines(vs, or, kind, false, if vs[i].Err? then Some(One(kind, vs[i].message)) else None)
  {
  }

  lemma Finish(vs: seq<Verdict>, or: bool, kind: string, errMessages: seq<string>)
    requires Progress(vs, |vs|, or, errMessages)
    ensures or ==> Combines(vs, or, kind, false, if |errMessages| > 0 then Some(Many(kind, errMessages)) else None)
    ensures !or ==> Combines(vs, or, kind, true, None)
  {
    assert vs[..|vs|] == vs;
  }

  // ----- the loops -----

  method FilterExpr(lib: Lib, filters: Option<seq<ExprFilter>>, or: bool, data: Option<string>)
    returns (ok: bool, err: Option<string>)
    ensures filters.None? || data.None? ==> ok && err == None
    ensures filters.Some? && data.Some? ==>
      if !lib.validJson(data.value) then !ok && err == Some(One("expr", "event data not valid JSON"))
      else Combines(ExprVerdicts(lib, data.value, filters.value), or, "expr", ok, err)
  {
    if filters.None? || data.None? { return true, None; }
    var payload, fs := data.value, filters.value;
    if !lib.validJson(payload) { return false, Some(One("expr", "event data not valid JSON")); }
    hide Combines, Progress, One, Many, MissingPath, FirstMissing, Parameters;
    var errMessages: seq<string> := [];
    ghost var vs := ExprVerdicts(lib, payload, fs);
    NothingYet(vs, or);
    label Filters:
    for i := 0 to |fs|
      invariant Progress(vs, i, or, errMessages)
    {
      Stop(vs, i, or, "expr", errMessages);
      if if or then vs[i] != Pass else Neutral(vs[i]) { Advance(vs, i, or, errMessages); }
      assert errMessages + [] == errMessages;
      var filter := fs[i];
      var parameters: map<string, string> := map[];
      NoFields(lib, payload, filter.fields);
      for k := 0 to |filter.fields|
        invariant FirstMissing(lib, payload, filter.fields[..k]).None?
        invariant parameters == Parameters(lib, payload, filter.fields[..k])
      {
        var field := filter.fields[k];
        var pathResult := lib.get(payload, field.path);
        FieldStep(lib, payload, filter.fields, k);
        if pathResult.None? {
          assert vs[i] == Err(MissingPath(field.path));
          if or {
            errMessages := errMessages + [MissingPath(field.path)];
            continue Filters;
          }
          return false, Some(One("expr", MissingPath(field.path)));
        }
        parameters := parameters[field.name := pathResult.value];
      }
      assert filter.fields[..|filter.fields|] == filter.fields;
      NoParameters(lib, payload, filter.fields);
      if |parameters| == 0 { continue; }
      var exprErr := lib.compile(filter.expr);
      if exprErr.Some? {
        if or {
          errMessages := errMessages + [exprErr.value];
          continue;
        }
        return false, Some(One("expr", exprErr.value));
      }
      var result := lib.evaluate(filter.expr, parameters);
      if result.Failure? {
        if or {
          errMessages := errMessages + [result.error];
          continue;
        }
        return false, Some(One("expr", result.error));
      }
      if result.value {
        if or { return true, None; }
      } else {
        if !or { return false, None; }
      }
    }
    Finish(vs, or, "expr", errMessages);
    if or {
      return false, if |errMessages| > 0 then Some(Many("expr", errMessages)) else None;
    }
    return true, None;
  }

  lemma NothingYet(vs: seq<Verdict>, or: bool)
    ensures Progress(vs, 0, or, [])
  {
  }

  lemma NoFields(lib: Lib, payload: string, fields: seq<Field>)
    ensures FirstMissing(lib, payload, fields[..0]).None? && Parameters(lib, payload, fields[..0]) == map[]
  {
  }

  lemma FieldStep(lib: Lib, payload: string, fields: seq<Field>, k: nat)
    requires k < |fields| && FirstMissing(lib, payload, fields[..k]).None?
    ensures var value := lib.get(payload, fields[k].path);
      if value.None? then FirstMissing(lib, payload, fields) == Some(fields[k].path)
      else
        && FirstMissing(lib, payload, fields[..k + 1]).None?
        && Parameters(lib, payload, fields[..k + 1]) == Parameters(lib, payload, fields[..k])[fields[k].name := value.value]
  {
    assert fields[..k + 1] == fields[..k] + [fields[k]];
    if lib.get(payload, fields[k].path).None? {
      MissingAt(lib, payload, fields, k);
    } else {
      ParametersSnoc(lib, payload, fields[..k], fields[k]);
    }
  }

  lemma MissingAt(lib: Lib, payload: string, fields: seq<Field>, k: nat)
    requires k < |fields| && FirstMissing(lib, payload, fields[..k]).None? && lib.get(payload, fields[k].path).None?
    ensures FirstMissing(lib, payload, fields) == Some(fields[k].path)
  {
    if k > 0 {
      assert fields[..k][1..] == fields[1..][..k - 1];
      MissingAt(lib, payload, fields[1..], k - 1);
    }
  }

  lemma {:induction false} ParametersSnoc(lib: Lib, payload: string, fields: seq<Field>, f: Field)
    requires FirstMissing(lib, payload, fields).None? && lib.get(payload, f.path).Some?
    ensures FirstMissing(lib, payload, fields + [f]).None?
    ensures Parameters(lib, payload, fields + [f])
         == Parameters(lib, payload, fields)[f.name := lib.get(payload, f.path).value]
  {
    if fields == [] {
      assert fields + [f] == [f] && [f][1..] == [];
    } else {
      assert (fields + [f])[1..] == fields[1..] + [f];
      ParametersSnoc(lib, payload, fields[1..], f);
    }
  }

  lemma NoParameters(lib: Lib, payload: string, fields: seq<Field>)
    requires FirstMissing(lib, payload, fields).None?
    ensures |Parameters(lib, payload, fields)| == 0 <==> fields == []
  {
    if fields != [] { assert fields[0].name in Parameters(lib, payload, fields); }
  }

  method FilterData(lib: Lib, filters: Option<seq<DataFilter>>, or: bool, data: Option<string>)
    returns (ok: bool, err: Option<string>)
    ensures filters.None? || filters.value == [] || data.None? ==> ok && err == None
    ensures filters.Some? && filters.value != [] && data.Some? ==>
      if !lib.validJson(data.value) then !ok && err == Some(One("data", "event data not valid JSON"))
      else Combines(DataVerdicts(lib, data.value, or, filters.value), or, "data", ok, err)
  {
    if filters.None? || |filters.value| == 0 || data.None? { return true, None; }
    var payload, fs := data.value, filters.value;
    if !lib.validJson(payload) { return false, Some(One("data", "event data not valid JSON")); }
    hide Combines, Progress, One, Many, MissingPath, NoValueMessage, IsNoValue, ValuesVerdict;
    var errMessages: seq<string> := [];
    ghost var vs := DataVerdicts(lib, payload, or, fs);
    NothingYet(vs, or);
    for i := 0 to |fs|
      invariant Progress(vs, i, or, errMessages)
    {
      Stop(vs, i, or, "data", errMessages);
      if if or then vs[i] != Pass else Neutral(vs[i]) { Advance(vs, i, or, errMessages); }
      assert errMessages + [] == errMessages;
      var f := fs[i];
      var pathResult := lib.get(payload, f.path);
      if pathResult.None? {
        if or {
          errMessages := errMessages + [MissingPath(f.path)];
          continue;
        }
        return false, Some(One("data", MissingPath(f.path)));
      }
      if |f.values| == 0 {
        if or {
          errMessages := errMessages + ["no values specified"];
          continue;
        }
        return false, Some(One("data", "no values specified"));
      }
      var found := pathResult.value;
      if f.template != "" {
        var out := lib.render(f.template, found);
        if out.Failure? {
          if or {
            errMessages := errMessages + [out.error];
            continue;
          }
          return false, Some(One("data", out.error));
        }
        if IsNoValue(out.value) {
          if or {
            errMessages := errMessages + [NoValueMessage(f.template, or)];
            continue;
          }
          return false, Some(One("data", NoValueMessage(f.template, or)));
        }
        found := lib.quote(out.value);
      }
      var v := CheckValues(lib, f, found);
      if v.Err? {
        if or {
          errMessages := errMessages + [v.message];
          continue;
        }
        return false, Some(One("data", v.message));
      }
      if v.Pass? {
        if or { return true, None; }
        continue;
      }
      if or { continue; }
      return false, None;
    }
    Finish(vs, or, "data", errMessages);
    if or {
      return false, if |errMessages| > 0 then Some(Many("data", errMessages)) else None;
    }
    return true, None;
  }

  /** The loop over the expected values of one data filter. */
  method CheckValues(lib: Lib, f: DataFilter, found: string) returns (v: Verdict)
    ensures v == ValuesVerdict(lib, f, found, f.values)
    ensures v != Skip
  {
    for k := 0 to |f.values|
      invariant ValuesVerdict(lib, f, found, f.values) == ValuesVerdict(lib, f, found, f.values[k..])
    {
      v := ValueVerdict(lib, f, found, f.values[k]);
      ValueNeverSkips(lib, f, found, f.values[k]);
      assert f.values[k..][1..] == f.values[k + 1..];
      if v != Fail { return; }
    }
    return Fail;
  }

  lemma ValueNeverSkips(lib: Lib, f: DataFilter, found: string, expected: string)
    ensures ValueVerdict(lib, f, found, expected) != Skip
  {
  }

  // ----- what one expression filter accepts -----

  /** The parameter of a name is the value at the path of the last field with that name. */
  lemma {:induction false} ParameterOfName(lib: Lib, payload: string, fields: seq<Field>, i: nat)
    requires FirstMissing(lib, payload, fields).None? && i < |fields|
    requires forall j :: i < j < |fields| ==> fields[j].name != fields[i].name
    ensures lib.get(payload, fields[i].path).Some?
    ensures fields[i].name in Parameters(lib, payload, fields)
    ensures Parameters(lib, payload, fields)[fields[i].name] == lib.get(payload, fields[i].path).value
  {
    if i > 0 {
      ParameterOfName(lib, payload, fields[1..], i - 1);
    } else {
      NameOfSomeField(lib, payload, fields[1..], fields[0].name);
    }
  }

  lemma {:induction false} NameOfSomeField(lib: Lib, payload: string, fields: seq<Field>, n: string)
    requires FirstMissing(lib, payload, fields).None?
    ensures n in Parameters(lib, payload, fields) ==> exists i :: 0 <= i < |fields| && fields[i].name == n
  {
    if fields != [] {
      NameOfSomeField(lib, payload, fields[1..], n);
      if n in Parameters(lib, payload, fields[1..]) {
        var i :| 0 <= i < |fields[1..]| && fields[1..][i].name == n;
        assert fields[i + 1].name == n;
      } else if n in Parameters(lib, payload, fields) {
        assert fields[0].name == n;
      }
    }
  }

  lemma {:induction false} NothingMissing(lib: Lib, payload: string, fields: seq<Field>)
    ensures FirstMissing(lib, payload, fields).None? <==> forall i :: 0 <= i < |fields| ==> lib.get(payload, fields[i].path).Some?
  {
    if fields != [] {
      NothingMissing(lib, payload, fields[1..]);
      if lib.get(payload, fields[0].path).Some? && FirstMissing(lib, payload, fields[1..]).None? {
        forall i | 0 <= i < |fields| ensures lib.get(payload, fields[i].path).Some? {
          if i > 0 { assert fields[1..][i - 1] == fields[i]; }
        }
      }
      assert (forall i :: 0 <= i < |fields| ==> lib.get(payload, fields[i].path).Some?) ==>
        forall i :: 0 <= i < |fields[1..]| ==> lib.get(payload, fields[1..][i].path).Some?;
    }
  }

  /** A single expression filter with fields: it accepts an event, without an error, exactly when every path is
      there, the expression compiles and evaluates to true with a parameter for each name. */
  lemma ExprFilterExactly(lib: Lib, payload: string, or: bool, f: ExprFilter, ok: bool, err: Option<string>)
    requires Combines(ExprVerdicts(lib, payload, [f]), or, "expr", ok, err) && f.fields != []
    ensures ok <==>
      && (forall i :: 0 <= i < |f.fields| ==> lib.get(payload, f.fields[i].path).Some?)
      && lib.compile(f.expr).None?
      && FirstMissing(lib, payload, f.fields).None?
      && lib.evaluate(f.expr, Parameters(lib, payload, f.fields)) == Success(true)
  {
    NothingMissing(lib, payload, f.fields);
    hide FirstMissing, Parameters;
    assert ExprVerdicts(lib, payload, [f])[0] == ExprVerdict(lib, payload, f);
  }

  // ----- what one data filter accepts -----

  /** `found` is what the filter compares: the value at its path, or the output of its template. */
  predicate Sees(lib: Lib, payload: string, f: DataFilter, found: string) {
    && lib.get(payload, f.path).Some?
    && if f.template == "" then found == lib.get(payload, f.path).value
       else
         var out := lib.render(f.template, lib.get(payload, f.path).value);
         out.Success? && out.value != "" && out.value != "<no value>" && found == lib.quote(out.value)
  }

  /** The answer of FilterData for one filter. */
  ghost predicate AnswersOne(lib: Lib, payload: string, or: bool, f: DataFilter, ok: bool, err: Option<string>) {
    Combines(DataVerdicts(lib, payload, or, [f]), or, "data", ok, err)
  }

  /** A filter with nothing to compare is in error: its path is not in the payload, no value is listed, or its
      template fails or puts out nothing. */
  lemma NothingToCompare(lib: Lib, payload: string, or: bool, f: DataFilter, ok: bool, err: Option<string>)
    requires AnswersOne(lib, payload, or, f, ok, err)
    requires f.values == [] || forall found :: !Sees(lib, payload, f, found)
    ensures !ok && err.Some?
  {
    SeesOrErrs(lib, payload, or, f);
    hide DataVerdict, Sees, One, Many;
    var vs := DataVerdicts(lib, payload, or, [f]);
    assert vs == [DataVerdict(lib, payload, or, f)];
    assert Messages(vs) == [vs[0].message];
  }

  lemma SeesOrErrs(lib: Lib, payload: string, or: bool, f: DataFilter)
    ensures DataVerdict(lib, payload, or, f).Err? || (f.values != [] && exists found :: Sees(lib, payload, f, found))
  {
    hide ValuesVerdict, MissingPath, NoValueMessage;
    if !DataVerdict(lib, payload, or, f).Err? {
      var value := lib.get(payload, f.path).value;
      if f.template == "" {
        assert Sees(lib, payload, f, value);
      } else {
        assert Sees(lib, payload, f, lib.quote(lib.render(f.template, value).value));
      }
    }
  }

  lemma {:induction false} SomeValuePasses(lib: Lib, f: DataFilter, found: string, values: seq<string>)
    requires forall i :: 0 <= i < |values| ==> !ValueVerdict(lib, f, found, values[i]).Err?
    ensures ValuesVerdict(lib, f, found, values) == Pass || ValuesVerdict(lib, f, found, values) == Fail
    ensures ValuesVerdict(lib, f, found, values) == Pass
      <==> exists i :: 0 <= i < |values| && ValueVerdict(lib, f, found, values[i]) == Pass
  {
    hide ValueVerdict;
    if values != [] {
      ValueNeverSkips(lib, f, found, values[0]);
      SomeValuePasses(lib, f, found, values[1..]);
      if ValueVerdict(lib, f, found, values[0]) == Fail {
        forall i | 1 <= i < |values| ensures values[1..][i - 1] == values[i] {
        }
      }
    }
  }

  /** A single filter accepts an event exactly when some listed value passes, if all of them can be read. */
  lemma OneFilterAccepts(lib: Lib, payload: string, or: bool, f: DataFilter, found: string, ok: bool, err: Option<string>)
    requires AnswersOne(lib, payload, or, f, ok, err) && Sees(lib, payload, f, found) && f.values != []
    requires forall i :: 0 <= i < |f.values| ==> !ValueVerdict(lib, f, found, f.values[i]).Err?
    ensures ok <==> exists i :: 0 <= i < |f.values| && ValueVerdict(lib, f, found, f.values[i]) == Pass
  {
    hide ValueVerdict, ValuesVerdict;
    SomeValuePasses(lib, f, found, f.values);
    var vs := DataVerdicts(lib, payload, or, [f]);
    assert vs[0] == ValuesVerdict(lib, f, found, f.values);
  }

  /** A number filter, for finite numbers: the comparator relates the number found to a listed one, in this
      order. */
  lemma NumberFilterExactly(lib: Lib, payload: string, or: bool, f: DataFilter, found: string, x: real, ok: bool, err: Option<string>)
    requires AnswersOne(lib, payload, or, f, ok, err) && Sees(lib, payload, f, found) && f.values != []
    requires f.typ == NumberType && lib.number(found) == Finite(x)
    requires forall i :: 0 <= i < |f.values| ==> lib.parseNumber(f.values[i]).Success? && lib.parseNumber(f.values[i]).value.Finite?
    ensures f.comparator == Gt ==> (ok <==> exists i :: 0 <= i < |f.values| && x > NumberAt(lib, f, i))
    ensures f.comparator == Ge ==> (ok <==> exists i :: 0 <= i < |f.values| && x >= NumberAt(lib, f, i))
    ensures f.comparator == Lt ==> (ok <==> exists i :: 0 <= i < |f.values| && x < NumberAt(lib, f, i))
    ensures f.comparator == Le ==> (ok <==> exists i :: 0 <= i < |f.values| && x <= NumberAt(lib, f, i))
    ensures f.comparator == Ne ==> (ok <==> exists i :: 0 <= i < |f.values| && x != NumberAt(lib, f, i))
    ensures f.comparator == Eq || f.comparator == Empty ==> (ok <==> exists i :: 0 <= i < |f.values| && x == NumberAt(lib, f, i))
    ensures f.comparator == Unknown ==> !ok
  {
    OneFilterAccepts(lib, payload, or, f, found, ok, err);
    forall i | 0 <= i < |f.values|
      ensures var y := NumberAt(lib, f, i);
        ValueVerdict(lib, f, found, f.values[i]) == Pass <==> Compare(f.comparator, Finite(x), Finite(y))
    {
      assert lib.parseNumber(f.values[i]) == Success(Finite(NumberAt(lib, f, i)));
    }
    hide AnswersOne, Sees, ValueVerdict, NumberAt;
  }

  /** A listed number. */
  function NumberAt(lib: Lib, f: DataFilter, i: nat): real
    requires i < |f.values|
  {
    var n := lib.parseNumber(f.values[i]);
    if n.Success? && n.value.Finite? then n.value.value else 0.0
  }

  /** Not a number: it differs from every number and from itself, and stands in no other relation. */
  lemma NaNFilter(lib: Lib, payload: string, or: bool, f: DataFilter, found: string, ok: bool, err: Option<string>)
    requires AnswersOne(lib, payload, or, f, ok, err) && Sees(lib, payload, f, found) && f.values != [] && f.typ == NumberType
    requires forall i :: 0 <= i < |f.values| ==> lib.parseNumber(f.values[i]).Success?
    requires lib.number(found) == NaN || forall i :: 0 <= i < |f.values| ==> lib.parseNumber(f.values[i]).value == NaN
    ensures ok <==> f.comparator == Ne
  {
    OneFilterAccepts(lib, payload, or, f, found, ok, err);
    hide AnswersOne, Sees;
    assert ValueVerdict(lib, f, found, f.values[0]) == if f.comparator == Ne then Pass else Fail;
  }

  /** The infinities lie beyond all finite numbers. */
  lemma InfiniteFilter(lib: Lib, payload: string, or: bool, f: DataFilter, found: string, positive: bool, ok: bool, err: Option<string>)
    requires AnswersOne(lib, payload, or, f, ok, err) && Sees(lib, payload, f, found) && f.values != [] && f.typ == NumberType
    requires forall i :: 0 <= i < |f.values| ==> lib.parseNumber(f.values[i]).Success? && lib.parseNumber(f.values[i]).value.Finite?
    requires lib.number(found) == Infinite(positive)
    ensures ok <==> f.comparator == Ne || f.comparator in (if positive then {Gt, Ge} else {Lt, Le})
  {
    OneFilterAccepts(lib, payload, or, f, found, ok, err);
    hide AnswersOne, Sees;
    assert ValueVerdict(lib, f, found, f.values[0]).Pass? || ValueVerdict(lib, f, found, f.values[0]).Fail?;
  }

  /** A boolean filter: some listed value is the truth value found, whatever the comparator. */
  lemma BoolFilterExactly(lib: Lib, payload: string, or: bool, f: DataFilter, found: string, ok: bool, err: Option<string>)
    requires AnswersOne(lib, payload, or, f, ok, err) && Sees(lib, payload, f, found) && f.values != [] && f.typ == BoolType
    requires forall i :: 0 <= i < |f.values| ==> lib.parseBool(f.values[i]).Success?
    ensures ok <==> exists i :: 0 <= i < |f.values| && lib.parseBool(f.values[i]) == Success(lib.isTrue(found))
  {
    OneFilterAccepts(lib, payload, or, f, found, ok, err);
    hide AnswersOne, Sees;
  }

  /** A string filter: some listed expression matches, or for inequality some does not; other comparators
      accept nothing. */
  lemma StringFilterExactly(lib: Lib, payload: string, or: bool, f: DataFilter, found: string, ok: bool, err: Option<string>)
    requires AnswersOne(lib, payload, or, f, ok, err) && Sees(lib, payload, f, found) && f.values != [] && f.typ == StringType
    requires forall i :: 0 <= i < |f.values| ==> lib.regexError(f.values[i]).None?
    ensures f.comparator == Eq || f.comparator == Empty ==>
      (ok <==> exists i :: 0 <= i < |f.values| && lib.matches(f.values[i], found))
    ensures f.comparator == Ne ==> (ok <==> exists i :: 0 <= i < |f.values| && !lib.matches(f.values[i], found))
    ensures f.comparator !in {Eq, Empty, Ne} ==> !ok
  {
    OneFilterAccepts(lib, payload, or, f, found, ok, err);
    hide AnswersOne, Sees;
  }

  /** Sixty is above fifty. */
  lemma SixtyAboveFifty(lib: Lib, payload: string, path: string, ok: bool, err: Option<string>)
    requires AnswersOne(lib, payload, false, DataFilter(path, NumberType, ["50.0"], Gt, ""), ok, err)
    requires lib.get(payload, path) == Some("60") && lib.number("60") == Finite(60.0) && lib.parseNumber("50.0") == Success(Finite(50.0))
    ensures ok
  {
    var f := DataFilter(path, NumberType, ["50.0"], Gt, "");
    assert f.values[0] == "50.0";
    NumberFilterExactly(lib, payload, false, f, "60", 60.0, ok, err);
  }

  // ----- the groups -----

  predicate FilterContext(expected: Option<Context>, actual: Context) {
    expected.Some? ==>
      && (expected.value.typ != "" ==> expected.value.typ == actual.typ)
      && (expected.value.subject != "" ==> expected.value.subject == actual.subject)
      && (expected.value.source != "" ==> expected.value.source == actual.source)
      && (expected.value.dataContentType != "" ==> expected.value.dataContentType == actual.dataContentType)
  }

  /** A field that is not named matches anything; one that is must be the event's own. */
  lemma ContextFilterExactly(expected: Context, actual: Context)
    ensures FilterContext(Some(expected), actual) <==>
      && expected.typ in {"", actual.typ} && expected.subject in {"", actual.subject}
      && expected.source in {"", actual.source} && expected.dataContentType in {"", actual.dataContentType}
    ensures FilterContext(None, actual)
  {
  }

  function FilterScript(lib: Lib, script: string, data: Option<string>): Result<bool, string> {
    if script == "" || data.None? then Success(true) else lib.script(script, data.value)
  }

  function FilterTime(lib: Lib, f: Filters, event: Event): Result<bool, string> {
    match TimeFilter.FilterTime(f.time, event.time, lib.zones)
    case Success(b) => Success(b)
    case Failure(e) => Failure(One("time", e))
  }

  /** What a group of filters comes to: not configured, accepting, refusing or in error. */
  datatype Group = Unset | Accepts | Refuses | Errored(message: string)

  function AsGroup(ok: bool, err: Option<string>): Group {
    if err.Some? then Errored(err.value) else if ok then Accepts else Refuses
  }

  /** The group that a list of verdicts makes. */
  function ListGroup(vs: seq<Verdict>, or: bool, kind: string): Group {
    if or then
      if Pass in vs then Accepts
      else if Messages(vs) != [] then Errored(Many(kind, Messages(vs)))
      else Refuses
    else FirstGroup(vs, kind)
  }

  function FirstGroup(vs: seq<Verdict>, kind: string): Group {
    if vs == [] then Accepts
    else if Neutral(vs[0]) then FirstGroup(vs[1..], kind)
    else if vs[0].Err? then Errored(One(kind, vs[0].message))
    else Refuses
  }

  lemma CombinesAsGroup(vs: seq<Verdict>, or: bool, kind: string, ok: bool, err: Option<string>)
    requires Combines(vs, or, kind, ok, err)
    ensures AsGroup(ok, err) == ListGroup(vs, or, kind)
  {
    if !or {
      if ok { AllNeutral(vs, kind); }
      else {
        var i :| 0 <= i < |vs| && !Neutral(vs[i]) && (forall j :: 0 <= j < i ==> Neutral(vs[j]))
                 && err == if vs[i].Err? then Some(One(kind, vs[i].message)) else None;
        FirstDecides(vs, i, kind);
      }
    }
  }

  lemma AllNeutral(vs: seq<Verdict>, kind: string)
    requires forall i :: 0 <= i < |vs| ==> Neutral(vs[i])
    ensures FirstGroup(vs, kind) == Accepts
  {
  }

  lemma FirstDecides(vs: seq<Verdict>, i: nat, kind: string)
    requires i < |vs| && !Neutral(vs[i]) && forall j :: 0 <= j < i ==> Neutral(vs[j])
    ensures FirstGroup(vs, kind) == if vs[i].Err? then Errored(One(kind, vs[i].message)) else Refuses
  {
    if i > 0 { FirstDecides(vs[1..], i - 1, kind); }
  }

  function ExprGroup(lib: Lib, f: Filters, event: Event): Group {
    if f.exprs.None? then Unset
    else if event.data.None? then Accepts
    else if !lib.validJson(event.data.value) then Errored(One("expr", "event data not valid JSON"))
    else ListGroup(ExprVerdicts(lib, event.data.value, f.exprs.value), f.exprOr, "expr")
  }

  function DataGroup(lib: Lib, f: Filters, event: Event): Group {
    if f.data.None? then Unset
    else if f.data.value == [] || event.data.None? then Accepts
    else if !lib.validJson(event.data.value) then Errored(One("data", "event data not valid JSON"))
    else ListGroup(DataVerdicts(lib, event.data.value, f.dataOr, f.data.value), f.dataOr, "data")
  }

  datatype Groups = Groups(expr: Group, data: Group, context: Group, time: Group, script: Group) {
    predicate Has(g: Group) { expr == g || data == g || context == g || time == g || script == g }

    /** Messages of the groups in error, in the order they are evaluated. */
    function Errors(): seq<string> {
      Add(Add(Add(Add(Add([], expr), data), context), time), script)
    }
  }

  function Add(messages: seq<string>, g: Group): seq<string> {
    if g.Errored? then messages + [g.message] else messages
  }

  function GroupsOf(lib: Lib, f: Filters, event: Event): Groups {
    var time, script := FilterTime(lib, f, event), FilterScript(lib, f.script, event.data);
    Groups(ExprGroup(lib, f, event),
           DataGroup(lib, f, event),
           Slot(f.context.Some?, FilterContext(f.context, event.context), None),
           Slot(f.time.Some?, Ok(time), Error(time)),
           Slot(f.script != "", Ok(script), Error(script)))
  }

  /** The group of a filter kind, from whether it is configured and what its function returned. */
  function Slot(configured: bool, ok: bool, err: Option<string>): Group {
    if configured then AsGroup(ok, err) else Unset
  }

  function Ok(r: Result<bool, string>): bool { r.Success? && r.value }

  function Error(r: Result<bool, string>): Option<string> { if r.Failure? then Some(r.error) else None }

  lemma NoErrorsExactly(g: Groups)
    ensures g.Errors() == [] <==>
      !g.expr.Errored? && !g.data.Errored? && !g.context.Errored? && !g.time.Errored? && !g.script.Errored?
  {
  }

  /** The first group in error gives the first message. */
  lemma FirstError(g: Groups)
    requires !g.context.Errored?
    ensures g.expr.Errored? ==> g.Errors() != [] && g.Errors()[0] == g.expr.message
    ensures !g.expr.Errored? && g.data.Errored? ==> g.Errors() != [] && g.Errors()[0] == g.data.message
    ensures !g.expr.Errored? && !g.data.Errored? && g.time.Errored? ==> g.Errors() != [] && g.Errors()[0] == g.time.message
    ensures !g.expr.Errored? && !g.data.Errored? && !g.time.Errored? && g.script.Errored? ==>
      g.Errors() == [g.script.message]
  {
  }

  /** What each configured group answers decides what the groups have. */
  lemma SlotsVerdict(g: Groups, c0: bool, c1: bool, c2: bool, c3: bool, c4: bool,
                     k0: bool, k1: bool, k2: bool, k3: bool, k4: bool)
    requires IsSlot(g.expr, c0, k0) && IsSlot(g.data, c1, k1) && IsSlot(g.context, c2, k2)
    requires IsSlot(g.time, c3, k3) && IsSlot(g.script, c4, k4)
    ensures g.Has(Accepts) <==> (c0 && k0) || (c1 && k1) || (c2 && k2) || (c3 && k3) || (c4 && k4)
    ensures g.Errors() == [] ==> (!g.Has(Refuses) <==> k0 && k1 && k2 && k3 && k4)
  {
    NoErrorsExactly(g);
  }

  /** `ok` is what the function behind a group returned; a kind that is not configured returns true. */
  predicate IsSlot(g: Group, configured: bool, ok: bool) {
    if !configured then g == Unset && ok else g != Unset && (ok <==> g == Accepts)
  }

  /** What evaluating the groups answers: without errors their verdict; outside or-mode the first error;
      in or-mode a script error alone, or else the verdict of the others with every error. */
  predicate Outcome(g: Groups, or: bool, ok: bool, err: Option<string>) {
    if g.Errors() == [] then err == None && (ok <==> if or then g.Has(Accepts) else !g.Has(Refuses))
    else if !or then !ok && err == Some(g.Errors()[0])
    else if g.script.Errored? then !ok && err == Some(g.script.message)
    else (ok <==> g.Has(Accepts)) && err == Some(Join(g.Errors(), SEPARATOR))
  }

  /** `ok` and `err` are what the function behind a group returned. */
  ghost predicate Answers(g: Group, configured: bool, ok: bool, err: Option<string>) {
    && IsSlot(g, configured, ok)
    && (g.Errored? <==> err.Some?)
    && (g.Errored? ==> g.message == err.value)
  }

  method FilterEvent(lib: Lib, f: Filters, or: bool, event: Event) returns (ok: bool, err: Option<string>)
    ensures Outcome(GroupsOf(lib, f, event), or, ok, err)
  {
    hide FilterContext, FilterTime, FilterScript, ExprGroup, DataGroup, Outcome;
    ghost var g := GroupsOf(lib, f, event);
    var exprFilter, exprErr := ExprStep(lib, f, event);
    var dataFilter, dataErr := DataStep(lib, f, event);
    var ctxFilter := FilterContext(f.context, event.context);
    var timeFilter := FilterTime(lib, f, event);
    var scriptFilter := FilterScript(lib, f.script, event.data);
    UnsetAccepts(lib, f, event);
    ok, err := CombineGroups(f, or, g, exprFilter, exprErr, dataFilter, dataErr, ctxFilter, timeFilter, scriptFilter);
  }

  /** The part of filterEvent that puts the five answers together. */
  method CombineGroups(f: Filters, or: bool, ghost g: Groups,
                       exprFilter: bool, exprErr: Option<string>, dataFilter: bool, dataErr: Option<string>,
                       ctxFilter: bool, timeFilter: Result<bool, string>, scriptFilter: Result<bool, string>)
    returns (ok: bool, err: Option<string>)
    requires Answers(g.expr, f.exprs.Some?, exprFilter, exprErr)
    requires Answers(g.data, f.data.Some?, dataFilter, dataErr)
    requires Answers(g.context, f.context.Some?, ctxFilter, None)
    requires Answers(g.time, f.time.Some?, Ok(timeFilter), Error(timeFilter))
    requires Answers(g.script, f.script != "", Ok(scriptFilter), Error(scriptFilter))
    ensures Outcome(g, or, ok, err)
  {
    SlotsVerdict(g, f.exprs.Some?, f.data.Some?, f.context.Some?, f.time.Some?, f.script != "",
                 exprFilter, dataFilter, ctxFilter, Ok(timeFilter), Ok(scriptFilter));
    FirstError(g);
    NoErrorsExactly(g);
    hide Groups.Has, IsSlot;
    var errMessages: seq<string> := [];
    if exprErr.Some? {
      if !or { return false, exprErr; }
      errMessages := errMessages + [exprErr.value];
    }
    if dataErr.Some? {
      if !or { return false, dataErr; }
      errMessages := errMessages + [dataErr.value];
    }
    if timeFilter.Failure? {
      if !or { return false, Some(timeFilter.error); }
      errMessages := errMessages + [timeFilter.error];
    }
    assert errMessages == Add(Add(Add(Add([], g.expr), g.data), g.context), g.time);
    if scriptFilter.Failure? { return false, Some(scriptFilter.error); }
    assert errMessages == g.Errors();
    if or {
      ok := || (f.exprs.Some? && exprFilter)
            || (f.data.Some? && dataFilter)
            || (f.context.Some? && ctxFilter)
            || (f.time.Some? && Ok(timeFilter))
            || (f.script != "" && scriptFilter.value);
      if |errMessages| > 0 { return ok, Some(Join(errMessages, SEPARATOR)); }
      return ok, None;
    }
    return exprFilter && dataFilter && ctxFilter && timeFilter.value && scriptFilter.value, None;
  }

  /** Groups that are not configured let every event pass. */
  lemma UnsetAccepts(lib: Lib, f: Filters, event: Event)
    ensures f.context.None? ==> FilterContext(f.context, event.context)
    ensures f.time.None? ==> FilterTime(lib, f, event) == Success(true)
    ensures f.script == "" ==> FilterScript(lib, f.script, event.data) == Success(true)
  {
  }

  method ExprStep(lib: Lib, f: Filters, event: Event) returns (ok: bool, err: Option<string>)
    ensures ExprGroup(lib, f, event) == Slot(f.exprs.Some?, ok, err)
    ensures f.exprs.None? ==> ok && err == None
    ensures err.Some? ==> !ok
  {
    ok, err := FilterExpr(lib, f.exprs, f.exprOr, event.data);
    if f.exprs.Some? && event.data.Some? && lib.validJson(event.data.value) {
      CombinesAsGroup(ExprVerdicts(lib, event.data.value, f.exprs.value), f.exprOr, "expr", ok, err);
    }
  }

  method DataStep(lib: Lib, f: Filters, event: Event) returns (ok: bool, err: Option<string>)
    ensures DataGroup(lib, f, event) == Slot(f.data.Some?, ok, err)
    ensures f.data.None? ==> ok && err == None
    ensures err.Some? ==> !ok
  {
    ok, err := FilterData(lib, f.data, f.dataOr, event.data);
    if f.data.Some? && f.data.value != [] && event.data.Some? && lib.validJson(event.data.value) {
      CombinesAsGroup(DataVerdicts(lib, event.data.value, f.dataOr, f.data.value), f.dataOr, "data", ok, err);
    }
  }

  /** What the context, the clock time and the script have to be for their groups to accept; only a clock time that
      cannot be read and a failing script are errors. */
  lemma GroupsExactly(lib: Lib, f: Filters, event: Event)
    ensures var g := GroupsOf(lib, f, event);
      && (f.context.Some? ==>
            var c := f.context.value;
            && (g.context == Accepts <==>
                  && c.typ in {"", event.context.typ} && c.subject in {"", event.context.subject}
                  && c.source in {"", event.context.source} && c.dataContentType in {"", event.context.dataContentType})
            && !g.context.Errored?)
      && (f.time.Some? ==>
            var accepted := TimeFilter.FilterTime(f.time, event.time, lib.zones);
            (g.time == Accepts <==> accepted == Success(true)) && (g.time.Errored? <==> accepted.Failure?))
      && (f.script != "" && event.data.None? ==> g.script == Accepts)
      && (f.script != "" && event.data.Some? ==>
            var ran := lib.script(f.script, event.data.value);
            (g.script == Accepts <==> ran == Success(true)) && (g.script.Errored? <==> ran.Failure?))
      && (g.context == Unset <==> f.context.None?) && (g.time == Unset <==> f.time.None?) && (g.script == Unset <==> f.script == "")
  {
    if f.context.Some? { ContextFilterExactly(f.context.value, event.context); }
    hide FilterContext, ExprGroup, DataGroup;
  }

  // ----- the decision -----

  method Filter(lib: Lib, f: Option<Filters>, or: bool, event: Event) returns (ok: bool, err: Option<string>)
    ensures f.None? ==> ok && err == None
    ensures f.Some? ==> (ok <==> Decision(GroupsOf(lib, f.value, event), or))
    ensures f.Some? ==> (err.Some? <==> GroupsOf(lib, f.value, event).Errors() != [])
  {
    if f.None? { return true, None; }
    ok, err := FilterEvent(lib, f.value, or, event);
    if err.Some? { return false, err; }
  }

  /** What the code decides. */
  predicate Decision(g: Groups, or: bool) {
    g.Errors() == [] && if or then g.Has(Accepts) else !g.Has(Refuses)
  }

  /** What the documentation promises (docs/sensors/filters/intro.md): every configured group must
      accept, or in or-mode one of them, and a group in error counts as refusing. */
  ghost predicate Promised(g: Groups, or: bool) {
    if or then g.Has(Accepts) else forall x :: g.Has(x) ==> x == Accepts || x == Unset
  }

  /** The code keeps the promise exactly when it is not in or-mode with one group accepting and another
      in error; then it rejects an event that should pass. */
  lemma DecisionExactly(g: Groups, or: bool)
    ensures (Decision(g, or) <==> Promised(g, or)) <==> !(or && g.Has(Accepts) && g.Errors() != [])
    ensures Decision(g, or) ==> Promised(g, or)
  {
    NoErrorsExactly(g);
    assert g.Has(g.expr) && g.Has(g.data) && g.Has(g.context) && g.Has(g.time) && g.Has(g.script);
  }

  /** A data filter whose value matches beside an expression whose path is missing, in or-mode. */
  lemma ErrorOverridesAcceptance(lib: Lib, event: Event, missing: string, found: string, expected: string)
    requires event.data.Some? && lib.validJson(event.data.value)
    requires lib.get(event.data.value, missing).None? && lib.get(event.data.value, found).Some?
    requires lib.regexError(expected).None? && lib.matches(expected, lib.get(event.data.value, found).value)
    ensures var exprs := [ExprFilter([Field(missing, "x")], "x == 1")];
      var data := [DataFilter(found, StringType, [expected], Eq, "")];
      var g := GroupsOf(lib, Filters(Some(exprs), false, Some(data), false, None, None, ""), event);
      g.data == Accepts && g.expr.Errored? && Promised(g, true) && !Decision(g, true)
  {
    var exprs := [ExprFilter([Field(missing, "x")], "x == 1")];
    var data := [DataFilter(found, StringType, [expected], Eq, "")];
    var f := Filters(Some(exprs), false, Some(data), false, None, None, "");
    assert exprs[0].fields[0].path == missing;
    assert ExprVerdicts(lib, event.data.value, exprs)[0] == Err(MissingPath(missing));
    assert data[0].values[0] == expected;
    assert DataVerdicts(lib, event.data.value, false, data) == [Pass] && [Pass][1..] == [];
    assert ExprGroup(lib, f, event).Errored? && DataGroup(lib, f, event) == Accepts;
  }
}
