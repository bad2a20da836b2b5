/** Trigger parameters (pkg/sensors/triggers/params.go): resolving a value from an event and writing it
    into a JSON document. Reading and writing a path (gjson, sjson) and templates are a library given by
    its laws; documents are of any type `D`. */
module TriggerParams {
  import opened Wrappers

  const STRING_TYPE := "String"
  const JSON_TYPE := "JSON"
  const NULL_TYPE := "Null"

  /** What reading a path finds: the kind of value, its JSON text and its plain text. */
  datatype Found = Found(kind: string, raw: string, text: string)

  datatype Library<!D> = Library(
    empty: D,
    read: (D, string) -> Option<Found>,
    write: (D, string, string) -> Result<D, string>,
    writeRaw: (D, string, string) -> Result<D, string>,
    template: (D, string) -> Result<string, string>,
    plain: string -> bool,
    disjoint: (string, string) -> bool)

  /** Nothing is read from the empty document; a plain path reads back the string written to it; writing a
      path leaves disjoint ones alone. */
  ghost predicate Laws<D(!new)>(lib: Library<D>) {
    && (forall p :: lib.read(lib.empty, p).None?)
    && (forall d, p, v :: lib.plain(p) && lib.write(d, p, v).Success? ==>
          var found := lib.read(lib.write(d, p, v).value, p); found.Some? && found.value.text == v)
    && (forall d, p, q, v :: lib.disjoint(p, q) && lib.write(d, p, v).Success? ==>
          lib.read(lib.write(d, p, v).value, q) == lib.read(d, q))
    && (forall d, p, q, v :: lib.disjoint(p, q) && lib.writeRaw(d, p, v).Success? ==>
          lib.read(lib.writeRaw(d, p, v).value, q) == lib.read(d, q))
  }

  /** A received event: its context, its data as JSON if that can be had, and the whole as text. */
  datatype Event<!D> = Event(context: D, data: Result<D, string>, whole: Result<string, string>)

  datatype Source = Source(dependency: string, contextKey: string, contextTemplate: string, dataKey: string,
                           dataTemplate: string, useRawData: bool, value: Option<string>)

  datatype Operation = Unset | Overwrite | Append | Prepend | Other(name: string)

  datatype Parameter = Parameter(src: Source, dest: string, operation: Operation)

  /** A resolved value and its kind; `NoValue` is the nil result for a dependency that sent nothing. */
  datatype Resolved = Resolved(value: string, kind: string) | NoValue

  // ----- resolving a value -----

  predicate SelectsContext(src: Source) { src.contextKey != "" || src.contextTemplate != "" }

  predicate SelectsData(src: Source) { src.dataKey != "" || src.dataTemplate != "" }

  function GetValueByKey<D>(lib: Library<D>, doc: D, key: string): Result<Resolved, string> {
    match lib.read(doc, key)
    case Some(found) =>
      Success(Resolved(if found.kind == JSON_TYPE || found.kind == NULL_TYPE then found.raw else found.text, found.kind))
    case None => Failure("key does not exist")
  }

  function GetValueWithTemplate<D>(lib: Library<D>, doc: D, template: string): Result<Resolved, string> {
    var out :- lib.template(doc, template);
    if out == "" || out == "<no value>" then Failure("template evaluated to empty string or no value")
    else Success(Resolved(out, STRING_TYPE))
  }

  function OrDefault(src: Source, error: string): Result<Resolved, string> {
    if src.value.Some? then Success(Resolved(src.value.value, STRING_TYPE)) else Failure(error)
  }

  /** Template first, then key, then the default value. */
  function FromPayload<D>(lib: Library<D>, src: Source, doc: D, key: string, template: string): Result<Resolved, string> {
    var byTemplate := if template != "" then GetValueWithTemplate(lib, doc, template) else Failure("");
    if byTemplate.Success? then byTemplate
    else
      var byKey := if key != "" then GetValueByKey(lib, doc, key) else Failure("");
      if byKey.Success? then byKey else OrDefault(src, "unable to resolve")
  }

  function ResolveParamValue<D>(lib: Library<D>, src: Source, events: map<string, Event<D>>): Result<Resolved, string> {
    if src.dependency !in events then
      Success(if src.value.Some? then Resolved(src.value.value, STRING_TYPE) else NoValue)
    else
      var event := events[src.dependency];
      if SelectsData(src) then
        match event.data {
          case Success(doc) => FromPayload(lib, src, doc, src.dataKey, src.dataTemplate)
          case Failure(e) => OrDefault(src, e)
        }
      else if SelectsContext(src) then FromPayload(lib, src, event.context, src.contextKey, src.contextTemplate)
      else if src.value.Some? then Success(Resolved(src.value.value, STRING_TYPE))
      else
        match event.whole {
          case Success(text) => Success(Resolved(text, STRING_TYPE))
          case Failure(e) => Failure(e)
        }
  }

  /** The document a source selects from. */
  function Payload<D>(src: Source, event: Event<D>): Result<D, string> {
    if SelectsData(src) then event.data else Success(event.context)
  }

  /** The selection itself yields a value, whatever the default. */
  predicate Selects<D>(lib: Library<D>, src: Source, event: Event<D>) {
    if !SelectsData(src) && !SelectsContext(src) then event.whole.Success?
    else
      var key := if SelectsData(src) then src.dataKey else src.contextKey;
      var template := if SelectsData(src) then src.dataTemplate else src.contextTemplate;
      && Payload(src, event).Success?
      && ((template != "" && GetValueWithTemplate(lib, Payload(src, event).value, template).Success?)
          || (key != "" && lib.read(Payload(src, event).value, key).Some?))
  }

  /** Resolving gives nil exactly for a silent dependency without a default, fails exactly for one that
      sent an event the selection does not match, again without a default, and otherwise has a value. */
  lemma ResolveExactly<D>(lib: Library<D>, src: Source, events: map<string, Event<D>>)
    ensures var r := ResolveParamValue(lib, src, events);
      && (r == Success(NoValue) <==> src.dependency !in events && src.value.None?)
      && (r.Failure? <==> src.dependency in events && src.value.None? && !Selects(lib, src, events[src.dependency]))
  {
  }

  // ----- applying parameters -----


  function Write<D>(lib: Library<D>, doc: D, dest: string, value: string, raw: bool): Result<D, string> {
    if raw then lib.writeRaw(doc, dest, value) else lib.write(doc, dest, value)
  }

  /** One parameter with a value. */
  function ApplyValue<D>(lib: Library<D>, doc: D, p: Parameter, r: Resolved): Result<D, string>
    requires r.Resolved?
  {
    var current := lib.read(doc, p.dest);
    var raw := r.kind != STRING_TYPE && p.src.useRawData;
    match p.operation
    case Append =>
      if current.Some? then lib.write(doc, p.dest, current.value.text + r.value) else Write(lib, doc, p.dest, r.value, raw)
    case Prepend =>
      if current.Some? then lib.write(doc, p.dest, r.value + current.value.text) else Write(lib, doc, p.dest, r.value, raw)
    case Overwrite => Write(lib, doc, p.dest, r.value, raw)
    case Unset => Write(lib, doc, p.dest, r.value, raw)
    case Other(name) => Failure("unsupported trigger parameter operation: " + name)
  }

  function ApplyParam<D>(lib: Library<D>, doc: D, p: Parameter, events: map<string, Event<D>>): Result<D, string> {
    var r :- ResolveParamValue(lib, p.src, events);
    if r.NoValue? then Success(doc) else ApplyValue(lib, doc, p, r)
  }

  function Applied<D>(lib: Library<D>, doc: D, params: seq<Parameter>, events: map<string, Event<D>>): Result<D, string> {
    if params == [] then Success(doc)
    else
      var before :- Applied(lib, doc, params[..|params| - 1], events);
      ApplyParam(lib, before, params[|params| - 1], events)
  }

  method ApplyParams<D>(lib: Library<D>, jsonObj: D, params: seq<Parameter>, events: map<string, Event<D>>)
    returns (r: Result<D, string>)
    ensures r == Applied(lib, jsonObj, params, events)
  {
    hide ResolveParamValue, Applied;
    var doc := jsonObj;
    assert Applied(lib, jsonObj, params[..0], events) == Success(doc) by { AppliedNone(lib, jsonObj, events); }
    for i := 0 to |params|
      invariant Applied(lib, jsonObj, params[..i], events) == Success(doc)
    {
      var p := params[i];
      AppliedNext(lib, jsonObj, params, events, i);
      var resolved := ResolveParamValue(lib, p.src, events);
      if resolved.Failure? {
        FailsFrom(lib, jsonObj, params, events, i + 1);
        return Failure(resolved.error);
      }
      if resolved.value.NoValue? { continue; }
      var value, kind := resolved.value.value, resolved.value.kind;
      match p.operation {
        case Append | Prepend =>
          match lib.read(doc, p.dest) {
            case Some(current) =>
              kind := STRING_TYPE;
              value := if p.operation == Append then current.text + value else value + current.text;
            case None =>
          }
        case Overwrite | Unset =>
        case Other(name) =>
          FailsFrom(lib, jsonObj, params, events, i + 1);
          return Failure("unsupported trigger parameter operation: " + name);
      }
      var tmp := if kind != STRING_TYPE && p.src.useRawData then lib.writeRaw(doc, p.dest, value) else lib.write(doc, p.dest, value);
      if tmp.Failure? {
        FailsFrom(lib, jsonObj, params, events, i + 1);
        return tmp;
      }
      doc := tmp.value;
    }
    assert params[..|params|] == params;
    return Success(doc);
  }

  lemma AppliedNone<D>(lib: Library<D>, doc: D, events: map<string, Event<D>>)
    ensures Applied(lib, doc, [], events) == Success(doc)
  {
  }

  lemma AppliedNext<D>(lib: Library<D>, doc: D, params: seq<Parameter>, events: map<string, Event<D>>, i: nat)
    requires i < |params| && Applied(lib, doc, params[..i], events).Success?
    ensures Applied(lib, doc, params[..i + 1], events)
      == ApplyParam(lib, Applied(lib, doc, params[..i], events).value, params[i], events)
  {
    hide ApplyParam;
    assert params[..i + 1][..i] == params[..i];
  }

  lemma {:induction false} FailsFrom<D>(lib: Library<D>, doc: D, params: seq<Parameter>, events: map<string, Event<D>>, n: nat)
    requires n <= |params| && Applied(lib, doc, params[..n], events).Failure?
    ensures Applied(lib, doc, params, events) == Applied(lib, doc, params[..n], events)
    decreases |params| - n
  {
    if n == |params| {
      assert params[..n] == params;
    } else {
      assert params[..n + 1][..n] == params[..n];
      FailsFrom(lib, doc, params, events, n + 1);
    }
  }

  // ----- what the parameters leave behind -----

  /** The plain text at a path, nothing being the empty text. */
  function TextAt<D>(lib: Library<D>, doc: D, p: string): string {
    var found := lib.read(doc, p);
    if found.Some? then found.value.text else ""
  }

  predicate Extends(p: Parameter) { p.operation == Append || p.operation == Prepend }

  /** The parameter has a value to write, given the events. */
  predicate HasValue<D>(lib: Library<D>, p: Parameter, events: map<string, Event<D>>) {
    var r := ResolveParamValue(lib, p.src, events);
    r.Success? && r.value.Resolved?
  }

  /** The values appended to (or prepended to) a destination, in the order they are given. */
  function Values<D>(lib: Library<D>, params: seq<Parameter>, events: map<string, Event<D>>, dest: string,
                     operation: Operation): seq<string> {
    if params == [] then []
    else
      var p := params[|params| - 1];
      var before := Values(lib, params[..|params| - 1], events, dest, operation);
      if p.dest == dest && p.operation == operation && HasValue(lib, p, events)
      then before + [ResolveParamValue(lib, p.src, events).value.value] else before
  }

  function Concat(parts: seq<string>): string {
    if parts == [] then "" else Concat(parts[..|parts| - 1]) + parts[|parts| - 1]
  }

  function ConcatReversed(parts: seq<string>): string {
    if parts == [] then "" else parts[|parts| - 1] + ConcatReversed(parts[..|parts| - 1])
  }

  /** Every parameter either extends `dest` without injecting raw JSON, or writes a destination apart. */
  ghost predicate OnlyExtends<D>(lib: Library<D>, params: seq<Parameter>, dest: string) {
    forall i :: 0 <= i < |params| ==>
      if params[i].dest == dest then Extends(params[i]) && !params[i].src.useRawData else lib.disjoint(params[i].dest, dest)
  }

  /** Any interleaving of appends and prepends, among parameters with other destinations and parameters
      without a value: the prepended texts in reverse order, then the old text, then the appended texts
      in order. */
  lemma {:induction false} AppendsAndPrepends<D(!new)>(lib: Library<D>, doc: D, params: seq<Parameter>,
                                                      events: map<string, Event<D>>, dest: string)
    requires Laws(lib) && lib.plain(dest) && OnlyExtends(lib, params, dest)
    requires Applied(lib, doc, params, events).Success?
    ensures TextAt(lib, Applied(lib, doc, params, events).value, dest)
      == ConcatReversed(Values(lib, params, events, dest, Prepend)) + TextAt(lib, doc, dest)
         + Concat(Values(lib, params, events, dest, Append))
  {
    hide Laws, ResolveParamValue, TextAt;
    if params == [] {
    } else {
      var n := |params| - 1;
      var p, before := params[n], Applied(lib, doc, params[..n], events).value;
      AppendsAndPrepends(lib, doc, params[..n], events, dest);
      ExtendOne(lib, before, p, events, dest);
      ExtendedText(lib, params, events, dest, TextAt(lib, doc, dest));
    }
  }

  /** The text a parameter puts before and after what `dest` holds. */
  function Before<D>(lib: Library<D>, p: Parameter, events: map<string, Event<D>>, dest: string): string {
    if p.dest == dest && p.operation == Prepend && HasValue(lib, p, events)
    then ResolveParamValue(lib, p.src, events).value.value else ""
  }

  function After<D>(lib: Library<D>, p: Parameter, events: map<string, Event<D>>, dest: string): string {
    if p.dest == dest && p.operation == Append && HasValue(lib, p, events)
    then ResolveParamValue(lib, p.src, events).value.value else ""
  }

  lemma ExtendOne<D(!new)>(lib: Library<D>, doc: D, p: Parameter, events: map<string, Event<D>>, dest: string)
    requires Laws(lib) && lib.plain(dest)
    requires if p.dest == dest then Extends(p) && !p.src.useRawData else lib.disjoint(p.dest, dest)
    requires ApplyParam(lib, doc, p, events).Success?
    ensures TextAt(lib, ApplyParam(lib, doc, p, events).value, dest)
      == Before(lib, p, events, dest) + TextAt(lib, doc, dest) + After(lib, p, events, dest)
  {
    hide ResolveParamValue;
  }

  lemma ExtendedText<D>(lib: Library<D>, params: seq<Parameter>, events: map<string, Event<D>>, dest: string, text: string)
    requires params != []
    ensures var n := |params| - 1;
      Before(lib, params[n], events, dest)
      + (ConcatReversed(Values(lib, params[..n], events, dest, Prepend)) + text
         + Concat(Values(lib, params[..n], events, dest, Append)))
      + After(lib, params[n], events, dest)
      == ConcatReversed(Values(lib, params, events, dest, Prepend)) + text + Concat(Values(lib, params, events, dest, Append))
  {
    var n := |params| - 1;
    ExtendedBefore(lib, params, events, dest);
    ExtendedAfter(lib, params, events, dest);
    hide Before, After, Values, Concat, ConcatReversed;
    Regroup(Before(lib, params[n], events, dest), ConcatReversed(Values(lib, params[..n], events, dest, Prepend)), text,
            Concat(Values(lib, params[..n], events, dest, Append)), After(lib, params[n], events, dest));
  }

  lemma ExtendedBefore<D>(lib: Library<D>, params: seq<Parameter>, events: map<string, Event<D>>, dest: string)
    requires params != []
    ensures ConcatReversed(Values(lib, params, events, dest, Prepend))
      == Before(lib, params[|params| - 1], events, dest)
         + ConcatReversed(Values(lib, params[..|params| - 1], events, dest, Prepend))
  {
    hide ResolveParamValue, HasValue;
    var pre := Values(lib, params[..|params| - 1], events, dest, Prepend);
    assert forall x: string :: (pre + [x])[..|pre|] == pre;
  }

  lemma ExtendedAfter<D>(lib: Library<D>, params: seq<Parameter>, events: map<string, Event<D>>, dest: string)
    requires params != []
    ensures Concat(Values(lib, params, events, dest, Append))
      == Concat(Values(lib, params[..|params| - 1], events, dest, Append)) + After(lib, params[|params| - 1], events, dest)
  {
    hide ResolveParamValue, HasValue;
    var app := Values(lib, params[..|params| - 1], events, dest, Append);
    assert forall x: string :: (app + [x])[..|app|] == app;
  }

  lemma Regroup(a: string, b: string, c: string, d: string, e: string)
    ensures a + (b + c + d) + e == (a + b) + c + (d + e)
  {
  }

  /** A destination apart from those of all parameters that have a value is left as it was. */
  lemma {:induction false} DisjointUntouched<D(!new)>(lib: Library<D>, doc: D, params: seq<Parameter>,
                                                     events: map<string, Event<D>>, q: string)
    requires Laws(lib) && Applied(lib, doc, params, events).Success?
    requires forall i :: 0 <= i < |params| && HasValue(lib, params[i], events) ==> lib.disjoint(params[i].dest, q)
    ensures lib.read(Applied(lib, doc, params, events).value, q) == lib.read(doc, q)
  {
    hide ResolveParamValue;
    if params == [] {
    } else {
      DisjointUntouched(lib, doc, params[..|params| - 1], events, q);
    }
  }

  /** The parameters that do not resolve to nil. */
  function Resolving<D>(lib: Library<D>, params: seq<Parameter>, events: map<string, Event<D>>): seq<Parameter> {
    if params == [] then []
    else
      var p := params[|params| - 1];
      var before := Resolving(lib, params[..|params| - 1], events);
      if ResolveParamValue(lib, p.src, events) == Success(NoValue) then before else before + [p]
  }

  /** Parameters without a value, anywhere among others, could as well not be there. */
  lemma {:induction false} UnresolvedChangeNothing<D>(lib: Library<D>, doc: D, params: seq<Parameter>,
                                                     events: map<string, Event<D>>)
    ensures Applied(lib, doc, params, events) == Applied(lib, doc, Resolving(lib, params, events), events)
  {
    hide ResolveParamValue;
    if params == [] {
    } else {
      var n := |params| - 1;
      var before := Resolving(lib, params[..n], events);
      UnresolvedChangeNothing(lib, doc, params[..n], events);
      assert (before + [params[n]])[..|before|] == before;
    }
  }

  // ----- what one parameter writes -----

  predicate IsOutput(out: string) { out != "" && out != "<no value>" }

  /** `doc` is what a source selects from, with this key and this template: the data if it names a data key or
      a data template, else the context. */
  ghost predicate From<D>(src: Source, event: Event<D>, doc: D, key: string, template: string) {
    if src.dataKey != "" || src.dataTemplate != "" then
      event.data == Success(doc) && key == src.dataKey && template == src.dataTemplate
    else
      && (src.contextKey != "" || src.contextTemplate != "")
      && doc == event.context && key == src.contextKey && template == src.contextTemplate
  }

  predicate SelectsNothing(src: Source) {
    src.dataKey == "" && src.dataTemplate == "" && src.contextKey == "" && src.contextTemplate == ""
  }

  /** How a value found in a document is written by a parameter that overwrites: blocks and null in their JSON
      form, and anything but a string injected as JSON if asked for; the rest as plain text. */
  function FoundAs<D>(lib: Library<D>, doc: D, p: Parameter, found: Found): Result<D, string> {
    var text := if found.kind == "JSON" || found.kind == "Null" then found.raw else found.text;
    if p.src.useRawData && found.kind != "String" then lib.writeRaw(doc, p.dest, text) else lib.write(doc, p.dest, text)
  }

  predicate Overwrites(p: Parameter) { p.operation == Unset || p.operation == Overwrite }

  lemma AppliedOne<D>(lib: Library<D>, doc: D, p: Parameter, events: map<string, Event<D>>)
    ensures Applied(lib, doc, [p], events) == ApplyParam(lib, doc, p, events)
  {
    hide ApplyParam;
    assert [p][..0] == [];
    assert Applied(lib, doc, [p][..0], events) == Success(doc);
  }

  /** A parameter that overwrites, for a dependency that has sent an event. The template's output comes first,
      then what the key finds, then the default; and where nothing is selected the default, or else the whole
      event. */
  lemma WritesFromEvent<D>(lib: Library<D>, doc: D, p: Parameter, events: map<string, Event<D>>, d: D, key: string, template: string)
    requires Overwrites(p) && p.src.dependency in events && From(p.src, events[p.src.dependency], d, key, template)
    ensures var result, out := Applied(lib, doc, [p], events), lib.template(d, template);
      && (template != "" && out.Success? && IsOutput(out.value) ==> result == lib.write(doc, p.dest, out.value))
      && (!(template != "" && out.Success? && IsOutput(out.value)) && key != "" && lib.read(d, key).Some? ==>
            result == FoundAs(lib, doc, p, lib.read(d, key).value))
      && (!(template != "" && out.Success? && IsOutput(out.value)) && !(key != "" && lib.read(d, key).Some?) && p.src.value.Some? ==>
            result == lib.write(doc, p.dest, p.src.value.value))
  {
    hide Applied, ApplyParam, FromPayload;
    AppliedOne(lib, doc, p, events);
    ResolvesFrom(lib, p.src, events, d, key, template);
    PayloadCases(lib, p.src, d, key, template);
    AppliesResolved(lib, doc, p, events);
  }

  lemma ResolvesFrom<D>(lib: Library<D>, src: Source, events: map<string, Event<D>>, d: D, key: string, template: string)
    requires src.dependency in events && From(src, events[src.dependency], d, key, template)
    ensures ResolveParamValue(lib, src, events) == FromPayload(lib, src, d, key, template)
  {
    hide FromPayload;
  }

  lemma PayloadCases<D>(lib: Library<D>, src: Source, d: D, key: string, template: string)
    ensures var r, out := FromPayload(lib, src, d, key, template), lib.template(d, template);
      var byTemplate := template != "" && out.Success? && IsOutput(out.value);
      && (byTemplate ==> r == Success(Resolved(out.value, "String")))
      && (!byTemplate && key != "" && lib.read(d, key).Some? ==>
            var found := lib.read(d, key).value;
            r == Success(Resolved(if found.kind == "JSON" || found.kind == "Null" then found.raw else found.text, found.kind)))
      && (!byTemplate && !(key != "" && lib.read(d, key).Some?) && src.value.Some? ==>
            r == Success(Resolved(src.value.value, "String")))
  {
  }

  /** A resolved value is written raw if asked for and not a string. */
  lemma AppliesResolved<D>(lib: Library<D>, doc: D, p: Parameter, events: map<string, Event<D>>)
    requires Overwrites(p)
    ensures var r := ResolveParamValue(lib, p.src, events);
      r.Success? && r.value.Resolved? ==>
        ApplyParam(lib, doc, p, events)
          == if p.src.useRawData && r.value.kind != "String" then lib.writeRaw(doc, p.dest, r.value.value)
             else lib.write(doc, p.dest, r.value.value)
  {
    hide ResolveParamValue;
  }

  /** The remaining cases: a silent dependency, data that cannot be had, and nothing selected. */
  lemma WritesOtherwise<D>(lib: Library<D>, doc: D, p: Parameter, events: map<string, Event<D>>)
    requires Overwrites(p)
    ensures var result, src := Applied(lib, doc, [p], events), p.src;
      && (src.dependency !in events ==>
            result == if src.value.Some? then lib.write(doc, p.dest, src.value.value) else Success(doc))
      && (src.dependency in events && (src.dataKey != "" || src.dataTemplate != "") && events[src.dependency].data.Failure? ==>
            src.value.Some? ==> result == lib.write(doc, p.dest, src.value.value))
      && (src.dependency in events && SelectsNothing(src) && src.value.Some? ==> result == lib.write(doc, p.dest, src.value.value))
      && (src.dependency in events && SelectsNothing(src) && src.value.None? && events[src.dependency].whole.Success? ==>
            result == lib.write(doc, p.dest, events[src.dependency].whole.value))
  {
    AppliedOne(lib, doc, p, events);
  }

  /** Under the laws the destination then holds what was written: for a plain parameter with a data key, the
      plain text found there, or the JSON form of a block or of null. */
  lemma HoldsDataAtKey<D(!new)>(lib: Library<D>, doc: D, p: Parameter, events: map<string, Event<D>>, d: D)
    requires Laws(lib) && lib.plain(p.dest) && Overwrites(p) && !p.src.useRawData && p.src.dependency in events
    requires events[p.src.dependency].data == Success(d) && p.src.dataKey != "" && p.src.dataTemplate == ""
    requires lib.read(d, p.src.dataKey).Some? && Applied(lib, doc, [p], events).Success?
    ensures var found := lib.read(d, p.src.dataKey).value;
      TextAt(lib, Applied(lib, doc, [p], events).value, p.dest)
        == if found.kind == "JSON" || found.kind == "Null" then found.raw else found.text
  {
    hide Applied, ResolveParamValue;
    WritesFromEvent(lib, doc, p, events, d, p.src.dataKey, "");
  }

  /** The name in {"name":"bob"} is written without its quotes. */
  lemma NameWithoutQuotes(doc: map<string, Found>)
    ensures var event := Event(map[], Success(map["name" := Found("String", "\"bob\"", "bob")]), Failure(""));
      var p := Parameter(Source("dep", "", "", "name", "", false, None), "spec.name", Unset);
      var result := Applied(FlatLibrary(), doc, [p], map["dep" := event]);
      result.Success? && TextAt(FlatLibrary(), result.value, "spec.name") == "bob"
  {
    var data := map["name" := Found("String", "\"bob\"", "bob")];
    var event := Event(map[], Success(data), Failure(""));
    var p := Parameter(Source("dep", "", "", "name", "", false, None), "spec.name", Unset);
    hide Applied, ResolveParamValue;
    WritesFromEvent(FlatLibrary(), doc, p, map["dep" := event], data, "name", "");
  }

  // ----- payloads -----

  /** What building a payload comes to. The nil value of a silent dependency is dereferenced, which
      stops the process. */
  datatype Outcome<!D> = Built(doc: D) | Whole(text: string) | Failed(error: string) | Panicked

  function PayloadStep<D>(lib: Library<D>, doc: D, p: Parameter, events: map<string, Event<D>>): Outcome<D> {
    match ResolveParamValue(lib, p.src, events)
    case Failure(e) => Failed(e)
    case Success(NoValue) => if p.dest == "" then Built(doc) else Panicked
    case Success(Resolved(value, kind)) =>
      if p.dest == "" then Whole(value)
      else
        match Write(lib, doc, p.dest, value, kind != STRING_TYPE && p.src.useRawData)
        case Success(d) => Built(d)
        case Failure(e) => Failed(e)
  }

  function PayloadOf<D>(lib: Library<D>, params: seq<Parameter>, events: map<string, Event<D>>): Outcome<D> {
    if params == [] then Built(lib.empty)
    else
      match PayloadOf(lib, params[..|params| - 1], events)
      case Built(doc) => PayloadStep(lib, doc, params[|params| - 1], events)
      case other => other
  }

  method ConstructPayload<D>(lib: Library<D>, params: seq<Parameter>, events: map<string, Event<D>>) returns (r: Outcome<D>)
    ensures r == PayloadOf(lib, params, events)
  {
    hide ResolveParamValue;
    var payload := lib.empty;
    for i := 0 to |params|
      invariant PayloadOf(lib, params[..i], events) == Built(payload)
    {
      assert params[..i + 1][..i] == params[..i];
      var p := params[i];
      var resolved := ResolveParamValue(lib, p.src, events);
      if resolved.Failure? {
        EndsFrom(lib, params, events, i + 1);
        return Failed(resolved.error);
      }
      if p.dest == "" {
        if resolved.value.Resolved? {
          EndsFrom(lib, params, events, i + 1);
          return Whole(resolved.value.value);
        }
        continue;
      }
      if resolved.value.NoValue? {
        EndsFrom(lib, params, events, i + 1);
        return Panicked;
      }
      var value, kind := resolved.value.value, resolved.value.kind;
      var tmp := if kind != STRING_TYPE && p.src.useRawData then lib.writeRaw(payload, p.dest, value) else lib.write(payload, p.dest, value);
      if tmp.Failure? {
        EndsFrom(lib, params, events, i + 1);
        return Failed(tmp.error);
      }
      payload := tmp.value;
    }
    assert params[..|params|] == params;
    r := Built(payload);
  }

  lemma {:induction false} EndsFrom<D>(lib: Library<D>, params: seq<Parameter>, events: map<string, Event<D>>, n: nat)
    requires n <= |params| && !PayloadOf(lib, params[..n], events).Built?
    ensures PayloadOf(lib, params, events) == PayloadOf(lib, params[..n], events)
    decreases |params| - n
  {
    hide PayloadStep;
    if n == |params| {
      assert params[..n] == params;
    } else {
      assert params[..n + 1][..n] == params[..n];
      EndsFrom(lib, params, events, n + 1);
    }
  }

  /** The parameter names a destination but its dependency is silent and there is no default. */
  predicate Dangling<D>(p: Parameter, events: map<string, Event<D>>) {
    p.dest != "" && p.src.dependency !in events && p.src.value.None?
  }

  lemma StepPanics<D>(lib: Library<D>, doc: D, p: Parameter, events: map<string, Event<D>>)
    ensures PayloadStep(lib, doc, p, events).Panicked? <==> Dangling(p, events)
  {
    ResolveExactly(lib, p.src, events);
    hide ResolveParamValue, Selects;
  }

  /** Building a payload crashes exactly when it gets as far as a dangling parameter, which applying
      parameters would only skip. */
  lemma {:induction false} PanicsExactly<D>(lib: Library<D>, params: seq<Parameter>, events: map<string, Event<D>>)
    ensures PayloadOf(lib, params, events).Panicked?
      <==> exists i :: 0 <= i < |params| && PayloadOf(lib, params[..i], events).Built? && Dangling(params[i], events)
  {
    if params == [] {
    } else {
      var n := |params| - 1;
      PanicsExactly(lib, params[..n], events);
      var before := PayloadOf(lib, params[..n], events);
      if before.Built? { StepPanics(lib, before.doc, params[n], events); }
      hide PayloadStep, Dangling;
      forall i | 0 <= i < n
        ensures params[..n][..i] == params[..i] && params[..n][i] == params[i]
      {
      }
    }
  }

  /** For example under the condition `a || b`, when only `b` has sent an event. */
  lemma OneDanglingPanics(event: Event<map<string, Found>>)
    ensures var src := Source("a", "", "", "key", "", false, None);
      PayloadOf(FlatLibrary(), [Parameter(src, "x", Unset)], map["b" := event]).Panicked?
  {
    var params := [Parameter(Source("a", "", "", "key", "", false, None), "x", Unset)];
    assert params[..|params| - 1] == [];
  }

  function AsOverwrite(params: seq<Parameter>): seq<Parameter> {
    seq(|params|, i requires 0 <= i < |params| => params[i].(operation := Overwrite))
  }

  /** Building a payload takes every parameter as one that overwrites. */
  lemma {:induction false} PayloadIgnoresOperations<D>(lib: Library<D>, params: seq<Parameter>, events: map<string, Event<D>>)
    ensures PayloadOf(lib, params, events) == PayloadOf(lib, AsOverwrite(params), events)
  {
    hide ResolveParamValue;
    if params == [] {
    } else {
      var n := |params| - 1;
      PayloadIgnoresOperations(lib, params[..n], events);
      assert AsOverwrite(params)[..n] == AsOverwrite(params[..n]);
    }
  }

  /** Unless it crashes or a raw value is the whole payload, building a payload is applying the parameters,
      each as one that overwrites, to the empty document. */
  lemma {:induction false} PayloadIsApplied<D>(lib: Library<D>, params: seq<Parameter>, events: map<string, Event<D>>)
    requires forall i :: 0 <= i < |params| ==>
      !Dangling(params[i], events) && (params[i].dest == "" ==> !HasValue(lib, params[i], events))
    ensures var r := Applied(lib, lib.empty, AsOverwrite(params), events);
      PayloadOf(lib, params, events) == if r.Success? then Built(r.value) else Failed(r.error)
  {
    if params == [] {
    } else {
      var n := |params| - 1;
      PayloadIsApplied(lib, params[..n], events);
      assert AsOverwrite(params)[..n] == AsOverwrite(params[..n]);
      ResolveExactly(lib, params[n].src, events);
      hide ResolveParamValue, Selects;
    }
  }

  /** The values at work at a destination: the last one that overwrites and all that extend it since. */
  function Pieces<D>(lib: Library<D>, params: seq<Parameter>, events: map<string, Event<D>>, dest: string): seq<string> {
    if params == [] then []
    else
      var p := params[|params| - 1];
      var before := Pieces(lib, params[..|params| - 1], events, dest);
      if p.dest == dest && HasValue(lib, p, events) then
        (if Extends(p) then before else []) + [ResolveParamValue(lib, p.src, events).value.value]
      else before
  }

  /** Every parameter writes `dest` without injecting raw JSON, or a destination apart. */
  ghost predicate PlainAt<D>(lib: Library<D>, params: seq<Parameter>, dest: string) {
    forall i :: 0 <= i < |params| ==>
      if params[i].dest == dest then !params[i].src.useRawData else lib.disjoint(params[i].dest, dest)
  }

  function Last(parts: seq<string>): string { if parts == [] then "" else parts[|parts| - 1] }

  predicate OnlyLast(parts: seq<string>) { forall i :: 0 <= i < |parts| - 1 ==> parts[i] == "" }

  /** A payload holds the last value alone. */
  lemma {:induction false} PayloadText<D(!new)>(lib: Library<D>, params: seq<Parameter>, events: map<string, Event<D>>, dest: string)
    requires Laws(lib) && lib.plain(dest) && dest != "" && PlainAt(lib, params, dest) && PayloadOf(lib, params, events).Built?
    ensures TextAt(lib, PayloadOf(lib, params, events).doc, dest) == Last(Pieces(lib, params, events, dest))
  {
    hide ResolveParamValue;
    if params == [] {
    } else {
      PayloadText(lib, params[..|params| - 1], events, dest);
    }
  }

  /** Applying parameters keeps all of them. */
  lemma {:induction false} AppliedText<D(!new)>(lib: Library<D>, params: seq<Parameter>, events: map<string, Event<D>>, dest: string)
    requires Laws(lib) && lib.plain(dest) && PlainAt(lib, params, dest) && Applied(lib, lib.empty, params, events).Success?
    ensures var text, pieces := TextAt(lib, Applied(lib, lib.empty, params, events).value, dest), Pieces(lib, params, events, dest);
      |text| == |Concat(pieces)| && (OnlyLast(pieces) ==> text == Last(pieces))
  {
    if params == [] {
    } else {
      var n := |params| - 1;
      AppliedText(lib, params[..n], events, dest);
      var p, before := params[n], Pieces(lib, params[..n], events, dest);
      AppliedTextStep(lib, Applied(lib, lib.empty, params[..n], events).value, p, events, dest);
      hide ResolveParamValue, Laws, ApplyParam, TextAt;
      if p.dest == dest && HasValue(lib, p, events) {
        OneMorePiece(before, ResolveParamValue(lib, p.src, events).value.value);
      }
    }
  }

  lemma AppliedTextStep<D(!new)>(lib: Library<D>, doc: D, p: Parameter, events: map<string, Event<D>>, dest: string)
    requires Laws(lib) && lib.plain(dest) && ApplyParam(lib, doc, p, events).Success?
    requires if p.dest == dest then !p.src.useRawData else lib.disjoint(p.dest, dest)
    ensures var text, was := TextAt(lib, ApplyParam(lib, doc, p, events).value, dest), TextAt(lib, doc, dest);
      if p.dest == dest && HasValue(lib, p, events) then
        var v := ResolveParamValue(lib, p.src, events).value.value;
        text == if p.operation == Append then was + v else if p.operation == Prepend then v + was else v
      else text == was
  {
    hide ResolveParamValue;
  }

  lemma OneMorePiece(before: seq<string>, v: string)
    ensures Concat(before + [v]) == Concat(before) + v && Concat([v]) == v
    ensures OnlyLast(before + [v]) ==> OnlyLast(before) && Last(before) == ""
  {
    assert (before + [v])[..|before|] == before && [v][..0] == [];
    assert forall i :: 0 <= i < |before| ==> (before + [v])[i] == before[i];
  }

  lemma {:induction false} OnlyLastByLength(parts: seq<string>)
    ensures |Concat(parts)| == |Last(parts)| <==> OnlyLast(parts)
    ensures |Concat(parts)| == 0 <==> forall i :: 0 <= i < |parts| ==> parts[i] == ""
  {
    if parts != [] { OnlyLastByLength(parts[..|parts| - 1]); }
  }

  /** A payload and the application of the same parameters to the empty document hold the same text at a
      destination exactly when, of the values at work there, all but the last are empty: a value that extends
      another replaces it in a payload. */
  lemma PayloadAgreesExactly<D(!new)>(lib: Library<D>, params: seq<Parameter>, events: map<string, Event<D>>, dest: string)
    requires Laws(lib) && lib.plain(dest) && dest != "" && PlainAt(lib, params, dest)
    requires PayloadOf(lib, params, events).Built? && Applied(lib, lib.empty, params, events).Success?
    ensures TextAt(lib, PayloadOf(lib, params, events).doc, dest)
        == TextAt(lib, Applied(lib, lib.empty, params, events).value, dest)
      <==> OnlyLast(Pieces(lib, params, events, dest))
  {
    PayloadText(lib, params, events, dest);
    AppliedText(lib, params, events, dest);
    OnlyLastByLength(Pieces(lib, params, events, dest));
  }

  /** "x" is written and "y" appended to it: a payload holds "y" where applying the parameters gives "xy". */
  lemma AppendOverwritesInPayload(event: Event<map<string, Found>>)
    ensures var x, y := Source("b", "", "", "", "", false, Some("x")), Source("b", "", "", "", "", false, Some("y"));
      var params, events := [Parameter(x, "p", Overwrite), Parameter(y, "p", Append)], map["b" := event];
      && PayloadOf(FlatLibrary(), params, events).Built? && Applied(FlatLibrary(), map[], params, events).Success?
      && TextAt(FlatLibrary(), PayloadOf(FlatLibrary(), params, events).doc, "p") == "y"
      && TextAt(FlatLibrary(), Applied(FlatLibrary(), map[], params, events).value, "p") == "xy"
  {
    var x, y := Source("b", "", "", "", "", false, Some("x")), Source("b", "", "", "", "", false, Some("y"));
    var params, events := [Parameter(x, "p", Overwrite), Parameter(y, "p", Append)], map["b" := event];
    var lib := FlatLibrary();
    assert params[..1] == [params[0]] && [params[0]][..0] == [];
    assert PayloadOf(lib, [params[0]], events).Built? && Applied(lib, map[], [params[0]], events).Success?;
    assert "x" + "y" == "xy";
  }

  // ----- the laws can be met -----

  /** Documents that are flat: each path holds one text. */
  function FlatLibrary(): Library<map<string, Found>> {
    Library(map[],
      (d: map<string, Found>, p) => if p in d then Some(d[p]) else None,
      (d: map<string, Found>, p, v) => Success(d[p := Found(STRING_TYPE, "\"" + v + "\"", v)]),
      (d: map<string, Found>, p, v) => Success(d[p := Found(JSON_TYPE, v, v)]),
      (d, t) => Failure("no templates"), p => true, (p, q) => p != q)
  }

  lemma FlatLibraryMeetsLaws()
    ensures Laws(FlatLibrary())
  {
  }
}
