/** Translation of a trigger's conditions (pkg/sensors/listener.go, getDependencyExpression).

    The condition is rewritten, by five chained replacements, into a program that concatenates
    strings; running that program gives the condition back with the declared dependency names in it.
    Of the expression library only identifiers, plain string literals and `+` are modelled. */
module DependencyExpression {
  import opened Strings
  import opened Wrappers

  // ----- the translation -----

  const AND_CODE := " + \"&&\" + "
  const OR_CODE := " + \"||\" + "
  const OPEN_CODE := "\"(\"+"
  const CLOSE_CODE := "+\")\""

  function Replace1(s: string): string { ReplaceAll(s, "&&", AND_CODE) }
  function Replace2(s: string): string { ReplaceAll(s, "||", OR_CODE) }
  function Replace3(s: string): string { ReplaceAll(s, "-", "_") }
  function Replace4(s: string): string { ReplaceAll(s, "(", OPEN_CODE) }
  function Replace5(s: string): string { ReplaceAll(s, ")", CLOSE_CODE) }

  function Rewrite(condition: string): string {
    Replace5(Replace4(Replace3(Replace2(Replace1(condition)))))
  }

  type Env = map<string, string>

  function Key(name: string): string { Replace3(name) }

  /** Later dependencies overwrite earlier ones whose key is the same. */
  function DependencyEnv(deps: seq<string>): Env {
    if deps == [] then map[]
    else DependencyEnv(deps[..|deps| - 1])[Key(deps[|deps| - 1]) := deps[|deps| - 1]]
  }

  /** `unknown` is what the library makes of an identifier missing from the environment. */
  function Translate(condition: string, env: Env, keywords: set<string>, unknown: Result<string, string>)
    : Result<string, string>
  {
    var program :- Lex(Rewrite(condition), keywords);
    var text :- Run(program, env, unknown, true);
    Success(ReplaceAll(ReplaceAll(text, "\"(\"", "("), "\")\"", ")"))
  }

  // ----- the expression library -----

  predicate IsBlank(c: char) { c == ' ' || c == '\t' || c == '\n' || c == '\r' }

  predicate IsIdentChar(c: char) {
    'a' <= c <= 'z' || 'A' <= c <= 'Z' || '0' <= c <= '9' || c == '_'
  }

  predicate IsIdentStart(c: char) { IsIdentChar(c) && !('0' <= c <= '9') }

  datatype Code = Plus | Ident(name: string) | Literal(text: string)

  /** Length of the longest prefix of characters satisfying `p`. */
  function Span(s: string, p: char -> bool): (n: nat)
    ensures n <= |s| && (forall i :: 0 <= i < n ==> p(s[i])) && (n < |s| ==> !p(s[n]))
  {
    if s == "" || !p(s[0]) then 0 else 1 + Span(s[1..], p)
  }

  function Lex(s: string, keywords: set<string>): Result<seq<Code>, string>
    decreases |s|
  {
    if s == "" then Success([])
    else if IsBlank(s[0]) then Lex(s[1..], keywords)
    else if s[0] == '+' then
      var rest :- Lex(s[1..], keywords);
      Success([Plus] + rest)
    else if s[0] == '"' then
      var n := Span(s[1..], c => c != '"' && c != '\\');
      if n == |s| - 1 || s[n + 1] != '"' then Failure("unterminated or escaped literal")
      else
        var rest :- Lex(s[n + 2..], keywords);
        Success([Literal(s[1..n + 1])] + rest)
    else if IsIdentStart(s[0]) then
      var n := Span(s, IsIdentChar);
      if s[..n] in keywords then Failure("keyword")
      else
        var rest :- Lex(s[n..], keywords);
        Success([Ident(s[..n])] + rest)
    else Failure("unexpected character")
  }

  /** Compiles and evaluates `operand { "+" operand }` over strings. */
  function Run(program: seq<Code>, env: Env, unknown: Result<string, string>, operand: bool)
    : Result<string, string>
    decreases |program|
  {
    if program == [] then (if operand then Failure("unexpected end") else Success(""))
    else if operand then
      var head :- match program[0] {
        case Plus => Failure("unexpected operator")
        case Literal(text) => Success(text)
        case Ident(name) => if name in env then Success(env[name]) else unknown
      };
      var tail :- Run(program[1..], env, unknown, false);
      Success(head + tail)
    else if program[0] == Plus then Run(program[1..], env, unknown, true)
    else Failure("operator expected")
  }

  // ----- what a condition says -----

  datatype Token = Name(name: string) | And | Or | Open | Close

  predicate IsNameChar(c: char) { IsIdentChar(c) || c == '-' }

  /** The tokens of a condition, or None when it holds anything but names, `&&`, `||`, parentheses
      and blanks. */
  function Tokens(s: string): Option<seq<Token>>
    decreases |s|
  {
    if s == "" then Some([])
    else if IsBlank(s[0]) then Tokens(s[1..])
    else if "&&" <= s then Cons(And, Tokens(s[2..]))
    else if "||" <= s then Cons(Or, Tokens(s[2..]))
    else if s[0] == '(' then Cons(Open, Tokens(s[1..]))
    else if s[0] == ')' then Cons(Close, Tokens(s[1..]))
    else if IsNameChar(s[0]) then
      var n := Span(s, IsNameChar);
      Cons(Name(s[..n]), Tokens(s[n..]))
    else None
  }

  function Cons(t: Token, ts: Option<seq<Token>>): Option<seq<Token>> {
    if ts.None? then None else Some([t] + ts.value)
  }

  /** Operands and operators alternate, as in every well-formed condition. */
  predicate Alternates(ts: seq<Token>, operand: bool) {
    if ts == [] then !operand
    else match ts[0]
      case Name(_) => operand && Alternates(ts[1..], false)
      case Open => operand && Alternates(ts[1..], true)
      case Close => !operand && Alternates(ts[1..], false)
      case And => !operand && Alternates(ts[1..], true)
      case Or => !operand && Alternates(ts[1..], true)
  }

  function TokenText(t: Token): string {
    match t
    case Name(n) => n
    case And => "&&"
    case Or => "||"
    case Open => "("
    case Close => ")"
  }

  /** The tokens written without blanks. */
  function Text(ts: seq<Token>): string {
    if ts == [] then "" else TokenText(ts[0]) + Text(ts[1..])
  }

  /** A dependency name the library reads as an identifier once `-` has become `_`. */
  predicate Usable(name: string, keywords: set<string>) {
    && name != "" && (forall i :: 0 <= i < |name| ==> IsNameChar(name[i]))
    && !('0' <= name[0] <= '9')
    && Key(name) !in keywords
  }

  ghost predicate UsesOnly(ts: seq<Token>, deps: seq<string>, keywords: set<string>) {
    forall t :: t in ts && t.Name? ==> t.name in deps && Usable(t.name, keywords)
  }

  // ----- the rewriting, one piece of the condition at a time -----

  predicate IsSpecial(c: char) { c == '&' || c == '|' || c == '-' || c == '(' || c == ')' }

  predicate IsPiece(x: string) {
    x == "&&" || x == "||" || x == "-" || x == "(" || x == ")" || (|x| == 1 && !IsSpecial(x[0]))
  }

  function PieceCode(x: string): string {
    if x == "&&" then AND_CODE else if x == "||" then OR_CODE else if x == "-" then "_"
    else if x == "(" then OPEN_CODE else if x == ")" then CLOSE_CODE else x
  }

  /** No later replacement touches what an earlier one put in, and no match straddles two pieces. */
  lemma RewritePiece(x: string, y: string)
    requires IsPiece(x)
    ensures Rewrite(x + y) == PieceCode(x) + Rewrite(y)
  {
    var c := PieceCode(x);
    var y1 := Replace1(y);
    var y2 := Replace2(y1);
    var y3 := Replace3(y2);
    var y4 := Replace4(y3);
    var x1 := if x == "&&" then c else x;
    if x == "&&" { ReplaceHits(y, "&&", AND_CODE); } else { ReplaceSkips(x, y, "&&", AND_CODE); }
    var x2 := if x == "||" then c else x1;
    if x == "||" { ReplaceHits(y1, "||", OR_CODE); } else { ReplaceSkips(x1, y1, "||", OR_CODE); }
    var x3 := if x == "-" then c else x2;
    if x == "-" { ReplaceHits(y2, "-", "_"); } else { ReplaceSkips(x2, y2, "-", "_"); }
    var x4 := if x == "(" then c else x3;
    if x == "(" { ReplaceHits(y3, "(", OPEN_CODE); } else { ReplaceSkips(x3, y3, "(", OPEN_CODE); }
    if x == ")" { ReplaceHits(y4, ")", CLOSE_CODE); } else { ReplaceSkips(x4, y4, ")", CLOSE_CODE); }
  }

  /** Making a key replaces characters one for one. */
  lemma KeyAt(n: string)
    ensures |Key(n)| == |n|
    ensures forall i :: 0 <= i < |n| ==> Key(n)[i] == if n[i] == '-' then '_' else n[i]
  {
    ReplaceCharAt(n, '-', '_');
  }

  lemma NameCharsPlain(c: char)
    requires IsNameChar(c)
    ensures !IsSpecial(c) || c == '-'
    ensures IsPiece([c]) && PieceCode([c]) == if c == '-' then "_" else [c]
  {
  }

  lemma {:induction false} RewriteName(n: string, y: string)
    requires forall i :: 0 <= i < |n| ==> IsNameChar(n[i])
    ensures Rewrite(n + y) == Key(n) + Rewrite(y)
  {
    assert Key("") == "";
    hide Rewrite, Key, IsNameChar;
    if n == "" {
      assert n + y == y;
    } else {
      var c := RewriteNameChar(n[0], n[1..], n[1..] + y);
      RewriteName(n[1..], y);
      FirstApart(n, y);
      Regroup(c, Key(n[1..]), Rewrite(y));
    }
  }

  lemma FirstApart(n: string, y: string)
    requires n != ""
    ensures n == [n[0]] + n[1..] && n + y == [n[0]] + (n[1..] + y)
  {
  }

  lemma Regroup(a: string, b: string, c: string)
    ensures a + (b + c) == (a + b) + c
  {
  }

  /** The first character of a name goes the same way in the condition and in the key. */
  lemma RewriteNameChar(a: char, n: string, y: string) returns (c: string)
    requires IsNameChar(a)
    ensures Rewrite([a] + y) == c + Rewrite(y) && Key([a] + n) == c + Key(n)
  {
    hide Rewrite, ReplaceAll, IsNameChar, IsPiece, PieceCode;
    NameCharsPlain(a);
    c := if a == '-' then "_" else [a];
    RewritePiece([a], y);
    ReplaceCharStep(a, n, '-', '_');
  }

  // ----- reading the program back -----

  function Codes(ts: seq<Token>): seq<Code> {
    if ts == [] then []
    else (match ts[0]
          case Name(n) => [Ident(Key(n))]
          case And => [Plus, Literal("&&"), Plus]
          case Or => [Plus, Literal("||"), Plus]
          case Open => [Literal("("), Plus]
          case Close => [Plus, Literal(")")]) + Codes(ts[1..])
  }

  lemma LexBlank(y: string, keywords: set<string>)
    ensures Lex(" " + y, keywords) == Lex(y, keywords)
  {
    assert (" " + y)[1..] == y;
  }

  lemma LexPlus(y: string, keywords: set<string>)
    requires Lex(y, keywords).Success?
    ensures Lex("+" + y, keywords) == Success([Plus] + Lex(y, keywords).value)
  {
    assert ("+" + y)[1..] == y;
  }

  lemma SpanIs(s: string, p: char -> bool, n: nat)
    requires n <= |s| && (forall i :: 0 <= i < n ==> p(s[i])) && (n < |s| ==> !p(s[n]))
    ensures Span(s, p) == n
  {
  }

  lemma LexLiteral(text: string, y: string, keywords: set<string>)
    requires '"' !in text && '\\' !in text
    requires Lex(y, keywords).Success?
    ensures Lex("\"" + text + "\"" + y, keywords) == Success([Literal(text)] + Lex(y, keywords).value)
  {
    var s := "\"" + text + "\"" + y;
    var p := c => c != '"' && c != '\\';
    assert s[1..] == text + "\"" + y;
    SpanIs(s[1..], p, |text|);
    assert s[1..|text| + 1] == text && s[|text| + 2..] == y;
  }

  lemma LexIdent(n: string, y: string, keywords: set<string>)
    requires n != "" && IsIdentStart(n[0]) && n !in keywords
    requires forall i :: 0 <= i < |n| ==> IsIdentChar(n[i])
    requires y != "" ==> !IsIdentChar(y[0])
    requires Lex(y, keywords).Success?
    ensures Lex(n + y, keywords) == Success([Ident(n)] + Lex(y, keywords).value)
  {
    SpanIs(n + y, IsIdentChar, |n|);
    assert (n + y)[..|n|] == n && (n + y)[|n|..] == y;
  }

  /** Around an operator: blank, plus, literal, blank, plus, blank. */
  lemma LexOperator(text: string, y: string, keywords: set<string>)
    requires '"' !in text && '\\' !in text
    requires Lex(y, keywords).Success?
    ensures Lex(" + \"" + text + "\" + " + y, keywords)
         == Success([Plus, Literal(text), Plus] + Lex(y, keywords).value)
  {
    hide Lex;
    var y1 := " " + y;
    LexBlank(y, keywords);
    LexPlus(y1, keywords);
    var y2 := " " + ("+" + y1);
    LexBlank("+" + y1, keywords);
    LexLiteral(text, y2, keywords);
    var y3 := "\"" + text + "\"" + y2;
    LexBlank(y3, keywords);
    LexPlus(" " + y3, keywords);
    LexBlank("+" + (" " + y3), keywords);
    assert " + \"" + text + "\" + " + y == " " + ("+" + (" " + y3));
    assert [Plus] + ([Literal(text)] + ([Plus] + Lex(y, keywords).value))
        == [Plus, Literal(text), Plus] + Lex(y, keywords).value;
  }

  lemma LexOpen(y: string, keywords: set<string>)
    requires Lex(y, keywords).Success?
    ensures Lex(OPEN_CODE + y, keywords) == Success([Literal("("), Plus] + Lex(y, keywords).value)
  {
    hide Lex;
    LexPlus(y, keywords);
    assert [Literal("(")] + ([Plus] + Lex(y, keywords).value) == [Literal("("), Plus] + Lex(y, keywords).value;
    LexLiteral("(", "+" + y, keywords);
    assert OPEN_CODE + y == "\"" + "(" + "\"" + ("+" + y);
  }

  lemma LexClose(y: string, keywords: set<string>)
    requires Lex(y, keywords).Success?
    ensures Lex(CLOSE_CODE + y, keywords) == Success([Plus, Literal(")")] + Lex(y, keywords).value)
  {
    hide Lex;
    LexLiteral(")", y, keywords);
    assert [Plus] + ([Literal(")")] + Lex(y, keywords).value) == [Plus, Literal(")")] + Lex(y, keywords).value;
    LexPlus("\"" + ")" + "\"" + y, keywords);
    assert CLOSE_CODE + y == "+" + ("\"" + ")" + "\"" + y);
  }

  ghost predicate UsableNames(ts: seq<Token>, keywords: set<string>) {
    forall t :: t in ts && t.Name? ==> Usable(t.name, keywords)
  }

  /** The rewritten condition reads as the program that spells the condition's tokens. */
  lemma {:induction false} LexRewrite(s: string, keywords: set<string>)
    requires Tokens(s).Some? && UsableNames(Tokens(s).value, keywords)
    ensures Lex(Rewrite(s), keywords) == Success(Codes(Tokens(s).value))
    ensures s != "" && !IsNameChar(s[0]) ==> Rewrite(s) != "" && !IsIdentChar(Rewrite(s)[0])
    decreases |s|, 1
  {
    if s == "" {
    } else if IsBlank(s[0]) {
      assert s == [s[0]] + s[1..];
      RewritePiece([s[0]], s[1..]);
      LexRewrite(s[1..], keywords);
      assert ([s[0]] + Rewrite(s[1..]))[1..] == Rewrite(s[1..]);
    } else if "&&" <= s || "||" <= s {
      LexSpecial(s, s[..2], keywords);
    } else if s[0] == '(' || s[0] == ')' {
      LexSpecial(s, s[..1], keywords);
    } else {
      LexName(s, keywords);
    }
  }

  lemma LexName(s: string, keywords: set<string>)
    requires Tokens(s).Some? && UsableNames(Tokens(s).value, keywords)
    requires s != "" && IsNameChar(s[0])
    ensures Lex(Rewrite(s), keywords) == Success(Codes(Tokens(s).value))
    decreases |s|, 0
  {
    assert Rewrite("") == "";
    hide Rewrite, Lex, Key;
    var n := Span(s, IsNameChar);
    var name, rest := s[..n], s[n..];
    assert s == name + rest;
    assert Tokens(s) == Cons(Name(name), Tokens(rest));
    assert Name(name) in Tokens(s).value;
    LexRewrite(rest, keywords);
    RewriteName(name, rest);
    KeyAt(name);
    assert Usable(name, keywords);
    LexIdent(Key(name), Rewrite(rest), keywords);
  }

  lemma LexSpecial(s: string, x: string, keywords: set<string>)
    requires Tokens(s).Some? && UsableNames(Tokens(s).value, keywords)
    requires x <= s && (x == "&&" || x == "||" || x == "(" || x == ")")
    ensures Lex(Rewrite(s), keywords) == Success(Codes(Tokens(s).value))
    ensures Rewrite(s) != "" && !IsIdentChar(Rewrite(s)[0])
    decreases |s|, 0
  {
    hide Rewrite, Lex;
    var y := s[|x|..];
    assert s == x + y;
    RewritePiece(x, y);
    var t := if x == "&&" then And else if x == "||" then Or else if x == "(" then Open else Close;
    assert Tokens(s).value == [t] + Tokens(y).value;
    LexRewrite(y, keywords);
    var z := Rewrite(y);
    if x == "&&" || x == "||" {
      LexOperator(x, z, keywords);
      assert PieceCode(x) == " + \"" + x + "\" + ";
    } else if x == "(" {
      LexOpen(z, keywords);
    } else {
      LexClose(z, keywords);
    }
  }

  // ----- running the program -----

  /** The tokens with every name replaced by the dependency its key stands for. */
  function Renamed(ts: seq<Token>, env: Env): seq<Token>
    requires forall t :: t in ts && t.Name? ==> Key(t.name) in env
  {
    if ts == [] then []
    else [if ts[0].Name? then Name(env[Key(ts[0].name)]) else ts[0]] + Renamed(ts[1..], env)
  }

  lemma RunPlus(rest: seq<Code>, env: Env, unknown: Result<string, string>)
    ensures Run([Plus] + rest, env, unknown, true).Failure?
    ensures Run([Plus] + rest, env, unknown, false) == Run(rest, env, unknown, true)
  {
    assert ([Plus] + rest)[1..] == rest;
  }

  lemma RunLiteral(text: string, rest: seq<Code>, env: Env, unknown: Result<string, string>)
    ensures Run([Literal(text)] + rest, env, unknown, false).Failure?
    ensures var r, tail := Run([Literal(text)] + rest, env, unknown, true), Run(rest, env, unknown, false);
      (r.Success? <==> tail.Success?) && (r.Success? ==> r.value == text + tail.value)
  {
    assert ([Literal(text)] + rest)[1..] == rest;
  }

  lemma RunIdent(n: string, rest: seq<Code>, env: Env, unknown: Result<string, string>)
    requires n in env
    ensures Run([Ident(n)] + rest, env, unknown, false).Failure?
    ensures var r, tail := Run([Ident(n)] + rest, env, unknown, true), Run(rest, env, unknown, false);
      (r.Success? <==> tail.Success?) && (r.Success? ==> r.value == env[n] + tail.value)
  {
    assert ([Ident(n)] + rest)[1..] == rest;
  }

  lemma RunOperator(text: string, rest: seq<Code>, env: Env, unknown: Result<string, string>, operand: bool)
    ensures var r := Run([Plus, Literal(text), Plus] + rest, env, unknown, operand);
      && (r.Success? <==> !operand && Run(rest, env, unknown, true).Success?)
      && (r.Success? ==> r.value == text + Run(rest, env, unknown, true).value)
  {
    hide Run;
    RunPlus(rest, env, unknown);
    RunLiteral(text, [Plus] + rest, env, unknown);
    RunPlus([Literal(text)] + ([Plus] + rest), env, unknown);
    assert [Plus, Literal(text), Plus] + rest == [Plus] + ([Literal(text)] + ([Plus] + rest));
  }

  /** The program concatenates the renamed tokens, and runs exactly when they alternate. */
  lemma {:induction false} RunCodes(ts: seq<Token>, env: Env, unknown: Result<string, string>, operand: bool)
    requires forall t :: t in ts && t.Name? ==> Key(t.name) in env
    ensures var r := Run(Codes(ts), env, unknown, operand);
      && (r.Success? <==> Alternates(ts, operand))
      && (r.Success? ==> r.value == Text(Renamed(ts, env)))
  {
    if ts != [] {
      assert ts[0] in ts && forall t :: t in ts[1..] ==> t in ts;
      RunCodes(ts[1..], env, unknown, true);
      RunCodes(ts[1..], env, unknown, false);
      assert Renamed(ts, env)[1..] == Renamed(ts[1..], env);
      RunFirst(ts, env, unknown, operand);
    }
  }

  lemma RunFirst(ts: seq<Token>, env: Env, unknown: Result<string, string>, operand: bool)
    requires ts != [] && (ts[0].Name? ==> Key(ts[0].name) in env)
    ensures var r := Run(Codes(ts), env, unknown, operand);
      var next := !ts[0].Name? && !ts[0].Close?;
      var tail := Run(Codes(ts[1..]), env, unknown, next);
      var text := if ts[0].Name? then env[Key(ts[0].name)] else TokenText(ts[0]);
      && (r.Success? <==> operand == (ts[0].Name? || ts[0].Open?) && tail.Success?)
      && (r.Success? ==> r.value == text + tail.value)
  {
    hide Run, Key;
    var rest := Codes(ts[1..]);
    match ts[0]
    case Name(n) => RunIdent(Key(n), rest, env, unknown);
    case And => RunOperator("&&", rest, env, unknown, operand);
    case Or => RunOperator("||", rest, env, unknown, operand);
    case Open =>
      RunPlus(rest, env, unknown);
      RunLiteral("(", [Plus] + rest, env, unknown);
      assert [Literal("("), Plus] + rest == [Literal("(")] + ([Plus] + rest);
    case Close =>
      RunLiteral(")", rest, env, unknown);
      RunPlus([Literal(")")] + rest, env, unknown);
      assert [Plus, Literal(")")] + rest == [Plus] + ([Literal(")")] + rest);
  }

  // ----- names and keys -----

  /** Every dependency that shares its key with `name` is followed by another declaration of `name`. */
  ghost predicate Kept(deps: seq<string>, name: string) {
    forall i :: 0 <= i < |deps| && Key(deps[i]) == Key(name) && deps[i] != name ==>
      exists j :: i < j < |deps| && deps[j] == name
  }

  /** A key stands for the last dependency declared with it. */
  lemma {:induction false} EnvLookup(deps: seq<string>, name: string)
    requires name in deps
    ensures var env := DependencyEnv(deps);
      && Key(name) in env
      && Key(env[Key(name)]) == Key(name)
      && (env[Key(name)] == name <==> Kept(deps, name))
  {
    var last := |deps| - 1;
    var before := deps[..last];
    if Key(deps[last]) == Key(name) {
      if deps[last] != name { assert !Kept(deps, name); }
    } else {
      assert name in before by { assert exists i :: 0 <= i < |deps| && deps[i] == name && i != last; }
      EnvLookup(before, name);
      assert forall i :: 0 <= i < last ==> deps[i] == before[i];
      if Kept(deps, name) {
        forall i | 0 <= i < last && Key(before[i]) == Key(name) && before[i] != name
          ensures exists j :: i < j < last && before[j] == name
        {
          var j :| i < j < |deps| && deps[j] == name;
          assert j != last;
          assert before[j] == name;
        }
      } else {
        var i :| 0 <= i < |deps| && Key(deps[i]) == Key(name) && deps[i] != name
                 && !exists j :: i < j < |deps| && deps[j] == name;
        assert before[i] == deps[i];
        forall j | i < j < |before| ensures before[j] != name { assert before[j] == deps[j]; }
      }
    }
  }

  /** Two names with one key have the same length and differ only in `-` against `_`. */
  lemma SameKey(a: string, b: string)
    requires Key(a) == Key(b)
    ensures |a| == |b|
    ensures '"' !in a ==> '"' !in b
  {
    KeyAt(a);
    KeyAt(b);
    if '"' in b {
      var i :| 0 <= i < |b| && b[i] == '"';
      assert Key(b)[i] == '"' == Key(a)[i];
    }
  }

  ghost predicate Resolves(ts: seq<Token>, env: Env) {
    forall t :: t in ts && t.Name? ==>
      Key(t.name) in env && Key(env[Key(t.name)]) == Key(t.name) && '"' !in t.name
  }

  lemma NoQuotes(ts: seq<Token>, env: Env)
    requires Resolves(ts, env)
    ensures '"' !in Text(Renamed(ts, env))
  {
    if ts != [] {
      NoQuotes(ts[1..], env);
      if ts[0].Name? { SameKey(ts[0].name, env[Key(ts[0].name)]); }
    }
  }

  /** Renaming leaves the text as it was exactly when it changes no name. */
  lemma {:induction false} RenamedText(ts: seq<Token>, env: Env)
    requires Resolves(ts, env)
    ensures |Text(Renamed(ts, env))| == |Text(ts)|
    ensures Text(Renamed(ts, env)) == Text(ts)
       <==> forall t :: t in ts && t.Name? ==> env[Key(t.name)] == t.name
  {
    if ts != [] {
      RenamedText(ts[1..], env);
      var a, b := TokenText(Renamed(ts, env)[0]), TokenText(ts[0]);
      if ts[0].Name? { SameKey(ts[0].name, env[Key(ts[0].name)]); }
      assert Renamed(ts, env)[1..] == Renamed(ts[1..], env);
      var x, y := Text(Renamed(ts[1..], env)), Text(ts[1..]);
      assert |a| == |b|;
      assert (a + x)[..|a|] == a && (a + x)[|a|..] == x && (b + y)[..|b|] == b && (b + y)[|b|..] == y;
      assert forall t :: t in ts <==> t == ts[0] || t in ts[1..];
    }
  }

  // ----- the results -----

  /** Translating a condition over declared dependencies succeeds exactly when its operands and
      operators alternate, and gives the condition back, blanks dropped and each name replaced by the
      dependency its key stands for. */
  lemma TranslateCondition(s: string, deps: seq<string>, keywords: set<string>, unknown: Result<string, string>)
    requires Tokens(s).Some? && UsesOnly(Tokens(s).value, deps, keywords)
    ensures var ts := Tokens(s).value;
      var env := DependencyEnv(deps);
      var r := Translate(s, env, keywords, unknown);
      && Resolves(ts, env)
      && (r.Success? <==> Alternates(ts, true))
      && (r.Success? ==> r.value == Text(Renamed(ts, env)))
  {
    var ts := Tokens(s).value;
    var env := DependencyEnv(deps);
    forall t | t in ts && t.Name?
      ensures Key(t.name) in env && Key(env[Key(t.name)]) == Key(t.name) && '"' !in t.name
    {
      EnvLookup(deps, t.name);
    }
    LexRewrite(s, keywords);
    RunCodes(ts, env, unknown, true);
    NoQuotes(ts, env);
    var text := Text(Renamed(ts, env));
    ReplaceNothing(text, "\"(\"", "(");
    ReplaceNothing(text, "\")\"", ")");
  }

  /** A well-formed condition comes back with the tokens it had exactly when no name in it is
      shadowed by a later dependency that differs from it only in `-` against `_`. */
  lemma TranslateKeepsTokens(s: string, deps: seq<string>, keywords: set<string>, unknown: Result<string, string>)
    requires Tokens(s).Some? && UsesOnly(Tokens(s).value, deps, keywords)
    requires Alternates(Tokens(s).value, true)
    ensures var ts := Tokens(s).value;
      var r := Translate(s, DependencyEnv(deps), keywords, unknown);
      && r.Success?
      && (r.value == Text(ts) && Tokens(r.value) == Some(ts)
          <==> forall t :: t in ts && t.Name? ==> Kept(deps, t.name))
  {
    var ts := Tokens(s).value;
    var env := DependencyEnv(deps);
    TranslateCondition(s, deps, keywords, unknown);
    RenamedText(ts, env);
    TokensOfText(ts, true, keywords);
    forall t | t in ts && t.Name? ensures env[Key(t.name)] == t.name <==> Kept(deps, t.name) {
      EnvLookup(deps, t.name);
    }
  }

  /** Alternating tokens written without blanks read as themselves: no two names touch. */
  lemma {:induction false} TokensOfText(ts: seq<Token>, operand: bool, keywords: set<string>)
    requires Alternates(ts, operand) && UsableNames(ts, keywords)
    ensures Tokens(Text(ts)) == Some(ts)
    ensures !operand && ts != [] ==> Text(ts) != "" && !IsNameChar(Text(ts)[0])
  {
    if ts != [] {
      assert ts[0] in ts && forall u :: u in ts[1..] ==> u in ts;
      TokensOfText(ts[1..], ts[0] == And || ts[0] == Or || ts[0] == Open, keywords);
      TokensStep(ts[0], Text(ts[1..]), keywords);
      assert [ts[0]] + ts[1..] == ts;
    }
  }

  lemma TokensStep(t: Token, rest: string, keywords: set<string>)
    requires t.Name? ==> Usable(t.name, keywords) && (rest == "" || !IsNameChar(rest[0]))
    ensures Tokens(TokenText(t) + rest) == Cons(t, Tokens(rest))
  {
    var s := TokenText(t) + rest;
    assert s[|TokenText(t)|..] == rest;
    if t.Name? {
      SpanIs(s, IsNameChar, |t.name|);
      assert s[..|t.name|] == t.name;
      assert IsNameChar(s[0]);
    }
  }

  lemma ShadowedEnv(keywords: set<string>)
    requires "a_b" !in keywords
    ensures Key("a-b") == "a_b" && Usable("a-b", keywords)
    ensures "a_b" in DependencyEnv(["a-b", "a_b"]) && DependencyEnv(["a-b", "a_b"])["a_b"] == "a_b"
  {
    KeyAt("a-b");
    KeyAt("a_b");
    assert ["a-b", "a_b"][..1] == ["a-b"];
  }

  /** Two dependencies that differ only in `-` against `_`: the first cannot be named any more. */
  lemma ShadowedName(keywords: set<string>, unknown: Result<string, string>)
    requires "a_b" !in keywords
    ensures Tokens("a-b") == Some([Name("a-b")])
    ensures Translate("a-b", DependencyEnv(["a-b", "a_b"]), keywords, unknown) == Success("a_b")
  {
    hide Key, Translate, DependencyEnv, IsNameChar;
    var deps := ["a-b", "a_b"];
    var ts := [Name("a-b")];
    ShadowedEnv(keywords);
    TokensStep(Name("a-b"), "", keywords);
    assert "a-b" + "" == "a-b" && Tokens("") == Some([]) && ts + [] == ts;
    assert TokenText(Name("a-b")) + "" == "a-b";
    assert deps[0] == "a-b";
    TranslateCondition("a-b", deps, keywords, unknown);
    assert ts[1..] == [];
    assert Renamed(ts, DependencyEnv(deps)) == [Name("a_b")];
    assert [Name("a_b")][1..] == [] && "a_b" + "" == "a_b";
  }
}
