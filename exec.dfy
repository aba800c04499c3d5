/** The line executor (`execute_line`) and the function invoker
    (`execute_function`) as functions of the machine and the function table.
    Executing never changes the table, so it is an argument here and not a
    result. `fuel` bounds the depth of nested function calls; running out of
    it stands for exhausting the C call stack. */
module Exec {
  import opened Base
  import opened Text
  import opened Tape
  import opened Table

  /** One token of a line: a primitive is tried first, then a function of
      that name; anything else is an unknown command. The machine reached
      and whether `tekkas`/`alisahin` cut the line short. */
  function RunToken(m: Machine, t: seq<Function>, tok: string, input: nat -> int, fuel: nat): (r: Result<Exit>)
    requires m.Valid()
    ensures r.Ok? ==> r.value.m.Valid()
    decreases fuel, 1, 0
  {
    match ParsePrimitive(tok)
    case Some(p) => Step(m, p, input)
    case None =>
      if Lookup(t, tok).None? then Err(UnknownCommand)
      else match ExecFunction(m, t, tok, input, fuel)
        case Err(e) => Err(e)
        case Ok(m') => Ok(Exit(m', false))
  }

  /** The tokens of one line, left to right, until one fails or cuts the
      line short. */
  function RunTokens(m: Machine, t: seq<Function>, toks: seq<string>, input: nat -> int, fuel: nat): (r: Result<Exit>)
    requires m.Valid()
    ensures r.Ok? ==> r.value.m.Valid()
    decreases fuel, 1, |toks|
  {
    if toks == [] then Ok(Exit(m, false))
    else match RunToken(m, t, toks[0], input, fuel)
      case Err(e) => Err(e)
      case Ok(x) => if x.early then Ok(x) else RunTokens(x.m, t, toks[1..], input, fuel)
  }

  /** `execute_line`: the line split on spaces, its tokens run in order. */
  function ExecLine(m: Machine, t: seq<Function>, line: string, input: nat -> int, fuel: nat): (r: Result<Machine>)
    requires m.Valid()
    ensures r.Ok? ==> r.value.Valid()
    decreases fuel, 2, 0
  {
    match RunTokens(m, t, Tokenize(line), input, fuel)
    case Err(e) => Err(e)
    case Ok(x) => Ok(x.m)
  }

  /** `execute_function`: the recorded lines of the function, one after the
      other, one call level deeper. */
  function ExecFunction(m: Machine, t: seq<Function>, name: string, input: nat -> int, fuel: nat): (r: Result<Machine>)
    requires m.Valid()
    ensures r.Ok? ==> r.value.Valid()
    decreases fuel, 0, 0
  {
    match Lookup(t, name)
    case None => Err(FunctionNotDefined)
    case Some(f) => if fuel == 0 then Err(OutOfFuel) else ExecBody(m, t, f.commands, input, fuel - 1)
  }

  /** Lines executed one after the other; the first error stops them. */
  function ExecBody(m: Machine, t: seq<Function>, lines: seq<string>, input: nat -> int, fuel: nat): (r: Result<Machine>)
    requires m.Valid()
    ensures r.Ok? ==> r.value.Valid()
    decreases fuel, 3, |lines|
  {
    if lines == [] then Ok(m)
    else match ExecLine(m, t, lines[0], input, fuel)
      case Err(e) => Err(e)
      case Ok(m') => ExecBody(m', t, lines[1..], input, fuel)
  }

  /** What is left of a run after a first stretch of tokens ended in `r`. */
  function ThenTokens(r: Result<Exit>, t: seq<Function>, toks: seq<string>, input: nat -> int, fuel: nat): Result<Exit>
    requires r.Ok? ==> r.value.m.Valid()
  {
    match r
    case Err(e) => Err(e)
    case Ok(x) => if x.early then Ok(x) else RunTokens(x.m, t, toks, input, fuel)
  }

  /** Tokens run strictly left to right: running `a + b` is running `a` and
      then, unless it failed or was cut short, `b` from where `a` stopped. */
  lemma {:induction false} RunTokensAppend(m: Machine, t: seq<Function>, a: seq<string>, b: seq<string>, input: nat -> int, fuel: nat)
    requires m.Valid()
    ensures RunTokens(m, t, a + b, input, fuel) == ThenTokens(RunTokens(m, t, a, input, fuel), t, b, input, fuel)
    decreases |a|
  {
    if a == [] {
      assert a + b == b;
    } else {
      assert (a + b)[0] == a[0];
      assert (a + b)[1..] == a[1..] + b;
      match RunToken(m, t, a[0], input, fuel)
      case Err(e) =>
      case Ok(x) =>
        if !x.early {
          RunTokensAppend(x.m, t, a[1..], b, input, fuel);
        }
    }
  }

  /** A line split at a space runs as its first part followed by its second;
      once the first part is cut short by `tekkas` or `alisahin`, nothing in
      the second part has any effect. */
  lemma {:induction false} LineSplits(m: Machine, t: seq<Function>, a: string, b: string, input: nat -> int, fuel: nat)
    requires m.Valid()
    ensures var r := RunTokens(m, t, Tokenize(a), input, fuel);
      ExecLine(m, t, a + " " + b, input, fuel) ==
        match r
        case Err(e) => Err(e)
        case Ok(x) => if x.early then Ok(x.m) else ExecLine(x.m, t, b, input, fuel)
  {
    TokenizeConcat(a, b);
    RunTokensAppend(m, t, Tokenize(a), Tokenize(b), input, fuel);
  }

  /** `tekkas` on a zero cell and `alisahin` on a non-zero cell end the line
      with the machine as it was; otherwise they change nothing and the line
      goes on. */
  lemma ConditionalExit(m: Machine, t: seq<Function>, rest: seq<string>, input: nat -> int, fuel: nat)
    requires m.Valid()
    ensures RunTokens(m, t, ["tekkas"] + rest, input, fuel) ==
      if m.Cell() == 0 then Ok(Exit(m, true)) else RunTokens(m, t, rest, input, fuel)
    ensures RunTokens(m, t, ["alisahin"] + rest, input, fuel) ==
      if m.Cell() != 0 then Ok(Exit(m, true)) else RunTokens(m, t, rest, input, fuel)
  {
    assert (["tekkas"] + rest)[1..] == rest;
    assert (["alisahin"] + rest)[1..] == rest;
  }

  /** A token that is neither a primitive nor a defined function fails the
      line before anything after it runs. */
  lemma UnknownTokenFails(m: Machine, t: seq<Function>, tok: string, rest: seq<string>, input: nat -> int, fuel: nat)
    requires m.Valid()
    requires forall p :: Name(p) != tok
    requires forall k :: 0 <= k < |t| ==> t[k].name != tok
    ensures RunTokens(m, t, [tok] + rest, input, fuel) == Err(UnknownCommand)
  {
  }

  /** `execute_function` on a name no entry has fails with "Function not
      defined.". `execute_line` never reaches this error, because it looks
      the token up with `get_function` before calling `execute_function`;
      only a call with an undefined name would. */
  lemma UndefinedFunctionFails(m: Machine, t: seq<Function>, name: string, input: nat -> int, fuel: nat)
    requires m.Valid()
    requires forall k :: 0 <= k < |t| ==> t[k].name != name
    ensures ExecFunction(m, t, name, input, fuel) == Err(FunctionNotDefined)
  {
  }

  /** A defined function token runs the function's lines, in their recorded
      order, one level deeper, and then the rest of the line. */
  lemma {:induction false} InvokeReplaysBody(m: Machine, t: seq<Function>, i: nat, rest: seq<string>, input: nat -> int, fuel: nat)
    requires m.Valid() && UniqueNames(t) && i < |t|
    requires forall p :: Name(p) != t[i].name
    ensures RunTokens(m, t, [t[i].name] + rest, input, fuel) ==
      if fuel == 0 then Err(OutOfFuel)
      else match ExecBody(m, t, t[i].commands, input, fuel - 1)
        case Err(e) => Err(e)
        case Ok(m') => RunTokens(m', t, rest, input, fuel)
  {
    FindUnique(t, i);
    var tok := t[i].name;
    assert ParsePrimitive(tok).None?;
    assert Lookup(t, tok) == Some(t[i]);
    assert RunToken(m, t, tok, input, fuel) ==
      match ExecFunction(m, t, tok, input, fuel)
      case Err(e) => Err(e)
      case Ok(m') => Ok(Exit(m', false));
    assert ([t[i].name] + rest)[1..] == rest;
  }

  /** Running lines `a + b` is running `a`, then `b` from where `a` ended. */
  lemma {:induction false} ExecBodyAppend(m: Machine, t: seq<Function>, a: seq<string>, b: seq<string>, input: nat -> int, fuel: nat)
    requires m.Valid()
    ensures ExecBody(m, t, a + b, input, fuel) ==
      match ExecBody(m, t, a, input, fuel)
      case Err(e) => Err(e)
      case Ok(m') => ExecBody(m', t, b, input, fuel)
    decreases |a|
  {
    if a == [] {
      assert a + b == b;
    } else {
      assert (a + b)[0] == a[0];
      assert (a + b)[1..] == a[1..] + b;
      match ExecLine(m, t, a[0], input, fuel)
      case Err(e) =>
      case Ok(m') => ExecBodyAppend(m', t, a[1..], b, input, fuel);
    }
  }

  /** Primitives are dispatched before function names, so a function whose
      name is a primitive is never invoked: removing it from the table changes
      no run of any tokens. */
  lemma {:induction false} ShadowedRunToken(m: Machine, t: seq<Function>, x: string, tok: string, input: nat -> int, fuel: nat)
    requires m.Valid() && ParsePrimitive(x).Some?
    ensures RunToken(m, t, tok, input, fuel) == RunToken(m, Without(t, x), tok, input, fuel)
    decreases fuel, 1, 0
  {
    if ParsePrimitive(tok).None? {
      assert tok != x;
      LookupWithout(t, x, tok);
      if Lookup(t, tok).Some? {
        ShadowedExecFunction(m, t, x, tok, input, fuel);
      }
    }
  }

  lemma {:induction false} ShadowedRunTokens(m: Machine, t: seq<Function>, x: string, toks: seq<string>, input: nat -> int, fuel: nat)
    requires m.Valid() && ParsePrimitive(x).Some?
    ensures RunTokens(m, t, toks, input, fuel) == RunTokens(m, Without(t, x), toks, input, fuel)
    decreases fuel, 1, |toks|
  {
    if toks != [] {
      ShadowedRunToken(m, t, x, toks[0], input, fuel);
      match RunToken(m, t, toks[0], input, fuel)
      case Err(e) =>
      case Ok(s) =>
        if !s.early {
          ShadowedRunTokens(s.m, t, x, toks[1..], input, fuel);
        }
    }
  }

  lemma {:induction false} ShadowedExecLine(m: Machine, t: seq<Function>, x: string, line: string, input: nat -> int, fuel: nat)
    requires m.Valid() && ParsePrimitive(x).Some?
    ensures ExecLine(m, t, line, input, fuel) == ExecLine(m, Without(t, x), line, input, fuel)
    decreases fuel, 2, 0
  {
    ShadowedRunTokens(m, t, x, Tokenize(line), input, fuel);
  }

  /** Invoking a function not named `x` is the same without the entries
      named `x`. */
  lemma {:induction false} ShadowedExecFunction(m: Machine, t: seq<Function>, x: string, name: string, input: nat -> int, fuel: nat)
    requires m.Valid() && ParsePrimitive(x).Some? && name != x
    ensures ExecFunction(m, t, name, input, fuel) == ExecFunction(m, Without(t, x), name, input, fuel)
    decreases fuel, 0, 0
  {
    LookupWithout(t, x, name);
    match Lookup(t, name)
    case None =>
    case Some(f) =>
      if fuel > 0 {
        ShadowedExecBody(m, t, x, f.commands, input, fuel - 1);
      }
  }

  lemma {:induction false} ShadowedExecBody(m: Machine, t: seq<Function>, x: string, lines: seq<string>, input: nat -> int, fuel: nat)
    requires m.Valid() && ParsePrimitive(x).Some?
    ensures ExecBody(m, t, lines, input, fuel) == ExecBody(m, Without(t, x), lines, input, fuel)
    decreases fuel, 3, |lines|
  {
    if lines != [] {
      ShadowedExecLine(m, t, x, lines[0], input, fuel);
      match ExecLine(m, t, lines[0], input, fuel)
      case Err(e) =>
      case Ok(m') => ShadowedExecBody(m', t, x, lines[1..], input, fuel);
    }
  }
}
