/** Whole programs run through the executor: straight-line output and a
    function that calls itself until its cell reaches zero. */
module Scenarios {
  import opened Base
  import opened Text
  import opened Tape
  import opened Table
  import opened Exec

  /** `n, n - 1, ..., 1`. */
  function Descending(n: nat): seq<byte>
    requires n < 256
  {
    if n == 0 then [] else [n as byte] + Descending(n - 1)
  }

  const LOOP_BODY: string := "tekkas kasistan tek loop"

  /** The body line of `loop` splits into these tokens. */
  predicate IsLoopBody(body: string)
  {
    Tokenize(body) == ["tekkas", "kasistan", "tek", "loop"]
  }

  lemma LoopBodyTokens()
    ensures IsLoopBody(LOOP_BODY)
  {
    var ws := ["tekkas", "kasistan", "tek", "loop"];
    assert JoinWords(ws) == LOOP_BODY;
    TokenizeJoin(ws);
  }

  /** One primitive token at the head of a run. */
  lemma RunPrimitive(m: Machine, t: seq<Function>, p: Primitive, rest: seq<string>, input: nat -> int, fuel: nat)
    requires m.Valid()
    ensures RunTokens(m, t, [Name(p)] + rest, input, fuel) == ThenTokens(Step(m, p, input), t, rest, input, fuel)
  {
    ParseName(p);
    assert ([Name(p)] + rest)[1..] == rest;
  }

  /** Calling `loop` runs its one line one level deeper. */
  lemma CallLoop(m: Machine, t: seq<Function>, i: nat, body: string, input: nat -> int, fuel: nat)
    requires m.Valid() && UniqueNames(t) && i < |t| && 0 < fuel
    requires t[i].name == "loop" && t[i].commands == [body]
    ensures ExecFunction(m, t, "loop", input, fuel) == ExecLine(m, t, body, input, fuel - 1)
  {
    FindUnique(t, i);
    assert Lookup(t, "loop") == Some(t[i]);
    assert ExecFunction(m, t, "loop", input, fuel) == ExecBody(m, t, [body], input, fuel - 1);
    assert [body][1..] == [];
    match ExecLine(m, t, body, input, fuel - 1)
    case Err(e) =>
    case Ok(m') => assert ExecBody(m', t, [], input, fuel - 1) == Ok(m');
  }

  /** On a zero cell the line stops at `tekkas`. */
  lemma LoopLineZero(m: Machine, t: seq<Function>, body: string, input: nat -> int, fuel: nat)
    requires m.Valid() && m.Cell() == 0 && IsLoopBody(body)
    ensures ExecLine(m, t, body, input, fuel) == Ok(m)
  {
    RunPrimitive(m, t, Tekkas, ["kasistan", "tek", "loop"], input, fuel);
  }

  /** On a non-zero cell the line writes the cell, decrements it and calls
      `loop`. */
  lemma LoopLineNonZero(m: Machine, t: seq<Function>, i: nat, body: string, input: nat -> int, fuel: nat)
    requires m.Valid() && m.Cell() != 0 && UniqueNames(t) && i < |t| && IsLoopBody(body)
    requires t[i].name == "loop"
    ensures ExecLine(m, t, body, input, fuel) == ExecFunction(AddToCell(Emit(m), -1), t, "loop", input, fuel)
  {
    FindUnique(t, i);
    var m1 := Emit(m);
    var m2 := AddToCell(m1, -1);
    RunPrimitive(m, t, Tekkas, ["kasistan", "tek", "loop"], input, fuel);
    RunPrimitive(m, t, Kasistan, ["tek", "loop"], input, fuel);
    RunPrimitive(m1, t, Tek, ["loop"], input, fuel);
    assert ["loop"][1..] == [];
    assert RunTokens(m2, t, ["loop"], input, fuel) ==
      match ExecFunction(m2, t, "loop", input, fuel)
      case Err(e) => Err(e)
      case Ok(m') => Ok(Exit(m', false));
  }

  /** A function `loop` whose one line is `tekkas kasistan tek loop`, called
      on a cell holding `n`, writes `n, n - 1, ..., 1`, leaves the cell at 0
      and needs `n + 1` call levels. */
  lemma {:induction false} Countdown(m: Machine, t: seq<Function>, i: nat, n: nat, input: nat -> int, fuel: nat)
    requires m.Valid() && UniqueNames(t) && i < |t|
    requires t[i].name == "loop" && t[i].commands == [LOOP_BODY]
    requires m.Cell() == n && n < fuel
    ensures ExecFunction(m, t, "loop", input, fuel) ==
      Ok(m.(tape := m.tape[m.pointer := 0], output := m.output + Descending(n)))
  {
    LoopBodyTokens();
    CountdownFrom(m, t, i, LOOP_BODY, n, input, fuel);
  }

  lemma {:induction false} CountdownFrom(m: Machine, t: seq<Function>, i: nat, body: string, n: nat, input: nat -> int, fuel: nat)
    requires m.Valid() && UniqueNames(t) && i < |t| && IsLoopBody(body)
    requires t[i].name == "loop" && t[i].commands == [body]
    requires m.Cell() == n && n < fuel
    ensures ExecFunction(m, t, "loop", input, fuel) ==
      Ok(m.(tape := m.tape[m.pointer := 0], output := m.output + Descending(n)))
    decreases n
  {
    CallLoop(m, t, i, body, input, fuel);
    if n == 0 {
      LoopLineZero(m, t, body, input, fuel - 1);
      assert m.tape[m.pointer := 0] == m.tape;
      assert m.output + Descending(0) == m.output;
    } else {
      LoopLineNonZero(m, t, i, body, input, fuel - 1);
      var m2 := AddToCell(Emit(m), -1);
      CellUpdateWraps(m.Cell(), -1);
      assert m2.pointer == m.pointer && m2.Cell() == n - 1;
      CountdownFrom(m2, t, i, body, n - 1, input, fuel - 1);
      assert m2.tape[m2.pointer := 0] == m.tape[m.pointer := 0];
      assert m2.output == m.output + [n as byte];
      assert Descending(n) == [n as byte] + Descending(n - 1);
      assert m2.output + Descending(n - 1) == m.output + Descending(n);
    }
  }

  /** A line of three increments and a write. */
  const THREE_AND_WRITE: string := "kas kas kas kasistan"

  lemma ThreeAndWriteTokens()
    ensures Tokenize(THREE_AND_WRITE) == ["kas", "kas", "kas", "kasistan"]
  {
    var ws := ["kas", "kas", "kas", "kasistan"];
    assert JoinWords(ws) == THREE_AND_WRITE;
    TokenizeJoin(ws);
  }

  /** Three `kas` tokens on a zero cell, followed by `rest`. */
  lemma {:induction false} ThreeIncrements(m: Machine, t: seq<Function>, rest: seq<string>, input: nat -> int, fuel: nat)
    requires m.Valid() && m.Cell() == 0
    ensures RunTokens(m, t, ["kas", "kas", "kas"] + rest, input, fuel) ==
      RunTokens(m.(tape := m.tape[m.pointer := 3]), t, rest, input, fuel)
  {
    var m1 := AddToCell(m, 1);
    var m2 := AddToCell(m1, 1);
    var m3 := AddToCell(m2, 1);
    CellUpdateWraps(m.Cell(), 1);
    CellUpdateWraps(m1.Cell(), 1);
    CellUpdateWraps(m2.Cell(), 1);
    assert ["kas", "kas", "kas"] + rest == [Name(Kas)] + (["kas", "kas"] + rest);
    assert ["kas", "kas"] + rest == [Name(Kas)] + (["kas"] + rest);
    assert ["kas"] + rest == [Name(Kas)] + rest;
    RunPrimitive(m, t, Kas, ["kas", "kas"] + rest, input, fuel);
    RunPrimitive(m1, t, Kas, ["kas"] + rest, input, fuel);
    RunPrimitive(m2, t, Kas, rest, input, fuel);
    assert m3 == m.(tape := m.tape[m.pointer := 3]);
  }

  /** `kasistan` as the last token of a line. */
  lemma WriteLast(m: Machine, t: seq<Function>, input: nat -> int, fuel: nat)
    requires m.Valid()
    ensures RunTokens(m, t, ["kasistan"], input, fuel) == Ok(Exit(Emit(m), false))
  {
    assert ["kasistan"] == [Name(Kasistan)] + [];
    RunPrimitive(m, t, Kasistan, [], input, fuel);
  }

  /** Three increments of a zero cell followed by `kasistan` write the byte 3
      and leave 3 in the cell. */
  lemma {:induction false} ThreeAndWriteOutputsThree(m: Machine, t: seq<Function>, line: string, input: nat -> int, fuel: nat)
    requires m.Valid() && m.Cell() == 0
    requires Tokenize(line) == ["kas", "kas", "kas", "kasistan"]
    ensures ExecLine(m, t, line, input, fuel) ==
      Ok(m.(tape := m.tape[m.pointer := 3], output := m.output + [3]))
  {
    assert Tokenize(line) == ["kas", "kas", "kas"] + ["kasistan"];
    ThreeIncrements(m, t, ["kasistan"], input, fuel);
    WriteLast(m.(tape := m.tape[m.pointer := 3]), t, input, fuel);
  }

  /** On the fresh tape, `kas kas kas kasistan` outputs exactly the byte 3. */
  lemma FreshTapeWritesThree(t: seq<Function>, input: nat -> int, fuel: nat)
    ensures ExecLine(Initial(), t, THREE_AND_WRITE, input, fuel).Ok?
    ensures ExecLine(Initial(), t, THREE_AND_WRITE, input, fuel).value.output == [3]
  {
    ThreeAndWriteTokens();
    ThreeAndWriteOutputsThree(Initial(), t, THREE_AND_WRITE, input, fuel);
  }

  /** A function whose one line is `kas kas kas`, called on a zero cell from a
      line `<name> kasistan`, makes that line write the byte 3. */
  lemma {:induction false} Inc3WritesThree(m: Machine, t: seq<Function>, i: nat, call: string, input: nat -> int, fuel: nat)
    requires m.Valid() && m.Cell() == 0 && UniqueNames(t) && i < |t| && 0 < fuel
    requires ParsePrimitive(t[i].name).None? && |t[i].commands| == 1
    requires Tokenize(t[i].commands[0]) == ["kas", "kas", "kas"]
    requires Tokenize(call) == [t[i].name, "kasistan"]
    ensures ExecLine(m, t, call, input, fuel) ==
      Ok(m.(tape := m.tape[m.pointer := 3], output := m.output + [3]))
  {
    var body := t[i].commands[0];
    var m3 := m.(tape := m.tape[m.pointer := 3]);
    assert Tokenize(body) == ["kas", "kas", "kas"] + [];
    ThreeIncrements(m, t, [], input, fuel - 1);
    assert RunTokens(m3, t, [], input, fuel - 1) == Ok(Exit(m3, false));
    assert ExecLine(m, t, body, input, fuel - 1) == Ok(m3);
    assert t[i].commands == [body] && [body][1..] == [];
    assert ExecBody(m3, t, [], input, fuel - 1) == Ok(m3);
    assert ExecBody(m, t, t[i].commands, input, fuel - 1) == Ok(m3);
    InvokeReplaysBody(m, t, i, ["kasistan"], input, fuel);
    assert Tokenize(call) == [t[i].name] + ["kasistan"];
    WriteLast(m3, t, input, fuel);
  }

  /** The body of `inc3`, and the line that calls it and writes the cell. */
  const INC3_BODY: string := "kas kas kas"
  const INC3_CALL: string := "inc3 kasistan"

  lemma Inc3CallTokens()
    ensures Tokenize(INC3_CALL) == ["inc3", "kasistan"]
  {
    var call := ["inc3", "kasistan"];
    assert JoinWords(call) == INC3_CALL;
    TokenizeJoin(call);
  }

  lemma Inc3BodyTokens()
    ensures Tokenize(INC3_BODY) == ["kas", "kas", "kas"]
  {
    var body := ["kas", "kas", "kas"];
    assert JoinWords(body) == INC3_BODY;
    TokenizeJoin(body);
  }

  lemma Inc3NotPrimitive()
    ensures ParsePrimitive("inc3").None?
  {
  }

  /** With `inc3` defined as `kas kas kas`, `inc3 kasistan` on the fresh tape
      outputs exactly the byte 3. */
  lemma FreshTapeInc3(t: seq<Function>, i: nat, input: nat -> int, fuel: nat)
    requires UniqueNames(t) && i < |t| && 0 < fuel
    requires t[i].name == "inc3" && t[i].commands == [INC3_BODY]
    ensures ExecLine(Initial(), t, INC3_CALL, input, fuel).Ok?
    ensures ExecLine(Initial(), t, INC3_CALL, input, fuel).value.output == [3]
  {
    Inc3CallTokens();
    Inc3BodyTokens();
    Inc3NotPrimitive();
    Inc3WritesThree(Initial(), t, i, INC3_CALL, input, fuel);
  }

  /** A token that is neither a primitive nor a defined function fails the
      whole body at its line: no later line runs. */
  lemma UnknownTokenStopsBody(m: Machine, t: seq<Function>, line: string, tok: string, later: seq<string>, input: nat -> int, fuel: nat)
    requires m.Valid() && Tokenize(line) != [] && Tokenize(line)[0] == tok
    requires ParsePrimitive(tok).None? && Find(t, tok).None?
    ensures ExecBody(m, t, [line] + later, input, fuel) == Err(UnknownCommand)
  {
    assert RunTokens(m, t, Tokenize(line), input, fuel) == Err(UnknownCommand);
    assert ExecLine(m, t, line, input, fuel) == Err(UnknownCommand);
    assert ([line] + later)[0] == line;
  }
}
