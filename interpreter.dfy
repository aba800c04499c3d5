/** The interpreter as the C program runs it: global state updated in place.
    `memory` and `functions` are the fixed-size arrays, `functionCount`,
    `pointer` and `sudoMode` the scalar globals. Console output is the byte
    sequence `output`; console input is the function `input` from positions to
    integers, of which the first `consumed` have been read. The file system is the map `files`. Every
    method is proved to leave the state the functions of `Exec` and `Driver`
    describe, or to report the error they predict. */
module Interpreter {
  import opened Base
  import opened Text
  import opened Tape
  import opened Table
  import opened Exec
  import opened Driver

  /** `execute_line` stores the tokens of a line in `char *tokens[1000]`
      without a bounds check: lines with more tokens are undefined behaviour. */
  predicate LineFits(line: string)
  {
    |Tokenize(line)| <= MAX_COMMANDS_PER_FUNCTION
  }

  predicate FilesFit(fs: FileSystem)
  {
    forall name, k :: name in fs && 0 <= k < |fs[name]| ==> LineFits(fs[name][k])
  }

  predicate StoredLinesFit(t: seq<Function>)
  {
    forall i, k :: 0 <= i < |t| && 0 <= k < |t[i].commands| ==> LineFits(t[i].commands[k])
  }

  /** The scan `strtok` makes for the end of the word starting at `i`. */
  method WordEndFrom(line: string, i: nat) returns (j: nat)
    requires i < |line| && line[i] != ' '
    ensures i < j <= |line|
    ensures forall k :: i <= k < j ==> line[k] != ' '
    ensures j < |line| ==> line[j] == ' '
  {
    j := i;
    while j < |line| && line[j] != ' '
      invariant i <= j <= |line|
      invariant forall k :: i <= k < j ==> line[k] != ' '
    {
      j := j + 1;
    }
  }

  /** The `strtok(line_copy, " ")` loop of `execute_line`. */
  method SplitTokens(line: string) returns (tokens: seq<string>)
    ensures tokens == Tokenize(line)
  {
    tokens := [];
    var i := 0;
    while i < |line|
      invariant 0 <= i <= |line|
      invariant tokens + Tokenize(line[i..]) == Tokenize(line)
    {
      if line[i] == ' ' {
        SkipSpace(line, i);
        i := i + 1;
      } else {
        var j := WordEndFrom(line, i);
        WordAt(line, i, j);
        assert (tokens + [line[i..j]]) + Tokenize(line[j..]) == tokens + ([line[i..j]] + Tokenize(line[j..]));
        tokens := tokens + [line[i..j]];
        i := j;
      }
    }
    assert line[i..] == [];
    assert tokens + [] == tokens;
  }

  class Interpreter {
    const memory: array<byte>
    var pointer: nat
    const functions: array<Function>
    var functionCount: nat
    var sudoMode: bool
    var output: seq<byte>
    var consumed: nat
    const input: nat -> int
    const files: FileSystem

    /** The tape has 30000 cells and the pointer is on one of them. */
    ghost predicate MachineValid()
      reads this`pointer
    {
      memory.Length == MEMORY_SIZE && pointer < MEMORY_SIZE
    }

    /** The first `function_count` slots of the 100 hold a table with unique
        names, each function holding at most 1000 lines of at most 1000
        tokens. */
    ghost predicate TableValid()
      reads this`functionCount, functions
    {
      functions.Length == MAX_FUNCTIONS && functionCount <= MAX_FUNCTIONS &&
      Table.Valid(functions[..functionCount]) && StoredLinesFit(functions[..functionCount])
    }

    ghost predicate Valid()
      reads this, memory, functions
    {
      MachineValid() && TableValid() && FilesFit(files)
    }

    /** The defined functions, `functions[0 .. function_count - 1]`. */
    ghost function Entries(): seq<Function>
      reads this`functionCount, functions
      requires functionCount <= functions.Length
    {
      functions[..functionCount]
    }

    ghost function MachineState(): Machine
      reads this`pointer, this`output, this`consumed, memory
    {
      Machine(memory[..], pointer, output, consumed)
    }

    ghost function Snapshot(): Interp
      reads this, memory, functions
      requires functionCount <= functions.Length
    {
      Interp(MachineState(), Entries(), sudoMode)
    }

    /** `init_memory` and the initial values of the globals. */
    constructor (files: FileSystem, input: nat -> int)
      requires FilesFit(files)
      ensures Valid() && Snapshot() == Start()
      ensures this.files == files && this.input == input
    {
      memory := new byte[MEMORY_SIZE](_ => 0);
      pointer := 0;
      functions := new Function[MAX_FUNCTIONS](_ => Function([], [], false));
      functionCount := 0;
      sudoMode := false;
      output := [];
      consumed := 0;
      this.input := input;
      this.files := files;
      new;
      assert memory[..] == Tape.Initial().tape;
    }

    /** `add_function`. */
    method AddFunction(name: string, isSudo: bool) returns (err: Option<Error>)
      requires Valid()
      modifies this`functionCount, functions
      ensures Valid()
      ensures match Table.AddFunction(old(Entries()), name, isSudo)
        case Ok(t) => err == None && Entries() == t
        case Err(e) => err == Some(e) && Entries() == old(Entries())
    {
      AddFunctionKeepsValid(Entries(), name, isSudo);
      if functionCount >= MAX_FUNCTIONS {
        return Some(TooManyFunctions);
      }
      var i := 0;
      while i < functionCount
        invariant 0 <= i <= functionCount
        invariant forall k :: 0 <= k < i ==> functions[k].name != name
      {
        if functions[i].name == name {
          if isSudo || !functions[i].isSudo {
            functions[i] := Function(name, [], isSudo);
            assert Entries() == old(Entries())[i := Function(name, [], isSudo)];
            return None;
          } else {
            return Some(SudoOverride);
          }
        }
        i := i + 1;
      }
      functions[functionCount] := Function(name, [], isSudo);
      functionCount := functionCount + 1;
      assert Entries() == old(Entries()) + [Function(name, [], isSudo)];
      return None;
    }

    /** `add_command_to_function` on entry `index`. */
    method AddCommand(index: nat, command: string) returns (err: Option<Error>)
      requires Valid() && index < functionCount && LineFits(command)
      modifies functions
      ensures Valid()
      ensures match Table.AddCommand(old(functions[index]), command)
        case Ok(f) => err == None && Entries() == old(Entries())[index := f]
        case Err(e) => err == Some(e) && Entries() == old(Entries())
    {
      if |functions[index].commands| >= MAX_COMMANDS_PER_FUNCTION {
        return Some(TooManyCommands);
      }
      functions[index] := functions[index].(commands := functions[index].commands + [command]);
      assert Entries() == old(Entries())[index := functions[index]];
      return None;
    }

    /** One branch of the `strcmp` chain of `execute_line` for a built-in
        command: the tape operation, or the decision to leave the line early. */
    method ExecutePrimitive(p: Primitive) returns (err: Option<Error>, early: bool)
      requires Valid()
      modifies this`pointer, this`output, this`consumed, memory
      ensures Entries() == old(Entries())
      ensures match Step(old(MachineState()), p, input)
        case Ok(x) => err == None && Valid() && MachineState() == x.m && early == x.early
        case Err(e) => err == Some(e)
    {
      early := false;
      err := None;
      match p {
        case Ali =>
          pointer := pointer + 1;
          if pointer >= MEMORY_SIZE {
            err := Some(PointerRight);
          }
        case Sahin =>
          if pointer == 0 {
            err := Some(PointerLeft);
          } else {
            pointer := pointer - 1;
          }
        case Kas =>
          memory[pointer] := CellUpdate(memory[pointer], 1);
        case Tek =>
          memory[pointer] := CellUpdate(memory[pointer], -1);
        case Kasistan =>
          output := output + [memory[pointer]];
        case Alisah =>
          var userInput := input(consumed);
          consumed := consumed + 1;
          memory[pointer] := CellUpdate(memory[pointer], userInput);
        case Tekkas =>
          early := memory[pointer] == 0;
        case Alisahin =>
          early := memory[pointer] != 0;
      }
    }

    /** One pass of the token loop of `execute_line`: the `strcmp` chain
        for the built-in commands, then `get_function`, then the error. */
    method ExecuteToken(tok: string, fuel: nat) returns (err: Option<Error>, early: bool)
      requires Valid()
      modifies this`pointer, this`output, this`consumed, memory
      ensures Entries() == old(Entries())
      ensures match RunToken(old(MachineState()), old(Entries()), tok, input, fuel)
        case Ok(x) => err == None && Valid() && MachineState() == x.m && early == x.early
        case Err(e) => err == Some(e)
      decreases fuel, 1
    {
      var primitive := ParsePrimitive(tok);
      if primitive.Some? {
        err, early := ExecutePrimitive(primitive.value);
      } else if Find(functions[..functionCount], tok).Some? {
        err := ExecuteFunction(tok, fuel);
        early := false;
      } else {
        err, early := Some(UnknownCommand), false;
      }
    }

    /** `execute_line`: the line split into tokens, which run one after the
        other until one fails or cuts the line short. */
    method ExecuteLine(line: string, fuel: nat) returns (err: Option<Error>)
      requires Valid() && LineFits(line)
      modifies this`pointer, this`output, this`consumed, memory
      ensures Entries() == old(Entries())
      ensures match Exec.ExecLine(old(MachineState()), old(Entries()), line, input, fuel)
        case Ok(m) => err == None && MachineState() == m && Valid()
        case Err(e) => err == Some(e)
      decreases fuel, 2
    {
      var tokens := SplitTokens(line);
      ghost var m0 := MachineState();
      ghost var t := Entries();
      var i := 0;
      while i < |tokens|
        invariant 0 <= i <= |tokens|
        invariant Valid() && Entries() == t
        invariant RunTokens(MachineState(), t, tokens[i..], input, fuel) == RunTokens(m0, t, tokens, input, fuel)
      {
        assert tokens[i..][0] == tokens[i] && tokens[i..][1..] == tokens[i + 1..];
        var early;
        err, early := ExecuteToken(tokens[i], fuel);
        if err.Some? || early {
          return;
        }
        i := i + 1;
      }
      assert tokens[i..] == [];
      return None;
    }

    /** `execute_function`: the recorded lines replayed in order. */
    method ExecuteFunction(name: string, fuel: nat) returns (err: Option<Error>)
      requires Valid()
      modifies this`pointer, this`output, this`consumed, memory
      ensures Entries() == old(Entries())
      ensures match Exec.ExecFunction(old(MachineState()), old(Entries()), name, input, fuel)
        case Ok(m) => err == None && MachineState() == m && Valid()
        case Err(e) => err == Some(e)
      decreases fuel, 0
    {
      var index := Find(functions[..functionCount], name);
      if index.None? {
        return Some(FunctionNotDefined);
      }
      if fuel == 0 {
        return Some(OutOfFuel);
      }
      var f := functions[index.value];
      ghost var m0 := MachineState();
      ghost var t := Entries();
      assert f == t[index.value];
      var i := 0;
      while i < |f.commands|
        invariant 0 <= i <= |f.commands|
        invariant Valid() && Entries() == t
        invariant ExecBody(MachineState(), t, f.commands[i..], input, fuel - 1) == ExecBody(m0, t, f.commands, input, fuel - 1)
      {
        assert f.commands[i..][0] == f.commands[i] && f.commands[i..][1..] == f.commands[i + 1..];
        err := ExecuteLine(f.commands[i], fuel - 1);
        if err.Some? {
          return;
        }
        i := i + 1;
      }
      assert f.commands[i..] == [];
      return None;
    }

    /** One pass of the `while (fgets ...)` loop of `parse_file`: the line is
        routed as `Driver.ParseLine` describes, `current` is the file's open
        function and `next` the one open afterwards. */
    method RouteLine(line: string, current: Option<nat>, fuel: nat) returns (err: Option<Error>, next: Option<nat>)
      requires Valid() && LineFits(line)
      requires current.Some? ==> current.value < functionCount
      modifies this`functionCount, this`sudoMode, this`pointer, this`output, this`consumed, memory, functions
      ensures match Driver.ParseLine(Parser(old(Snapshot()), current), files, line, input, fuel)
        case Ok(p) => err == None && Valid() && Snapshot() == p.st && next == p.current &&
                      (next.Some? ==> next.value < functionCount)
        case Err(e) => err == Some(e)
      decreases fuel, 3
    {
      next := current;
      err := None;
      if line == [] || line[0] == ';' {
        return;
      }
      if Contains(line, "sudo") {
        sudoMode := true;
      } else if Contains(line, "nejatjobs") {
        var functionName := FirstToken(Drop(line, 10));
        if functionName.None? {
          return Some(InvalidFunctionDefinition), next;
        }
        err := AddFunction(functionName.value, sudoMode);
        if err.Some? {
          return;
        }
        next := Some(functionCount - 1);
      } else if line == "}" {
        next := None;
        sudoMode := false;
      } else if current.Some? {
        err := AddCommand(current.value, line);
      } else if Contains(line, "unibrow") {
        var importName := FirstToken(Drop(line, 8));
        if importName.None? {
          return Some(InvalidImport), next;
        }
        err := ParseFile(importName.value, fuel);
      } else {
        err := ExecuteLine(line, fuel);
      }
    }

    /** `parse_file`: the file is opened under its own name or with the
        `.alisahin` extension, and its lines are parsed one level deeper. */
    method ParseFile(name: string, fuel: nat) returns (err: Option<Error>)
      requires Valid()
      modifies this`functionCount, this`sudoMode, this`pointer, this`output, this`consumed, memory, functions
      ensures match Driver.ParseFile(old(Snapshot()), files, name, input, fuel)
        case Ok(s) => err == None && Valid() && Snapshot() == s
        case Err(e) => err == Some(e)
      decreases fuel, 0
    {
      if fuel == 0 {
        return Some(OutOfFuel);
      }
      var key := name;
      if key !in files {
        key := name + EXTENSION;
        if key !in files {
          return Some(CouldNotOpenFile);
        }
      }
      assert Resolve(files, name) == Some(files[key]);
      err := ParseLines(files[key], fuel - 1);
    }

    /** The `while (fgets ...)` loop of `parse_file`: each line routed in
        turn, starting with no function open. */
    method ParseLines(lines: seq<string>, fuel: nat) returns (err: Option<Error>)
      requires Valid()
      requires forall k :: 0 <= k < |lines| ==> LineFits(lines[k])
      modifies this`functionCount, this`sudoMode, this`pointer, this`output, this`consumed, memory, functions
      ensures match Driver.ParseLines(Parser(old(Snapshot()), None), files, lines, input, fuel)
        case Ok(p) => err == None && Valid() && Snapshot() == p.st
        case Err(e) => err == Some(e)
      decreases fuel, 4
    {
      ghost var start := Snapshot();
      var current: Option<nat> := None;
      var i := 0;
      while i < |lines|
        invariant 0 <= i <= |lines|
        invariant Valid()
        invariant current.Some? ==> current.value < functionCount
        invariant Driver.ParseLines(Parser(Snapshot(), current), files, lines[i..], input, fuel) ==
                  Driver.ParseLines(Parser(start, None), files, lines, input, fuel)
      {
        ParseLinesFirst(Parser(Snapshot(), current), files, lines[i..], input, fuel);
        assert lines[i..][0] == lines[i] && lines[i..][1..] == lines[i + 1..];
        var next;
        err, next := RouteLine(lines[i], current, fuel);
        if err.Some? {
          return;
        }
        current := next;
        i := i + 1;
      }
      assert lines[i..] == [];
      return None;
    }
  }
}
