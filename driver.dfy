/** The source driver (`parse_file`) as functions of the interpreter state:
    the tape machine, the function table and the global `sudo_mode` flag.
    Each file being parsed has its own `current_function`, here the index of
    the table entry that receives body lines. `fuel` bounds the nesting of
    imports and function calls together. */
module Driver {
  import opened Base
  import opened Text
  import opened Tape
  import opened Table
  import opened Exec

  /** The suffix tried when a file name cannot be opened as given. */
  const EXTENSION: string := ".alisahin"

  /** The files that can be opened, each as its lines without terminators. */
  type FileSystem = map<string, seq<string>>

  /** Everything `parse_file` shares with its callers and its imports. */
  datatype Interp = Interp(machine: Machine, table: seq<Function>, sudo: bool)
  {
    predicate Valid()
    {
      machine.Valid() && Table.Valid(table)
    }
  }

  /** The state of one `parse_file` activation: the shared state and its own
      `current_function`. */
  datatype Parser = Parser(st: Interp, current: Option<nat>)
  {
    predicate Valid()
    {
      st.Valid() && (current.Some? ==> current.value < |st.table|)
    }
  }

  /** The state before the first file is parsed. */
  function Start(): (s: Interp)
    ensures s.Valid() && s.table == [] && !s.sudo && s.machine == Tape.Initial()
  {
    Interp(Tape.Initial(), [], false)
  }

  /** `fopen(name)`, and failing that `fopen(name ".alisahin")`. */
  function Resolve(fs: FileSystem, name: string): Option<seq<string>>
  {
    if name in fs then Some(fs[name])
    else if name + EXTENSION in fs then Some(fs[name + EXTENSION])
    else None
  }

  /** An empty line (`strtok` gave NULL) or a comment. */
  predicate IsComment(line: string)
  {
    line == [] || line[0] == ';'
  }

  /** The routing of one line, in the order `parse_file` tests it: comment,
      `sudo` anywhere, `nejatjobs` anywhere, exactly `}`, a line of the open
      function, `unibrow` anywhere, and otherwise a statement. The function
      name is the first word from offset 10 of the line, the import name the
      first word from offset 8, wherever the keyword stands. After a header
      the open function is the last table entry. */
  function ParseLine(p: Parser, fs: FileSystem, line: string, input: nat -> int, fuel: nat): (r: Result<Parser>)
    requires p.Valid()
    ensures r.Ok? ==> r.value.Valid()
    decreases fuel, 1, 0
  {
    var st := p.st;
    if IsComment(line) then Ok(p)
    else if Contains(line, "sudo") then Ok(p.(st := st.(sudo := true)))
    else if Contains(line, "nejatjobs") then
      match FirstToken(Drop(line, 10))
      case None => Err(InvalidFunctionDefinition)
      case Some(name) =>
        AddFunctionKeepsValid(st.table, name, st.sudo);
        match AddFunction(st.table, name, st.sudo)
        case Err(e) => Err(e)
        case Ok(t) => Ok(Parser(st.(table := t), Some(|t| - 1)))
    else if line == "}" then Ok(Parser(st.(sudo := false), None))
    else if p.current.Some? then
      var i := p.current.value;
      match AddCommand(st.table[i], line)
      case Err(e) => Err(e)
      case Ok(f) =>
        var t := st.table[i := f];
        assert forall k :: 0 <= k < |t| ==> t[k].name == st.table[k].name;
        Ok(p.(st := st.(table := t)))
    else if Contains(line, "unibrow") then
      match FirstToken(Drop(line, 8))
      case None => Err(InvalidImport)
      case Some(file) =>
        match ParseFile(st, fs, file, input, fuel)
        case Err(e) => Err(e)
        case Ok(st') => Ok(Parser(st', None))
    else
      match ExecLine(st.machine, st.table, line, input, fuel)
      case Err(e) => Err(e)
      case Ok(m) => Ok(p.(st := st.(machine := m)))
  }

  /** The lines of one file, in order; the first error ends the run. */
  function ParseLines(p: Parser, fs: FileSystem, lines: seq<string>, input: nat -> int, fuel: nat): (r: Result<Parser>)
    requires p.Valid()
    ensures r.Ok? ==> r.value.Valid()
    decreases fuel, 2, |lines|
  {
    if lines == [] then Ok(p)
    else match ParseLine(p, fs, lines[0], input, fuel)
      case Err(e) => Err(e)
      case Ok(p') => ParseLines(p', fs, lines[1..], input, fuel)
  }

  /** `parse_file`: open the file, then parse its lines one level deeper
      with no function open. */
  function ParseFile(st: Interp, fs: FileSystem, name: string, input: nat -> int, fuel: nat): (r: Result<Interp>)
    requires st.Valid()
    ensures r.Ok? ==> r.value.Valid()
    decreases fuel, 0, 0
  {
    if fuel == 0 then Err(OutOfFuel)
    else match Resolve(fs, name)
      case None => Err(CouldNotOpenFile)
      case Some(lines) =>
        match ParseLines(Parser(st, None), fs, lines, input, fuel - 1)
        case Err(e) => Err(e)
        case Ok(p) => Ok(p.st)
  }

  /** A whole run of the interpreter on one file. */
  function Run(fs: FileSystem, name: string, input: nat -> int, fuel: nat): (r: Result<Interp>)
    ensures r.Ok? ==> r.value.Valid()
  {
    ParseFile(Start(), fs, name, input, fuel)
  }

  /** What is left of a run after a first stretch of lines ended in `r`. */
  function ThenLines(r: Result<Parser>, fs: FileSystem, lines: seq<string>, input: nat -> int, fuel: nat): Result<Parser>
    requires r.Ok? ==> r.value.Valid()
  {
    match r
    case Err(e) => Err(e)
    case Ok(p) => ParseLines(p, fs, lines, input, fuel)
  }

  /** The first line of a file is parsed first, and the rest from the state
      it leaves. */
  lemma ParseLinesFirst(p: Parser, fs: FileSystem, lines: seq<string>, input: nat -> int, fuel: nat)
    requires p.Valid() && lines != []
    ensures ParseLines(p, fs, lines, input, fuel) ==
      ThenLines(ParseLine(p, fs, lines[0], input, fuel), fs, lines[1..], input, fuel)
  {
  }

  /** Lines run strictly in order: parsing `a + b` is parsing `a` and then
      `b` from the state, open function included, that `a` left. */
  lemma {:induction false} ParseLinesAppend(p: Parser, fs: FileSystem, a: seq<string>, b: seq<string>, input: nat -> int, fuel: nat)
    requires p.Valid()
    ensures ParseLines(p, fs, a + b, input, fuel) == ThenLines(ParseLines(p, fs, a, input, fuel), fs, b, input, fuel)
    decreases |a|
  {
    if a == [] {
      assert a + b == b;
    } else {
      assert (a + b)[0] == a[0];
      assert (a + b)[1..] == a[1..] + b;
      match ParseLine(p, fs, a[0], input, fuel)
      case Err(e) =>
      case Ok(p') => ParseLinesAppend(p', fs, a[1..], b, input, fuel);
    }
  }

  /** Empty lines and lines starting with `;` change nothing. */
  lemma CommentSkipped(p: Parser, fs: FileSystem, line: string, input: nat -> int, fuel: nat)
    requires p.Valid() && IsComment(line)
    ensures ParseLine(p, fs, line, input, fuel) == Ok(p)
  {
  }

  /** A line containing `sudo` only sets the flag, even inside a function
      body: it is neither recorded nor executed. */
  lemma SudoLineOnlyArms(p: Parser, fs: FileSystem, line: string, input: nat -> int, fuel: nat)
    requires p.Valid() && !IsComment(line) && Contains(line, "sudo")
    ensures ParseLine(p, fs, line, input, fuel) == Ok(Parser(p.st.(sudo := true), p.current))
  {
  }

  /** `}` closes the open function and clears `sudo_mode`. */
  lemma CloseClears(p: Parser, fs: FileSystem, input: nat -> int, fuel: nat)
    requires p.Valid()
    ensures ParseLine(p, fs, "}", input, fuel) == Ok(Parser(p.st.(sudo := false), None))
  {
    assert !Contains("}", "sudo") && !Contains("}", "nejatjobs");
  }

  /** While a function is open, every other line, `unibrow` lines included,
      is appended verbatim to that function and not executed; it fails only
      when the function already has 1000 commands. */
  lemma {:induction false} OpenBodyRecords(p: Parser, fs: FileSystem, line: string, input: nat -> int, fuel: nat)
    requires p.Valid() && p.current.Some?
    requires !IsComment(line) && !Contains(line, "sudo") && !Contains(line, "nejatjobs") && line != "}"
    ensures var r := ParseLine(p, fs, line, input, fuel);
      var i := p.current.value;
      var f := p.st.table[i];
      (r.Err? <==> |f.commands| >= MAX_COMMANDS_PER_FUNCTION) &&
      (r.Err? ==> r.error == TooManyCommands) &&
      (r.Ok? ==> r.value.current == p.current && r.value.st.machine == p.st.machine &&
                 r.value.st.sudo == p.st.sudo &&
                 r.value.st.table == p.st.table[i := f.(commands := f.commands + [line])])
  {
  }

  /** A header line defines the function named by the first word from offset
      10 with the current sudo flag; the open function is then the last
      table entry. */
  lemma HeaderDefines(p: Parser, fs: FileSystem, line: string, input: nat -> int, fuel: nat)
    requires p.Valid() && !IsComment(line) && !Contains(line, "sudo") && Contains(line, "nejatjobs")
    ensures var r := ParseLine(p, fs, line, input, fuel);
      match FirstToken(Drop(line, 10))
      case None => r == Err(InvalidFunctionDefinition)
      case Some(name) =>
        match AddFunction(p.st.table, name, p.st.sudo)
        case Err(e) => r == Err(e)
        case Ok(t) => r == Ok(Parser(p.st.(table := t), Some(|t| - 1))) &&
                      Lookup(t, name) == Some(Function(name, [], p.st.sudo))
  {
    match FirstToken(Drop(line, 10))
    case None =>
    case Some(name) => AddFunctionKeepsValid(p.st.table, name, p.st.sudo);
  }

  /** Redefining an entry that is not the last one leaves the last entry
      open: the next body line is appended to it, and the redefined function
      keeps an empty body. */
  lemma {:induction false} OverrideOpensLastEntry(p: Parser, fs: FileSystem, header: string, body: string, i: nat, input: nat -> int, fuel: nat)
    requires p.Valid() && |p.st.table| < MAX_FUNCTIONS && i + 1 < |p.st.table|
    requires !IsComment(header) && !Contains(header, "sudo") && Contains(header, "nejatjobs")
    requires FirstToken(Drop(header, 10)) == Some(p.st.table[i].name)
    requires p.st.sudo || !p.st.table[i].isSudo
    requires !IsComment(body) && !Contains(body, "sudo") && !Contains(body, "nejatjobs") && body != "}"
    requires |p.st.table[|p.st.table| - 1].commands| < MAX_COMMANDS_PER_FUNCTION
    ensures var r := ParseLines(p, fs, [header, body], input, fuel);
      var t := p.st.table;
      var last := |t| - 1;
      r.Ok? && r.value.current == Some(last) &&
      r.value.st.table[i] == Function(t[i].name, [], p.st.sudo) &&
      r.value.st.table[last] == t[last].(commands := t[last].commands + [body])
  {
    var t := p.st.table;
    RedefineRule(t, i, p.st.sudo);
    var t1 := AddFunction(t, t[i].name, p.st.sudo).value;
    var p1 := Parser(p.st.(table := t1), Some(|t1| - 1));
    assert ParseLine(p, fs, header, input, fuel) == Ok(p1);
    assert |t1| == |t|;
    OpenBodyRecords(p1, fs, body, input, fuel);
    var p2 := ParseLine(p1, fs, body, input, fuel).value;
    assert [header, body][1..] == [body];
    assert [body][1..] == [];
    assert ParseLines(p1, fs, [body], input, fuel) == Ok(p2);
    assert ParseLines(p, fs, [header, body], input, fuel) == Ok(p2);
  }

  /** With no function open, an import line with no word from offset 8 is
      an invalid import; otherwise it parses the whole imported file,
      sharing the tape, the table and `sudo_mode`, before the next line of
      the importing file. */
  lemma {:induction false} ImportRunsFirst(p: Parser, fs: FileSystem, line: string, rest: seq<string>, input: nat -> int, fuel: nat)
    requires p.Valid() && p.current.None?
    requires !IsComment(line) && !Contains(line, "sudo") && !Contains(line, "nejatjobs") && line != "}"
    requires Contains(line, "unibrow")
    ensures var r := ParseLines(p, fs, [line] + rest, input, fuel);
      match FirstToken(Drop(line, 8))
      case None => r == Err(InvalidImport)
      case Some(file) =>
        r == match ParseFile(p.st, fs, file, input, fuel)
             case Err(e) => Err(e)
             case Ok(st') => ParseLines(Parser(st', None), fs, rest, input, fuel)
  {
    assert ([line] + rest)[1..] == rest;
  }

  /** With no function open, any other line is executed on the tape, with
      the table and the flag left as they are. */
  lemma StatementExecuted(p: Parser, fs: FileSystem, line: string, input: nat -> int, fuel: nat)
    requires p.Valid() && p.current.None?
    requires !IsComment(line) && !Contains(line, "sudo") && !Contains(line, "nejatjobs") && line != "}"
    requires !Contains(line, "unibrow")
    ensures ParseLine(p, fs, line, input, fuel) ==
      match ExecLine(p.st.machine, p.st.table, line, input, fuel)
      case Err(e) => Err(e)
      case Ok(m) => Ok(p.(st := p.st.(machine := m)))
  {
  }

  /** A file is opened under its own name first, then with `.alisahin`
      appended; when neither exists the run fails. */
  lemma FileResolution(st: Interp, fs: FileSystem, name: string, input: nat -> int, fuel: nat)
    requires st.Valid() && fuel > 0
    ensures name in fs ==>
      ParseFile(st, fs, name, input, fuel) ==
        (match ParseLines(Parser(st, None), fs, fs[name], input, fuel - 1)
         case Err(e) => Err(e)
         case Ok(p) => Ok(p.st))
    ensures name !in fs && name + EXTENSION in fs ==>
      ParseFile(st, fs, name, input, fuel) ==
        (match ParseLines(Parser(st, None), fs, fs[name + EXTENSION], input, fuel - 1)
         case Err(e) => Err(e)
         case Ok(p) => Ok(p.st))
    ensures name !in fs && name + EXTENSION !in fs ==> ParseFile(st, fs, name, input, fuel) == Err(CouldNotOpenFile)
  {
  }
}
