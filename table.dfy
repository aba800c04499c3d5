/** The function table: at most 100 records, each a name, the command lines
    recorded for it (at most 1000) and whether it was defined in sudo mode.
    The operations here are the values `add_function`, `get_function` and
    `add_command_to_function` compute; class `Interpreter` performs them in
    place on the `functions` array. */
module Table {
  import opened Base

  const MAX_FUNCTIONS: nat := 100
  const MAX_COMMANDS_PER_FUNCTION: nat := 1000

  datatype Function = Function(name: string, commands: seq<string>, isSudo: bool)

  /** No two entries share a name. */
  predicate UniqueNames(t: seq<Function>)
  {
    forall i, j :: 0 <= i < j < |t| ==> t[i].name != t[j].name
  }

  /** The bounds of the C arrays, and unique names. */
  predicate Valid(t: seq<Function>)
  {
    |t| <= MAX_FUNCTIONS && UniqueNames(t) &&
    forall i :: 0 <= i < |t| ==> |t[i].commands| <= MAX_COMMANDS_PER_FUNCTION
  }

  /** `get_function`: the index of the first entry called `name`. */
  function Find(t: seq<Function>, name: string): (r: Option<nat>)
    ensures r.Some? ==> r.value < |t| && t[r.value].name == name
    ensures r.Some? ==> forall k :: 0 <= k < r.value ==> t[k].name != name
    ensures r.None? ==> forall k :: 0 <= k < |t| ==> t[k].name != name
  {
    if t == [] then None
    else if t[0].name == name then Some(0)
    else match Find(t[1..], name)
      case None => None
      case Some(j) => Some(j + 1)
  }

  /** The record `get_function` points to, if any. */
  function Lookup(t: seq<Function>, name: string): (r: Option<Function>)
  {
    match Find(t, name)
    case None => None
    case Some(i) => Some(t[i])
  }

  /** In a table with unique names, an entry is found exactly where it is. */
  lemma {:induction false} FindUnique(t: seq<Function>, i: nat)
    requires UniqueNames(t) && i < |t|
    ensures Find(t, t[i].name) == Some(i)
  {
  }

  /** `add_function`. The capacity check comes first, so even redefining an
      existing name fails once the table is full. An existing entry is reset
      in place when the new definition is sudo or the old one is not; a new
      name is appended. */
  function AddFunction(t: seq<Function>, name: string, isSudo: bool): Result<seq<Function>>
  {
    if |t| >= MAX_FUNCTIONS then Err(TooManyFunctions)
    else match Find(t, name)
      case Some(i) =>
        if isSudo || !t[i].isSudo then Ok(t[i := Function(name, [], isSudo)])
        else Err(SudoOverride)
      case None => Ok(t + [Function(name, [], isSudo)])
  }

  /** A full table refuses every definition, old names included. */
  lemma FullTableRefuses(t: seq<Function>, name: string, isSudo: bool)
    requires |t| >= MAX_FUNCTIONS
    ensures AddFunction(t, name, isSudo) == Err(TooManyFunctions)
  {
  }

  /** Redefining entry `i`: allowed exactly when the new definition is sudo or
      the old one is not. When allowed the body is emptied, the flag replaced,
      the size and every other entry unchanged; otherwise nothing changes and
      the error is `SudoOverride`. */
  lemma {:induction false} RedefineRule(t: seq<Function>, i: nat, isSudo: bool)
    requires UniqueNames(t) && i < |t| < MAX_FUNCTIONS
    ensures var r := AddFunction(t, t[i].name, isSudo);
      (r.Ok? <==> isSudo || !t[i].isSudo) &&
      (r.Ok? ==> |r.value| == |t| && r.value[i] == Function(t[i].name, [], isSudo) &&
                 forall k :: 0 <= k < |t| && k != i ==> r.value[k] == t[k]) &&
      (r.Err? ==> r.error == SudoOverride)
  {
    FindUnique(t, i);
  }

  /** A name not yet defined is appended at index `|t|`. */
  lemma NewNameAppended(t: seq<Function>, name: string, isSudo: bool)
    requires |t| < MAX_FUNCTIONS
    requires forall k :: 0 <= k < |t| ==> t[k].name != name
    ensures AddFunction(t, name, isSudo) == Ok(t + [Function(name, [], isSudo)])
  {
  }

  /** `add_function` keeps the table within its bounds and its names unique,
      and afterwards `name` is defined, with an empty body and the new flag. */
  lemma {:induction false} AddFunctionKeepsValid(t: seq<Function>, name: string, isSudo: bool)
    requires Valid(t)
    ensures var r := AddFunction(t, name, isSudo);
      r.Ok? ==> Valid(r.value) && Lookup(r.value, name) == Some(Function(name, [], isSudo))
  {
    var r := AddFunction(t, name, isSudo);
    if r.Ok? {
      var t' := r.value;
      match Find(t, name)
      case Some(i) =>
        assert forall k :: 0 <= k < |t'| ==> t'[k].name == t[k].name;
        FindUnique(t', i);
      case None =>
        FindUnique(t', |t|);
    }
  }

  /** `add_command_to_function`: fails once 1000 commands are recorded,
      otherwise appends the command. */
  function AddCommand(f: Function, command: string): Result<Function>
  {
    if |f.commands| >= MAX_COMMANDS_PER_FUNCTION then Err(TooManyCommands)
    else Ok(f.(commands := f.commands + [command]))
  }

  /** Adding a command keeps the name, the flag and every earlier command,
      and puts the new command last. */
  lemma AddCommandAppends(f: Function, command: string)
    ensures AddCommand(f, command).Ok? <==> |f.commands| < MAX_COMMANDS_PER_FUNCTION
    ensures AddCommand(f, command).Err? ==> AddCommand(f, command).error == TooManyCommands
    ensures AddCommand(f, command).Ok? ==>
      var g := AddCommand(f, command).value;
      g.name == f.name && g.isSudo == f.isSudo && |g.commands| == |f.commands| + 1 &&
      g.commands[..|f.commands|] == f.commands && g.commands[|f.commands|] == command
  {
  }

  /** The table without the entries called `name`. */
  function Without(t: seq<Function>, name: string): (r: seq<Function>)
    ensures forall k :: 0 <= k < |r| ==> r[k].name != name
  {
    if t == [] then []
    else (if t[0].name == name then [] else [t[0]]) + Without(t[1..], name)
  }

  /** Looking a name up in a non-empty table: the head, or the tail. */
  lemma LookupCons(t: seq<Function>, n: string)
    requires t != []
    ensures Lookup(t, n) == if t[0].name == n then Some(t[0]) else Lookup(t[1..], n)
  {
    if t[0].name != n {
      match Find(t[1..], n)
      case None =>
      case Some(j) => assert t[j + 1] == t[1..][j];
    }
  }

  /** Removing the entries called `x` changes no lookup of another name. */
  lemma {:induction false} LookupWithout(t: seq<Function>, x: string, n: string)
    requires n != x
    ensures Lookup(Without(t, x), n) == Lookup(t, n)
  {
    if t != [] {
      LookupWithout(t[1..], x, n);
      LookupCons(t, n);
      var w := Without(t, x);
      if t[0].name != x {
        assert w == [t[0]] + Without(t[1..], x);
        assert w[1..] == Without(t[1..], x);
        LookupCons(w, n);
      } else {
        assert w == Without(t[1..], x);
      }
    }
  }
}
