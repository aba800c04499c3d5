/** The tape machine: 30000 byte cells, a data pointer, the bytes written by
    `kasistan` and the number of integers `alisah` has read so far. The
    primitive tokens and what each does to the machine. */
module Tape {
  import opened Base

  const MEMORY_SIZE: nat := 30000

  /** The bit pattern of one `char` cell. */
  type byte = x: int | 0 <= x < 256

  /** Value of a (signed) `char` whose bits are `b`. */
  function SignedChar(b: byte): int
  {
    if b < 128 then b else b - 256
  }

  /** C's `%` on `int`: the remainder truncates toward zero. */
  function CRem(a: int, n: int): int
    requires n > 0
  {
    if a >= 0 then a % n else -((-a) % n)
  }

  /** Storing an `int` into a `char` keeps its low eight bits. */
  function ToChar(v: int): byte
  {
    v % 256
  }

  /** `memory[pointer] = (memory[pointer] + d) % 256` as C evaluates it. */
  function CellUpdate(c: byte, d: int): byte
  {
    ToChar(CRem(SignedChar(c) + d, 256))
  }

  /** Adding a multiple of 256 does not change the stored bits. */
  lemma {:induction false} ModShift(a: int, k: int)
    ensures (a + 256 * k) % 256 == a % 256
  {
    var q := a / 256;
    var r := a % 256;
    assert a + 256 * k == 256 * (q + k) + r;
  }

  /** C's remainder differs from its operand by a multiple of 256. */
  lemma {:induction false} CRemShift(a: int) returns (k: int)
    ensures CRem(a, 256) == a + 256 * k
  {
    if a >= 0 {
      k := -(a / 256);
    } else {
      k := (-a) / 256;
    }
  }

  /** Whatever the signs involved, the stored bits are the old bits plus `d`
      modulo 256: decrementing 0 leaves 0xFF. */
  lemma {:induction false} CellUpdateWraps(c: byte, d: int)
    ensures CellUpdate(c, d) == (c + d) % 256
  {
    var x := SignedChar(c) + d;
    var e := if c < 128 then 0 else 1;
    assert x == (c + d) - 256 * e;
    var k := CRemShift(x);
    assert CRem(x, 256) == (c + d) + 256 * (k - e);
    ModShift(c + d, k - e);
  }

  datatype Machine = Machine(tape: seq<byte>, pointer: nat, output: seq<byte>, consumed: nat)
  {
    /** The tape has its fixed size and the pointer is on it. */
    predicate Valid()
    {
      |tape| == MEMORY_SIZE && pointer < MEMORY_SIZE
    }

    function Cell(): byte
      requires Valid()
    {
      tape[pointer]
    }

    /** `m` differs from this machine at most in the current cell and in the
        input consumed. */
    predicate OnlyCellChanged(m: Machine)
      requires Valid()
    {
      |m.tape| == |tape| && m.pointer == pointer && m.output == output &&
      forall k :: 0 <= k < |tape| && k != pointer ==> m.tape[k] == tape[k]
    }
  }

  /** The zeroed tape of `calloc`, pointer 0, nothing written or read. */
  function Initial(): (m: Machine)
    ensures m.Valid() && m.pointer == 0 && m.output == [] && m.consumed == 0
    ensures forall k :: 0 <= k < MEMORY_SIZE ==> m.tape[k] == 0
  {
    Machine(seq(MEMORY_SIZE, _ => 0), 0, [], 0)
  }

  /** `ali`: the pointer is incremented and then checked against the tape size. */
  function MoveRight(m: Machine): Result<Machine>
  {
    var p := m.pointer + 1;
    if p >= MEMORY_SIZE then Err(PointerRight) else Ok(m.(pointer := p))
  }

  /** `sahin`: the pointer is checked against 0 and then decremented. */
  function MoveLeft(m: Machine): Result<Machine>
  {
    if m.pointer == 0 then Err(PointerLeft) else Ok(m.(pointer := m.pointer - 1))
  }

  /** `kas`, `tek` and `alisah`: the current cell becomes `(cell + d) % 256`. */
  function AddToCell(m: Machine, d: int): Machine
    requires m.Valid()
  {
    m.(tape := m.tape[m.pointer := CellUpdate(m.Cell(), d)])
  }

  /** `kasistan`: `putchar` writes the current cell's bits. */
  function Emit(m: Machine): Machine
    requires m.Valid()
  {
    m.(output := m.output + [m.Cell()])
  }

  /** `alisah`: `scanf("%d")` delivers the next integer of the input, which is
      added to the current cell. */
  function ReadAdd(m: Machine, input: nat -> int): Machine
    requires m.Valid()
  {
    AddToCell(m.(consumed := m.consumed + 1), input(m.consumed))
  }

  lemma MoveRightSpec(m: Machine)
    requires m.Valid()
    ensures MoveRight(m).Err? <==> m.pointer == MEMORY_SIZE - 1
    ensures MoveRight(m).Ok? ==>
      var m' := MoveRight(m).value;
      m'.Valid() && m'.pointer == m.pointer + 1 &&
      m'.tape == m.tape && m'.output == m.output && m'.consumed == m.consumed
  {
  }

  lemma MoveLeftSpec(m: Machine)
    requires m.Valid()
    ensures MoveLeft(m).Err? <==> m.pointer == 0
    ensures MoveLeft(m).Ok? ==>
      var m' := MoveLeft(m).value;
      m'.Valid() && m'.pointer + 1 == m.pointer &&
      m'.tape == m.tape && m'.output == m.output && m'.consumed == m.consumed
  {
  }

  /** A successful move right is undone by a move left. */
  lemma MoveRightThenLeft(m: Machine)
    requires m.Valid() && MoveRight(m).Ok?
    ensures MoveLeft(MoveRight(m).value) == Ok(m)
  {
  }

  /** `kas`, `tek` and `alisah` touch only the current cell, which ends up at
      the old value plus 1, minus 1, or plus the integer read, modulo 256. */
  lemma {:induction false} CellOpsSpec(m: Machine, input: nat -> int)
    requires m.Valid()
    ensures var k := AddToCell(m, 1);
      k.Valid() && m.OnlyCellChanged(k) && k.consumed == m.consumed && k.Cell() == (m.Cell() + 1) % 256
    ensures var t := AddToCell(m, -1);
      t.Valid() && m.OnlyCellChanged(t) && t.consumed == m.consumed && t.Cell() == (m.Cell() + 255) % 256
    ensures var a := ReadAdd(m, input);
      a.Valid() && m.OnlyCellChanged(a) && a.consumed == m.consumed + 1 &&
      a.Cell() == (m.Cell() + input(m.consumed)) % 256
  {
    CellUpdateWraps(m.Cell(), 1);
    CellUpdateWraps(m.Cell(), -1);
    CellUpdateWraps(m.Cell(), input(m.consumed));
  }

  /** Incrementing then decrementing a cell value gives it back. */
  lemma {:induction false} IncThenDec(c: byte)
    ensures CellUpdate(CellUpdate(c, 1), -1) == c
  {
    CellUpdateWraps(c, 1);
    var up := CellUpdate(c, 1);
    CellUpdateWraps(up, -1);
    if c == 255 {
      assert up == 0;
      assert (up as int - 1) % 256 == 255;
    } else {
      assert up == c + 1;
      assert (up as int - 1) % 256 == c;
    }
  }

  /** Decrementing then incrementing a cell value gives it back. */
  lemma {:induction false} DecThenInc(c: byte)
    ensures CellUpdate(CellUpdate(c, -1), 1) == c
  {
    CellUpdateWraps(c, -1);
    var down := CellUpdate(c, -1);
    CellUpdateWraps(down, 1);
    if c == 0 {
      assert down == 255;
      assert (down as int + 1) % 256 == 0;
    } else {
      assert down == c - 1;
      assert (down as int + 1) % 256 == c;
    }
  }

  /** `kas` followed by `tek`, or `tek` followed by `kas`, restores the cell. */
  lemma {:induction false} IncrementDecrementRoundTrip(m: Machine)
    requires m.Valid()
    ensures AddToCell(AddToCell(m, 1), -1) == m
    ensures AddToCell(AddToCell(m, -1), 1) == m
  {
    IncThenDec(m.Cell());
    DecThenInc(m.Cell());
    assert AddToCell(AddToCell(m, 1), -1).tape == m.tape;
    assert AddToCell(AddToCell(m, -1), 1).tape == m.tape;
  }

  /** The eight primitive tokens. */
  datatype Primitive = Ali | Sahin | Kas | Tek | Kasistan | Alisah | Tekkas | Alisahin

  function Name(p: Primitive): string
  {
    match p
    case Ali => "ali"
    case Sahin => "sahin"
    case Kas => "kas"
    case Tek => "tek"
    case Kasistan => "kasistan"
    case Alisah => "alisah"
    case Tekkas => "tekkas"
    case Alisahin => "alisahin"
  }

  /** The `strcmp` chain of the line executor: which primitive, if any, a
      token names. */
  function ParsePrimitive(tok: string): (r: Option<Primitive>)
    ensures r.Some? ==> Name(r.value) == tok
    ensures r.None? ==> forall p :: Name(p) != tok
  {
    if tok == "ali" then Some(Ali)
    else if tok == "sahin" then Some(Sahin)
    else if tok == "kas" then Some(Kas)
    else if tok == "tek" then Some(Tek)
    else if tok == "kasistan" then Some(Kasistan)
    else if tok == "alisah" then Some(Alisah)
    else if tok == "tekkas" then Some(Tekkas)
    else if tok == "alisahin" then Some(Alisahin)
    else None
  }

  lemma ParseName(p: Primitive)
    ensures ParsePrimitive(Name(p)) == Some(p)
  {
  }

  /** The machine after one primitive token, and whether the token abandons
      the rest of its line. */
  datatype Exit = Exit(m: Machine, early: bool)

  /** One primitive token executed on the machine. */
  function Step(m: Machine, p: Primitive, input: nat -> int): (r: Result<Exit>)
    requires m.Valid()
    ensures r.Ok? ==> r.value.m.Valid()
    ensures r.Err? <==> (p == Ali && m.pointer == MEMORY_SIZE - 1) || (p == Sahin && m.pointer == 0)
    ensures r.Ok? ==> (r.value.early <==> (p == Tekkas && m.Cell() == 0) || (p == Alisahin && m.Cell() != 0))
    ensures r.Ok? && (p == Tekkas || p == Alisahin) ==> r.value.m == m
    ensures r.Ok? && p != Kasistan ==> r.value.m.output == m.output
    ensures r.Ok? && p == Kasistan ==> r.value == Exit(m.(output := m.output + [m.Cell()]), false)
  {
    match p
    case Ali => (match MoveRight(m) case Ok(m') => Ok(Exit(m', false)) case Err(e) => Err(e))
    case Sahin => (match MoveLeft(m) case Ok(m') => Ok(Exit(m', false)) case Err(e) => Err(e))
    case Kas => Ok(Exit(AddToCell(m, 1), false))
    case Tek => Ok(Exit(AddToCell(m, -1), false))
    case Kasistan => Ok(Exit(Emit(m), false))
    case Alisah => Ok(Exit(ReadAdd(m, input), false))
    case Tekkas => Ok(Exit(m, m.Cell() == 0))
    case Alisahin => Ok(Exit(m, m.Cell() != 0))
  }
}
