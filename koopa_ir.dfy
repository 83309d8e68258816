/**
 * The textual IR the front end writes, as structured lines, together with
 * their exact text and their meaning.
 *
 * Operands are integer literals, temporaries `%N`, or the empty text that
 * the emitter returns for an identifier missing from the symbol table.
 * Arithmetic on values wraps to 32 bits; `and`/`or` are bitwise on the
 * 32-bit two's complement patterns.
 */
module KoopaIr {
  import opened Common

  datatype Operand = Lit(n: int) | Temp(k: nat) | NoValue

  datatype IrOp = Mul | Div | Mod | Add | Sub | Lt | Gt | Le | Ge | Eq | Ne | And | Or

  datatype Inst =
    | BinInst(dst: nat, op: IrOp, a: Operand, b: Operand)  // %dst = op a, b
    | LoadInst(dst: nat, name: string)                       // %dst = load @name
    | AllocInst(name: string)                                // @name = alloc i32
    | StoreInst(v: Operand, name: string)                    // store v, @name
    | RetInst(v: Operand)                                    // ret v

  /** The name `NewTempSymbol` gives to the temporary numbered `k`. */
  function TempName(k: nat): (s: string)
    ensures |s| >= 2 && s[0] == '%'
  {
    "%" + NatToString(k)
  }

  /** Distinct numbers give distinct temporary names. */
  lemma TempNameInjective(j: nat, k: nat)
    requires TempName(j) == TempName(k)
    ensures j == k
  {
    assert NatToString(j) == TempName(j)[1..] == TempName(k)[1..] == NatToString(k);
    IntToStringInjective(j, k);
  }

  function OperandText(o: Operand): string {
    match o
    case Lit(n) => IntToString(n)
    case Temp(k) => TempName(k)
    case NoValue => ""
  }

  function OpName(op: IrOp): string {
    match op
    case Mul => "mul"
    case Div => "div"
    case Mod => "mod"
    case Add => "add"
    case Sub => "sub"
    case Lt => "lt"
    case Gt => "gt"
    case Le => "le"
    case Ge => "ge"
    case Eq => "eq"
    case Ne => "ne"
    case And => "and"
    case Or => "or"
  }

  /** `dst = mnemonic a, b` */
  function BinText(dst: string, mnemonic: string, a: string, b: string): string {
    dst + " = " + mnemonic + " " + a + ", " + b
  }

  /** `dst = load @x` */
  function LoadText(dst: string, x: string): string {
    dst + " = load @" + x
  }

  /** `@x = alloc i32` */
  function AllocText(x: string): string {
    "@" + x + " = alloc i32"
  }

  /** `store v, @x` */
  function StoreText(v: string, x: string): string {
    "store " + v + ", @" + x
  }

  /** `ret v` */
  function RetText(v: string): string {
    "ret " + v
  }

  /** The text of one line, without its indentation and newline. */
  function InstText(i: Inst): string {
    match i
    case BinInst(d, op, a, b) => BinText(TempName(d), OpName(op), OperandText(a), OperandText(b))
    case LoadInst(d, x) => LoadText(TempName(d), x)
    case AllocInst(x) => AllocText(x)
    case StoreInst(v, x) => StoreText(OperandText(v), x)
    case RetInst(v) => RetText(OperandText(v))
  }

  /** One line: indentation, text, newline. */
  function Line(tab: string, i: Inst): string {
    tab + InstText(i) + "\n"
  }

  /** The lines, each indented by `tab` and ended by a newline. */
  function Render(tab: string, insts: seq<Inst>): string
    decreases |insts|
  {
    if insts == [] then "" else Line(tab, insts[0]) + Render(tab, insts[1..])
  }

  lemma {:induction false} RenderAppend(tab: string, a: seq<Inst>, b: seq<Inst>)
    ensures Render(tab, a + b) == Render(tab, a) + Render(tab, b)
    decreases |a|
  {
    if a == [] {
      assert a + b == b;
    } else {
      assert (a + b)[0] == a[0] && (a + b)[1..] == a[1..] + b;
      RenderAppend(tab, a[1..], b);
    }
  }

  /** A buffer that received three pieces of code holds the code of their concatenation. */
  lemma RenderAppend3(tab: string, b: string, x: seq<Inst>, y: seq<Inst>, z: seq<Inst>)
    ensures b + Render(tab, x + y + z) == b + Render(tab, x) + Render(tab, y) + Render(tab, z)
  {
    RenderAppend(tab, x, y);
    RenderAppend(tab, x + y, z);
    Assoc4(b, Render(tab, x), Render(tab, y), Render(tab, z));
  }

  lemma RenderAppend2(tab: string, b: string, x: seq<Inst>, y: seq<Inst>)
    ensures b + Render(tab, x + y) == b + Render(tab, x) + Render(tab, y)
  {
    RenderAppend(tab, x, y);
    Assoc3(b, Render(tab, x), Render(tab, y));
  }

  lemma Assoc3(b: string, x: string, y: string)
    ensures b + (x + y) == b + x + y
  {
  }

  lemma Assoc4(b: string, x: string, y: string, z: string)
    ensures b + (x + y + z) == b + x + y + z
  {
  }

  lemma RenderOne(tab: string, i: Inst)
    ensures Render(tab, [i]) == Line(tab, i)
  {
    assert [i][1..] == [];
  }

  lemma RenderTwo(tab: string, i1: Inst, i2: Inst)
    ensures Render(tab, [i1, i2]) == Line(tab, i1) + Line(tab, i2)
  {
    assert [i1, i2][1..] == [i2];
    RenderOne(tab, i2);
  }

  lemma RenderThree(tab: string, i1: Inst, i2: Inst, i3: Inst)
    ensures Render(tab, [i1, i2, i3]) == Line(tab, i1) + Line(tab, i2) + Line(tab, i3)
  {
    assert [i1, i2, i3][1..] == [i2, i3];
    RenderTwo(tab, i2, i3);
  }

  // ---------------------------------------------------------------------
  // Meaning
  // ---------------------------------------------------------------------

  const TWO_32: int := 0x1_0000_0000

  /** Two's complement wrap-around to a 32-bit `int`. */
  function Wrap(x: int): (r: int)
    ensures IsI32(r)
    ensures IsI32(x) ==> r == x
  {
    (x - I32_MIN) % TWO_32 + I32_MIN
  }

  /** The 32-bit pattern of the wrapped value, read as an unsigned number. */
  function Unsigned(x: int): (u: nat)
    ensures u < TWO_32
  {
    var w := Wrap(x);
    if w < 0 then w + TWO_32 else w
  }

  function Pow2(w: nat): (p: nat)
    ensures p >= 1
  {
    if w == 0 then 1 else 2 * Pow2(w - 1)
  }

  /** Bitwise `and` of the low `w` bits, least significant bit first. */
  function BitsAnd(a: nat, b: nat, w: nat): nat
    decreases w
  {
    if w == 0 then 0
    else (if a % 2 == 1 && b % 2 == 1 then 1 else 0) + 2 * BitsAnd(a / 2, b / 2, w - 1)
  }

  /** Bitwise `or` of the low `w` bits, least significant bit first. */
  function BitsOr(a: nat, b: nat, w: nat): nat
    decreases w
  {
    if w == 0 then 0
    else (if a % 2 == 1 || b % 2 == 1 then 1 else 0) + 2 * BitsOr(a / 2, b / 2, w - 1)
  }

  /** For an `int`, the bit pattern is all zeros exactly when it is zero. */
  lemma UnsignedZero(x: int)
    requires IsI32(x)
    ensures Unsigned(x) == 0 <==> x == 0
  {
  }

  lemma WrapHigh(x: int)
    requires I32_MAX < x < TWO_32
    ensures Wrap(x) == x - TWO_32
  {
    var y := x - I32_MIN;
    assert TWO_32 <= y < 2 * TWO_32;
    assert y % TWO_32 == y - TWO_32;
  }

  /** A 32-bit pattern reads as the `int` zero exactly when it is zero. */
  lemma WrapPatternZero(u: nat)
    requires u < TWO_32
    ensures Wrap(u) == 0 <==> u == 0
  {
    if u > I32_MAX {
      WrapHigh(u);
    }
  }

  lemma {:induction false} BitsOrBound(a: nat, b: nat, w: nat)
    ensures BitsOr(a, b, w) < Pow2(w)
    decreases w
  {
    if w > 0 {
      BitsOrBound(a / 2, b / 2, w - 1);
    }
  }

  lemma {:induction false} BitsOrZero(a: nat, b: nat, w: nat)
    requires a < Pow2(w) && b < Pow2(w)
    ensures BitsOr(a, b, w) == 0 <==> a == 0 && b == 0
    decreases w
  {
    if w > 0 {
      BitsOrZero(a / 2, b / 2, w - 1);
    }
  }

  lemma {:induction false} BitsAndZero(w: nat)
    ensures BitsAnd(0, 0, w) == 0
    decreases w
  {
    if w > 0 {
      BitsAndZero(w - 1);
    }
  }

  lemma Pow2_32()
    ensures Pow2(32) == TWO_32
  {
    assert Pow2(8) == 256;
    assert Pow2(16) == 256 * 256 by {
      Pow2Add(8, 8);
    }
    Pow2Add(16, 16);
  }

  lemma {:induction false} Pow2Add(i: nat, j: nat)
    ensures Pow2(i + j) == Pow2(i) * Pow2(j)
    decreases j
  {
    if j > 0 {
      Pow2Add(i, j - 1);
    }
  }

  /** `or` of two values is non-zero exactly when one of them is: `||` after `ne 0`. */
  lemma OrNonZero(a: int, b: int)
    requires IsI32(a) && IsI32(b)
    ensures ApplyOp(Or, a, b).Some?
    ensures ApplyOp(Or, a, b).value != 0 <==> a != 0 || b != 0
  {
    var x, y := Unsigned(a), Unsigned(b);
    UnsignedZero(a);
    UnsignedZero(b);
    Pow2_32();
    BitsOrBound(x, y, 32);
    BitsOrZero(x, y, 32);
    WrapPatternZero(BitsOr(x, y, 32));
  }

  /** `and` of two truth values is their conjunction. */
  lemma AndTruth(a: int, b: int)
    requires (a == 0 || a == 1) && (b == 0 || b == 1)
    ensures ApplyOp(And, a, b) == Some(if a == 1 && b == 1 then 1 else 0)
  {
    assert Unsigned(a) == a && Unsigned(b) == b;
    BitsAndOneBit(a, b, 32);
  }

  lemma BitsAndOneBit(a: nat, b: nat, w: nat)
    requires a <= 1 && b <= 1 && w >= 1
    ensures BitsAnd(a, b, w) == (if a == 1 && b == 1 then 1 else 0)
  {
    BitsAndZero(w - 1);
  }

  function ApplyOp(op: IrOp, a: int, b: int): Option<int> {
    match op
    case Mul => Some(Wrap(a * b))
    case Div => if b == 0 then None else Some(Wrap(CDiv(a, b)))
    case Mod => if b == 0 then None else Some(Wrap(CMod(a, b)))
    case Add => Some(Wrap(a + b))
    case Sub => Some(Wrap(a - b))
    case Lt => Some(if a < b then 1 else 0)
    case Gt => Some(if a > b then 1 else 0)
    case Le => Some(if a <= b then 1 else 0)
    case Ge => Some(if a >= b then 1 else 0)
    case Eq => Some(if a == b then 1 else 0)
    case Ne => Some(if a != b then 1 else 0)
    case And => Some(Wrap(BitsAnd(Unsigned(a), Unsigned(b), 32)))
    case Or => Some(Wrap(BitsOr(Unsigned(a), Unsigned(b), 32)))
  }

  /** Temporaries and the cells of the allocated variables. */
  datatype State = State(temps: map<nat, int>, mem: map<string, int>)

  datatype Outcome = Running(s: State) | Returned(v: int) | Stuck

  function OperandValue(o: Operand, s: State): Option<int> {
    match o
    case Lit(n) => Some(n)
    case Temp(k) => if k in s.temps then Some(s.temps[k]) else None
    case NoValue => None
  }

  function Step(i: Inst, s: State): Outcome {
    match i
    case BinInst(d, op, a, b) =>
      var va, vb := OperandValue(a, s), OperandValue(b, s);
      if va.None? || vb.None? then Stuck
      else
        var r := ApplyOp(op, va.value, vb.value);
        if r.None? then Stuck else Running(s.(temps := s.temps[d := r.value]))
    case LoadInst(d, x) =>
      if x in s.mem then Running(s.(temps := s.temps[d := s.mem[x]])) else Stuck
    case AllocInst(x) => Running(s.(mem := s.mem - {x}))
    case StoreInst(v, x) =>
      var vv := OperandValue(v, s);
      if vv.None? then Stuck else Running(s.(mem := s.mem[x := vv.value]))
    case RetInst(v) =>
      var vv := OperandValue(v, s);
      if vv.None? then Stuck else Returned(vv.value)
  }

  /** Runs the lines in order, stopping at the first `ret` or the first fault. */
  function Exec(insts: seq<Inst>, s: State): Outcome
    decreases |insts|
  {
    if insts == [] then Running(s)
    else
      match Step(insts[0], s)
      case Running(s') => Exec(insts[1..], s')
      case other => other
  }

  lemma {:induction false} ExecAppend(a: seq<Inst>, b: seq<Inst>, s: State)
    ensures Exec(a + b, s) == (match Exec(a, s) case Running(s') => Exec(b, s') case other => other)
    decreases |a|
  {
    if a == [] {
      assert a + b == b;
    } else {
      assert (a + b)[1..] == a[1..] + b;
      match Step(a[0], s)
      case Running(s') => ExecAppend(a[1..], b, s');
      case _ =>
    }
  }
}
