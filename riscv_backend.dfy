/**
 * The back end: RISC-V instruction selection over the raw Koopa program.
 *
 * A raw program is a graph of values identified by number; an instruction
 * names its operands by their numbers, which are smaller than its own.
 * `Visit_Inst` memoises the result of every value it visits (`hasDone`): the
 * register holding a computed value, the literal of an integer, 0 for a
 * return.  Every result goes to register `t<now>`, where `now` is one more
 * than the largest register among the operands.
 *
 * The spec functions thread the state of a run (`St`: text written so far
 * and the memo) exactly as the class `CodeGen` updates its fields.  A fatal
 * `assert(false)` of the source ends the run (`Fatal`, `Aborted`).
 */
module RiscvBackend {
  import opened Common
  import KoopaIr

  /** `koopa_raw_binary_op_t`. */
  datatype BinaryOp =
    | NotEq | Eq | Gt | Lt | Ge | Le
    | Add | Sub | Mul | Div | Mod
    | And | Or | Xor | Shl | Shr | Sar

  /** The kind of a raw value; `OtherKind` stands for every tag the back end does not handle. */
  datatype ValueKind =
    | Integer(value: int)
    | Binary(op: BinaryOp, lhs: nat, rhs: nat)
    | Return(ret: nat)
    | OtherKind(tag: nat)

  type Graph = map<nat, ValueKind>

  /** The operands of `id` are values of the graph with smaller numbers. */
  predicate OperandsBelow(g: Graph, id: nat)
    requires id in g
  {
    match g[id]
    case Binary(_, l, r) => l < id && r < id && l in g && r in g
    case Return(v) => v < id && v in g
    case _ => true
  }

  predicate WellFormed(g: Graph) {
    forall id :: id in g ==> OperandsBelow(g, id)
  }

  datatype BasicBlock = BasicBlock(name: string, insts: seq<nat>)

  datatype Function = Function(name: string, bbs: seq<BasicBlock>)

  datatype Program = Program(values: seq<nat>, funcs: seq<Function>)

  /** Koopa names carry a one-character sigil (`@` or `%`), which the labels drop. */
  predicate Named(name: string) {
    |name| >= 1
  }

  predicate AllIn(g: Graph, ids: seq<nat>) {
    forall i :: 0 <= i < |ids| ==> ids[i] in g
  }

  predicate BlockOk(g: Graph, bb: BasicBlock) {
    Named(bb.name) && AllIn(g, bb.insts)
  }

  predicate FunctionOk(g: Graph, f: Function) {
    Named(f.name) && forall i :: 0 <= i < |f.bbs| ==> BlockOk(g, f.bbs[i])
  }

  predicate ProgramOk(g: Graph, p: Program) {
    WellFormed(g) && AllIn(g, p.values) && forall i :: 0 <= i < |p.funcs| ==> FunctionOk(g, p.funcs[i])
  }

  /** The state of a run: everything written to the output so far and the memo `hasDone`. */
  datatype St = St(out: string, done: map<nat, int>)

  /** The result of visiting one value. */
  datatype Res = Ok(st: St, r: int) | Fatal

  /** The result of visiting a slice. */
  datatype Visit = Visited(st: St) | Aborted

  /** An operand: a literal, taken without visiting it, or the register of a visited value. */
  datatype Opnd = Opnd(st: St, isInteger: bool, value: int) | OpndFatal

  /** Memo entries are only added. */
  predicate Extends(d: map<nat, int>, d': map<nat, int>) {
    forall k :: k in d ==> k in d' && d'[k] == d[k]
  }

  // ---------------------------------------------------------------------
  // Text
  // ---------------------------------------------------------------------

  function Reg(k: int): string {
    "t" + IntToString(k)
  }

  /** `\tli t<reg>, <v>\n` */
  function LiText(reg: int, v: int): string {
    "\tli " + Reg(reg) + ", " + IntToString(v) + "\n"
  }

  /** `\t<mnemonic> t<now>, ` */
  function HeadText(mnemonic: string, now: int): string {
    "\t" + mnemonic + " " + Reg(now) + ", "
  }

  /** The first source operand: `x0, ` for the literal zero, else `t<v>, `. */
  function LhsField(isInteger: bool, v: int): string {
    if isInteger then "x0, " else Reg(v) + ", "
  }

  /** The second source operand: `x0, ` for the literal zero (no newline), else `t<v>\n`. */
  function RhsField(isInteger: bool, v: int): string {
    if isInteger then "x0, " else Reg(v) + "\n"
  }

  /** `\t<mnemonic> t<now>, t<now>\n` */
  function SetText(mnemonic: string, now: int): string {
    "\t" + mnemonic + " " + Reg(now) + ", " + Reg(now) + "\n"
  }

  function AndiText(now: int): string {
    "\tandi " + Reg(now) + ", " + Reg(now) + ", 0xff\n"
  }

  function XoriText(now: int): string {
    "\txori " + Reg(now) + ", " + Reg(now) + ", 1\n"
  }

  /** The first instruction selected for each operation; `Sar` has none. */
  function Mnemonic(op: BinaryOp): Option<string> {
    match op
    case NotEq => Some("sub")
    case Eq => Some("sub")
    case Gt => Some("sgt")
    case Lt => Some("slt")
    case Ge => Some("slt")
    case Le => Some("sgt")
    case Add => Some("add")
    case Sub => Some("sub")
    case Mul => Some("mul")
    case Div => Some("div")
    case Mod => Some("rem")
    case And => Some("and")
    case Or => Some("or")
    case Xor => Some("xor")
    case Shl => Some("sll")
    case Shr => Some("sra")
    case Sar => None
  }

  /** The lines after the first instruction: comparisons normalise their result to 0/1. */
  function TailOut(op: BinaryOp, now: int, out: string): (r: string)
    ensures out <= r
  {
    match op
    case NotEq => out + SetText("snez", now) + AndiText(now)
    case Eq => out + SetText("seqz", now) + AndiText(now)
    case Gt => out + AndiText(now)
    case Lt => out + AndiText(now)
    case Ge => out + XoriText(now) + AndiText(now)
    case Le => out + XoriText(now) + AndiText(now)
    case _ => out
  }

  function Label(name: string): string
    requires Named(name)
  {
    name[1..] + ":\n"
  }

  // ---------------------------------------------------------------------
  // What a run does
  // ---------------------------------------------------------------------

  /** `Visit_Inst_Integer`: the literal, unchanged. */
  function IntegerValue(k: ValueKind): (v: int)
    requires k.Integer?
    ensures v == k.value
  {
    k.value
  }

  /** `now`: 0, raised above every operand that lives in a register. */
  function ResultReg(lInt: bool, lv: int, rInt: bool, rv: int): (now: int)
    ensures now >= 0
    ensures !lInt ==> now > lv
    ensures !rInt ==> now > rv
    ensures now == 0 || (!lInt && now == lv + 1) || (!rInt && now == rv + 1)
  {
    var n0 := 0;
    var n1 := if !lInt then Max(n0, lv + 1) else n0;
    if !rInt then Max(n1, rv + 1) else n1
  }

  function Max(a: int, b: int): int {
    if a < b then b else a
  }

  /** `Visit_Inst`: a memo hit writes nothing; otherwise the value is handled and its result recorded. */
  function InstGen(g: Graph, st: St, id: nat): (x: Res)
    requires WellFormed(g) && id in g
    ensures x.Ok? ==> Extends(st.done, x.st.done) && id in x.st.done && x.st.done[id] == x.r
    ensures x.Ok? ==> st.out <= x.st.out
    ensures id in st.done ==> x == Ok(st, st.done[id])
    ensures id !in st.done && g[id].OtherKind? ==> x.Fatal?
    ensures id !in st.done && g[id].Binary? && g[id].op == Sar ==> x.Fatal?
    decreases id, 1
  {
    if id in st.done then Ok(st, st.done[id])
    else
      match g[id]
      case Return(_) => Record(ReturnGen(g, st, id), id)
      case Integer(_) =>
        var v := IntegerValue(g[id]);
        Ok(St(st.out, st.done[id := v]), v)
      case Binary(_, _, _) => Record(BinaryGen(g, st, id), id)
      case OtherKind(_) => Fatal
  }

  /** `hasDone[value] = ...` after the handler returned. */
  function Record(x: Res, id: nat): (y: Res)
    ensures x.Ok? ==> y == Ok(St(x.st.out, x.st.done[id := x.r]), x.r)
    ensures x.Fatal? ==> y.Fatal?
  {
    if x.Fatal? then Fatal else Ok(St(x.st.out, x.st.done[id := x.r]), x.r)
  }

  /** `Visit_Inst_Return`: `li a0, N` for a literal, `mv a0, tR` for a register; its result is 0. */
  function ReturnGen(g: Graph, st: St, id: nat): (x: Res)
    requires WellFormed(g) && id in g && g[id].Return?
    ensures x.Ok? ==> Extends(st.done, x.st.done) && st.out <= x.st.out && x.r == 0
    decreases id, 0
  {
    var v := g[id].ret;
    assert OperandsBelow(g, id);
    if g[v].Integer? then
      Ok(St(st.out + ("\tli a0, " + IntToString(IntegerValue(g[v])) + "\n") + "\tret\n", st.done), 0)
    else
      match InstGen(g, st, v)
      case Fatal => Fatal
      case Ok(st1, reg) => Ok(St(st1.out + ("\tmv a0, " + Reg(reg) + "\n") + "\tret\n", st1.done), 0)
  }

  /** One operand of a binary instruction: a literal is read directly, anything else is visited. */
  function OperandGen(g: Graph, st: St, v: nat): (x: Opnd)
    requires WellFormed(g) && v in g
    ensures x.Opnd? ==> Extends(st.done, x.st.done) && st.out <= x.st.out && (x.isInteger <==> g[v].Integer?)
    ensures x.Opnd? && x.isInteger ==> x.value == g[v].value && x.st == st
    ensures x.Opnd? && !x.isInteger ==> v in x.st.done && x.value == x.st.done[v]
    ensures x.OpndFatal? <==> !g[v].Integer? && InstGen(g, st, v).Fatal?
    decreases v, 2
  {
    if g[v].Integer? then Opnd(st, true, IntegerValue(g[v]))
    else
      match InstGen(g, st, v)
      case Fatal => OpndFatal
      case Ok(st1, reg) => Opnd(st1, false, reg)
  }

  /** `Visit_Inst_Binary`: both operands, then the selected instructions into `t<now>`. */
  function BinaryGen(g: Graph, st: St, id: nat): (x: Res)
    requires WellFormed(g) && id in g && g[id].Binary?
    ensures x.Ok? ==> Extends(st.done, x.st.done) && st.out <= x.st.out
    ensures g[id].op == Sar ==> x.Fatal?
    decreases id, 0
  {
    assert OperandsBelow(g, id);
    var xl := OperandGen(g, st, g[id].lhs);
    if xl.OpndFatal? then Fatal
    else
      var xr := OperandGen(g, xl.st, g[id].rhs);
      if xr.OpndFatal? then Fatal
      else BinaryFinish(g[id].op, xr.st, xl.isInteger, xl.value, xr.isInteger, xr.value)
  }

  /**
   * Lines 232-437: a non-zero literal operand is first loaded (the left one
   * into `t<now>`, the right one into `t<now+1>`), a zero literal stays `x0`,
   * then the instructions of the operation.
   */
  function BinaryFinish(op: BinaryOp, st: St, lInt: bool, lv: int, rInt: bool, rv: int): (x: Res)
    ensures x.Fatal? <==> op == Sar
    ensures x.Ok? ==> x.st.done == st.done && st.out <= x.st.out && x.r == ResultReg(lInt, lv, rInt, rv)
  {
    var now := ResultReg(lInt, lv, rInt, rv);
    var ld := LoadsOut(st.out, now, lInt, lv, rInt, rv);
    var r := OpOut(op, now, ld.out, ld.lInt, ld.lv, ld.rInt, ld.rv);
    if r.None? then Fatal
    else
      PrefixTrans(st.out, ld.out, r.value);
      Ok(St(r.value, st.done), now)
  }

  lemma PrefixTrans(a: string, b: string, c: string)
    requires a <= b && b <= c
    ensures a <= c
  {
  }

  /** The operands once non-zero literals are loaded, and the text written so far. */
  datatype Loaded = Loaded(out: string, lInt: bool, lv: int, rInt: bool, rv: int)

  /** Lines 238-248: the left literal into `t<now>`, the right one into `t<now+1>`, unless zero. */
  function LoadsOut(out: string, now: int, lInt: bool, lv: int, rInt: bool, rv: int): (ld: Loaded)
    ensures ld.lInt <==> lInt && lv == 0
    ensures ld.rInt <==> rInt && rv == 0
    ensures ld.lv == if lInt && lv != 0 then now else lv
    ensures ld.rv == if rInt && rv != 0 then now + 1 else rv
    ensures ld.out == out + (if lInt && lv != 0 then LiText(now, lv) else "")
                          + (if rInt && rv != 0 then LiText(now + 1, rv) else "")
    ensures out <= ld.out
  {
    var loadL := lInt && lv != 0;
    var out1 := if loadL then out + LiText(now, lv) else out;
    var loadR := rInt && rv != 0;
    var out2 := if loadR then out1 + LiText(now + 1, rv) else out1;
    Loaded(out2, lInt && !loadL, if loadL then now else lv, rInt && !loadR, if loadR then now + 1 else rv)
  }

  /** The selected instructions, or `None` for an operation without one (the fatal default). */
  function OpOut(op: BinaryOp, now: int, out: string, lInt: bool, lv: int, rInt: bool, rv: int): (r: Option<string>)
    ensures r.None? <==> op == Sar
    ensures r.Some? ==> out <= r.value
  {
    match Mnemonic(op)
    case None => None
    case Some(mn) => Some(TailOut(op, now, out + HeadText(mn, now) + LhsField(lInt, lv) + RhsField(rInt, rv)))
  }

  /** The six comparisons, whose result is normalised to a 0/1 byte. */
  predicate IsComparison(op: BinaryOp) {
    op == NotEq || op == Eq || op == Gt || op == Lt || op == Ge || op == Le
  }

  /** `\t<mnemonic> t<now>, ` and the two operand fields: one selected instruction. */
  function Instr(mnemonic: string, now: int, lInt: bool, lv: int, rInt: bool, rv: int): string {
    HeadText(mnemonic, now) + LhsField(lInt, lv) + RhsField(rInt, rv)
  }

  /**
   * Lines 255-429: a comparison ends by masking its register with `andi ..., 0xff`;
   * every other operation except `Sar` is exactly one instruction, its mnemonic
   * applied to `t<now>` and the two operand fields.
   */
  lemma OpSelection(op: BinaryOp, now: int, out: string, lInt: bool, lv: int, rInt: bool, rv: int)
    ensures IsComparison(op) ==>
      (OpOut(op, now, out, lInt, lv, rInt, rv).Some? &&
       var t := OpOut(op, now, out, lInt, lv, rInt, rv).value;
       |t| >= |AndiText(now)| && t[|t| - |AndiText(now)|..] == AndiText(now))
    ensures !IsComparison(op) && op != Sar ==>
      (Mnemonic(op).Some? &&
       OpOut(op, now, out, lInt, lv, rInt, rv) ==
         Some(out + HeadText(Mnemonic(op).value, now) + LhsField(lInt, lv) + RhsField(rInt, rv)))
  {
  }

  /**
   * Lines 255-327, per comparison: `!=` and `==` subtract and test the
   * difference with `snez`/`seqz`; `>` and `<` are one `sgt`/`slt`; `>=` and
   * `<=` negate `slt`/`sgt` with `xori ..., 1`; each then masks with `andi`.
   */
  lemma ComparisonSelection(op: BinaryOp, now: int, out: string, lInt: bool, lv: int, rInt: bool, rv: int)
    ensures op == NotEq ==> (OpOut(op, now, out, lInt, lv, rInt, rv) ==
              Some(out + Instr("sub", now, lInt, lv, rInt, rv) + SetText("snez", now) + AndiText(now)))
    ensures op == Eq ==> (OpOut(op, now, out, lInt, lv, rInt, rv) ==
              Some(out + Instr("sub", now, lInt, lv, rInt, rv) + SetText("seqz", now) + AndiText(now)))
    ensures op == Gt ==> (OpOut(op, now, out, lInt, lv, rInt, rv) ==
              Some(out + Instr("sgt", now, lInt, lv, rInt, rv) + AndiText(now)))
    ensures op == Lt ==> (OpOut(op, now, out, lInt, lv, rInt, rv) ==
              Some(out + Instr("slt", now, lInt, lv, rInt, rv) + AndiText(now)))
    ensures op == Ge ==> (OpOut(op, now, out, lInt, lv, rInt, rv) ==
              Some(out + Instr("slt", now, lInt, lv, rInt, rv) + XoriText(now) + AndiText(now)))
    ensures op == Le ==> (OpOut(op, now, out, lInt, lv, rInt, rv) ==
              Some(out + Instr("sgt", now, lInt, lv, rInt, rv) + XoriText(now) + AndiText(now)))
  {
    match op
    case NotEq => Selected(op, "sub", now, out, lInt, lv, rInt, rv);
    case Eq => Selected(op, "sub", now, out, lInt, lv, rInt, rv);
    case Gt => Selected(op, "sgt", now, out, lInt, lv, rInt, rv);
    case Lt => Selected(op, "slt", now, out, lInt, lv, rInt, rv);
    case Ge => Selected(op, "slt", now, out, lInt, lv, rInt, rv);
    case Le => Selected(op, "sgt", now, out, lInt, lv, rInt, rv);
    case _ =>
  }

  lemma Selected(op: BinaryOp, mn: string, now: int, out: string, lInt: bool, lv: int, rInt: bool, rv: int)
    requires Mnemonic(op) == Some(mn)
    ensures OpOut(op, now, out, lInt, lv, rInt, rv) == Some(TailOut(op, now, out + Instr(mn, now, lInt, lv, rInt, rv)))
  {
    KoopaIr.Assoc4(out, HeadText(mn, now), LhsField(lInt, lv), RhsField(rInt, rv));
  }

  /** `Visit_Slice` over instructions: each in order, stopping at the first fatal one. */
  function InstsGen(g: Graph, st: St, ids: seq<nat>): (x: Visit)
    requires WellFormed(g) && AllIn(g, ids)
    ensures x.Visited? ==> Extends(st.done, x.st.done) && st.out <= x.st.out
    decreases |ids|
  {
    if ids == [] then Visited(st)
    else
      match InstGen(g, st, ids[0])
      case Fatal => Aborted
      case Ok(st1, _) => InstsGen(g, st1, ids[1..])
  }

  /** `Visit_Basic_Block`: its label, then its instructions. */
  function BlockGen(g: Graph, st: St, bb: BasicBlock): Visit
    requires WellFormed(g) && BlockOk(g, bb)
  {
    InstsGen(g, St(st.out + Label(bb.name), st.done), bb.insts)
  }

  /** `Visit_Slice` over basic blocks. */
  function BlocksGen(g: Graph, st: St, bbs: seq<BasicBlock>): Visit
    requires WellFormed(g) && forall i :: 0 <= i < |bbs| ==> BlockOk(g, bbs[i])
    decreases |bbs|
  {
    if bbs == [] then Visited(st)
    else
      match BlockGen(g, st, bbs[0])
      case Aborted => Aborted
      case Visited(st1) => BlocksGen(g, st1, bbs[1..])
  }

  /** `Visit_Function`: its label, then its basic blocks. */
  function FunctionGen(g: Graph, st: St, f: Function): Visit
    requires WellFormed(g) && FunctionOk(g, f)
  {
    BlocksGen(g, St(st.out + Label(f.name), st.done), f.bbs)
  }

  /** `Visit_Slice` over functions. */
  function FunctionsGen(g: Graph, st: St, fs: seq<Function>): Visit
    requires WellFormed(g) && forall i :: 0 <= i < |fs| ==> FunctionOk(g, fs[i])
    decreases |fs|
  {
    if fs == [] then Visited(st)
    else
      match FunctionGen(g, st, fs[0])
      case Aborted => Aborted
      case Visited(st1) => FunctionsGen(g, st1, fs[1..])
  }

  /** `Visit_Program`: the global values, the section header, then the functions. */
  function ProgramGen(g: Graph, st: St, p: Program): Visit
    requires ProgramOk(g, p)
  {
    match InstsGen(g, st, p.values)
    case Aborted => Aborted
    case Visited(st1) => FunctionsGen(g, St(st1.out + "\t.text\n" + "\t.globl main\n", st1.done), p.funcs)
  }

  // ---------------------------------------------------------------------
  // The code generator
  // ---------------------------------------------------------------------

  /** The output stream and the memo `hasDone` of one run. */
  class CodeGen {
    var out: string
    var hasDone: map<nat, int>

    constructor ()
      ensures out == "" && hasDone == map[]
    {
      out := "";
      hasDone := map[];
    }

    /** `Visit_Inst`. `ok` is false when the run hit a fatal assertion. */
    method VisitInst(g: Graph, id: nat) returns (r: int, ok: bool)
      requires WellFormed(g) && id in g
      modifies this
      ensures var x := InstGen(g, St(old(out), old(hasDone)), id);
              (ok <==> x.Ok?) && (ok ==> St(out, hasDone) == x.st && r == x.r)
      decreases id, 1
    {
      if id in hasDone {
        return hasDone[id], true;
      }
      match g[id]
      case Return(_) =>
        r, ok := VisitInstReturn(g, id);
        if ok {
          hasDone := hasDone[id := r];
        }
      case Integer(_) =>
        r := IntegerValue(g[id]);
        hasDone := hasDone[id := r];
        ok := true;
      case Binary(_, _, _) =>
        r, ok := VisitInstBinary(g, id);
        if ok {
          hasDone := hasDone[id := r];
        }
      case OtherKind(_) =>
        r, ok := 0, false;
    }

    /** `Visit_Inst_Return`. */
    method VisitInstReturn(g: Graph, id: nat) returns (r: int, ok: bool)
      requires WellFormed(g) && id in g && g[id].Return?
      modifies this
      ensures var x := ReturnGen(g, St(old(out), old(hasDone)), id);
              (ok <==> x.Ok?) && (ok ==> St(out, hasDone) == x.st && r == x.r)
      decreases id, 0
    {
      var v := g[id].ret;
      assert OperandsBelow(g, id);
      if g[v].Integer? {
        out := out + ("\tli a0, " + IntToString(IntegerValue(g[v])) + "\n");
        out := out + "\tret\n";
      } else {
        var reg;
        reg, ok := VisitInst(g, v);
        if !ok {
          return 0, false;
        }
        out := out + ("\tmv a0, " + Reg(reg) + "\n");
        out := out + "\tret\n";
      }
      return 0, true;
    }

    /** Lines 214-230: one operand of a binary instruction. */
    method VisitOperand(g: Graph, v: nat) returns (isInteger: bool, value: int, ok: bool)
      requires WellFormed(g) && v in g
      modifies this
      ensures var x := OperandGen(g, St(old(out), old(hasDone)), v);
              (ok <==> x.Opnd?) && (ok ==> St(out, hasDone) == x.st && isInteger == x.isInteger && value == x.value)
      decreases v, 2
    {
      if g[v].Integer? {
        return true, IntegerValue(g[v]), true;
      }
      isInteger := false;
      value, ok := VisitInst(g, v);
    }

    /** `Visit_Inst_Binary`. */
    method VisitInstBinary(g: Graph, id: nat) returns (now: int, ok: bool)
      requires WellFormed(g) && id in g && g[id].Binary?
      modifies this
      ensures var x := BinaryGen(g, St(old(out), old(hasDone)), id);
              (ok <==> x.Ok?) && (ok ==> St(out, hasDone) == x.st && now == x.r)
      decreases id, 0
    {
      assert OperandsBelow(g, id);
      var lhsIsInteger, lhsValue, rhsIsInteger, rhsValue;
      lhsIsInteger, lhsValue, ok := VisitOperand(g, g[id].lhs);
      if !ok {
        return 0, false;
      }
      rhsIsInteger, rhsValue, ok := VisitOperand(g, g[id].rhs);
      if !ok {
        return 0, false;
      }
      now, ok := EmitBinary(g[id].op, lhsIsInteger, lhsValue, rhsIsInteger, rhsValue);
    }

    /** Lines 232-437 of `Visit_Inst_Binary`. */
    method EmitBinary(op: BinaryOp, lhsIsInteger: bool, lhsValue: int, rhsIsInteger: bool, rhsValue: int)
      returns (now: int, ok: bool)
      modifies this
      ensures var x := BinaryFinish(op, St(old(out), old(hasDone)), lhsIsInteger, lhsValue, rhsIsInteger, rhsValue);
              (ok <==> x.Ok?) && (ok ==> St(out, hasDone) == x.st && now == x.r)
    {
      now := 0;
      if !lhsIsInteger {
        now := Max(now, lhsValue + 1);
      }
      if !rhsIsInteger {
        now := Max(now, rhsValue + 1);
      }
      assert now == ResultReg(lhsIsInteger, lhsValue, rhsIsInteger, rhsValue);
      ghost var st0 := St(out, hasDone);
      var lInt, lv, rInt, rv := EmitLoads(now, lhsIsInteger, lhsValue, rhsIsInteger, rhsValue);
      ghost var ld := Loaded(out, lInt, lv, rInt, rv);
      ok := EmitOp(op, now, lInt, lv, rInt, rv);
      ghost var x := BinaryFinish(op, st0, lhsIsInteger, lhsValue, rhsIsInteger, rhsValue);
      assert ok ==> x == Ok(St(out, hasDone), now);
    }

    /** Lines 238-248: load non-zero literal operands into registers. */
    method EmitLoads(now: int, lhsIsInteger: bool, lhsValue: int, rhsIsInteger: bool, rhsValue: int)
      returns (lInt: bool, lv: int, rInt: bool, rv: int)
      modifies this
      ensures Loaded(out, lInt, lv, rInt, rv) == LoadsOut(old(out), now, lhsIsInteger, lhsValue, rhsIsInteger, rhsValue)
      ensures hasDone == old(hasDone)
    {
      lInt, lv, rInt, rv := lhsIsInteger, lhsValue, rhsIsInteger, rhsValue;
      if lInt && lv != 0 {
        out := out + LiText(now, lv);
        lInt, lv := false, now;
      }
      if rInt && rv != 0 {
        out := out + LiText(now + 1, rv);
        rInt, rv := false, now + 1;
      }
    }

    /** Lines 250-434: the instructions of the operation; `false` for the fatal default. */
    method EmitOp(op: BinaryOp, now: int, lInt: bool, lv: int, rInt: bool, rv: int) returns (ok: bool)
      modifies this
      ensures var r := OpOut(op, now, old(out), lInt, lv, rInt, rv);
              (ok <==> r.Some?) && (ok ==> out == r.value) && hasDone == old(hasDone)
    {
      var mn := Mnemonic(op);
      if mn.None? {
        return false;
      }
      out := out + HeadText(mn.value, now);
      if lInt {
        out := out + "x0, ";
      } else {
        out := out + (Reg(lv) + ", ");
      }
      if rInt {
        out := out + "x0, ";
      } else {
        out := out + (Reg(rv) + "\n");
      }
      EmitTail(op, now);
      ok := true;
    }

    /** The lines after the first instruction of a comparison. */
    method EmitTail(op: BinaryOp, now: int)
      modifies this
      ensures out == TailOut(op, now, old(out)) && hasDone == old(hasDone)
    {
      match op
      case NotEq =>
        out := out + SetText("snez", now);
        out := out + AndiText(now);
      case Eq =>
        out := out + SetText("seqz", now);
        out := out + AndiText(now);
      case Gt =>
        out := out + AndiText(now);
      case Lt =>
        out := out + AndiText(now);
      case Ge =>
        out := out + XoriText(now);
        out := out + AndiText(now);
      case Le =>
        out := out + XoriText(now);
        out := out + AndiText(now);
      case _ =>
    }

    /** `Visit_Slice` over instructions. */
    method VisitInsts(g: Graph, ids: seq<nat>) returns (ok: bool)
      requires WellFormed(g) && AllIn(g, ids)
      modifies this
      ensures var x := InstsGen(g, St(old(out), old(hasDone)), ids);
              (ok <==> x.Visited?) && (ok ==> St(out, hasDone) == x.st)
    {
      ghost var st0 := St(out, hasDone);
      for i := 0 to |ids|
        invariant InstsGen(g, st0, ids) == InstsGen(g, St(out, hasDone), ids[i..])
      {
        assert ids[i..][0] == ids[i] && ids[i..][1..] == ids[i + 1..];
        var _, okI := VisitInst(g, ids[i]);
        if !okI {
          return false;
        }
      }
      return true;
    }

    /** `Visit_Basic_Block`. */
    method VisitBasicBlock(g: Graph, bb: BasicBlock) returns (ok: bool)
      requires WellFormed(g) && BlockOk(g, bb)
      modifies this
      ensures var x := BlockGen(g, St(old(out), old(hasDone)), bb);
              (ok <==> x.Visited?) && (ok ==> St(out, hasDone) == x.st)
    {
      out := out + Label(bb.name);
      ok := VisitInsts(g, bb.insts);
    }

    /** `Visit_Slice` over basic blocks. */
    method VisitBasicBlocks(g: Graph, bbs: seq<BasicBlock>) returns (ok: bool)
      requires WellFormed(g) && forall i :: 0 <= i < |bbs| ==> BlockOk(g, bbs[i])
      modifies this
      ensures var x := BlocksGen(g, St(old(out), old(hasDone)), bbs);
              (ok <==> x.Visited?) && (ok ==> St(out, hasDone) == x.st)
    {
      ghost var st0 := St(out, hasDone);
      for i := 0 to |bbs|
        invariant BlocksGen(g, st0, bbs) == BlocksGen(g, St(out, hasDone), bbs[i..])
      {
        assert bbs[i..][0] == bbs[i] && bbs[i..][1..] == bbs[i + 1..];
        var okI := VisitBasicBlock(g, bbs[i]);
        if !okI {
          return false;
        }
      }
      return true;
    }

    /** `Visit_Function`. */
    method VisitFunction(g: Graph, f: Function) returns (ok: bool)
      requires WellFormed(g) && FunctionOk(g, f)
      modifies this
      ensures var x := FunctionGen(g, St(old(out), old(hasDone)), f);
              (ok <==> x.Visited?) && (ok ==> St(out, hasDone) == x.st)
    {
      out := out + Label(f.name);
      ok := VisitBasicBlocks(g, f.bbs);
    }

    /** `Visit_Slice` over functions. */
    method VisitFunctions(g: Graph, fs: seq<Function>) returns (ok: bool)
      requires WellFormed(g) && forall i :: 0 <= i < |fs| ==> FunctionOk(g, fs[i])
      modifies this
      ensures var x := FunctionsGen(g, St(old(out), old(hasDone)), fs);
              (ok <==> x.Visited?) && (ok ==> St(out, hasDone) == x.st)
    {
      ghost var st0 := St(out, hasDone);
      for i := 0 to |fs|
        invariant FunctionsGen(g, st0, fs) == FunctionsGen(g, St(out, hasDone), fs[i..])
      {
        assert fs[i..][0] == fs[i] && fs[i..][1..] == fs[i + 1..];
        var okI := VisitFunction(g, fs[i]);
        if !okI {
          return false;
        }
      }
      return true;
    }

    /** `Visit_Program`. */
    method VisitProgram(g: Graph, p: Program) returns (ok: bool)
      requires ProgramOk(g, p)
      modifies this
      ensures var x := ProgramGen(g, St(old(out), old(hasDone)), p);
              (ok <==> x.Visited?) && (ok ==> St(out, hasDone) == x.st)
    {
      ok := VisitInsts(g, p.values);
      if !ok {
        return;
      }
      out := out + "\t.text\n";
      out := out + "\t.globl main\n";
      ok := VisitFunctions(g, p.funcs);
    }
  }

  // ---------------------------------------------------------------------
  // Properties
  // ---------------------------------------------------------------------

  /** After a slice is visited, every instruction of it is in the memo. */
  lemma {:induction false} InstsRecorded(g: Graph, st: St, ids: seq<nat>)
    requires WellFormed(g) && AllIn(g, ids) && InstsGen(g, st, ids).Visited?
    ensures forall i :: 0 <= i < |ids| ==> ids[i] in InstsGen(g, st, ids).st.done
    decreases |ids|
  {
    if ids != [] {
      var st1 := InstGen(g, st, ids[0]).st;
      InstsRecorded(g, st1, ids[1..]);
      forall i | 0 <= i < |ids|
        ensures ids[i] in InstsGen(g, st, ids).st.done
      {
        if i > 0 {
          assert ids[i] == ids[1..][i - 1];
        }
      }
    }
  }

  /** A slice whose instructions are all memoised writes nothing and changes nothing. */
  lemma {:induction false} InstsAllMemoised(g: Graph, st: St, ids: seq<nat>)
    requires WellFormed(g) && AllIn(g, ids)
    requires forall i :: 0 <= i < |ids| ==> ids[i] in st.done
    ensures InstsGen(g, st, ids) == Visited(st)
    decreases |ids|
  {
    if ids != [] {
      assert forall i :: 0 <= i < |ids[1..]| ==> ids[1..][i] == ids[i + 1];
      InstsAllMemoised(g, st, ids[1..]);
    }
  }

  /** Visiting the same slice a second time writes nothing: every value is computed once. */
  lemma SliceRevisitWritesNothing(g: Graph, st: St, ids: seq<nat>)
    requires WellFormed(g) && AllIn(g, ids) && InstsGen(g, st, ids).Visited?
    ensures var st1 := InstsGen(g, st, ids).st; InstsGen(g, st1, ids) == Visited(st1)
  {
    InstsRecorded(g, st, ids);
    InstsAllMemoised(g, InstsGen(g, st, ids).st, ids);
  }

  /**
   * The result register of a binary instruction is above the register of
   * each operand that is not a literal, and is `t0` when both are literals.
   */
  lemma RegisterAboveOperands(g: Graph, st: St, id: nat)
    requires WellFormed(g) && id in g && g[id].Binary? && id !in st.done
    requires InstGen(g, st, id).Ok?
    ensures var x := InstGen(g, st, id); var l, r := g[id].lhs, g[id].rhs;
            && (!g[l].Integer? ==> l in x.st.done && x.r > x.st.done[l])
            && (!g[r].Integer? ==> r in x.st.done && x.r > x.st.done[r])
            && (g[l].Integer? && g[r].Integer? ==> x.r == 0)
  {
    assert OperandsBelow(g, id);
    var l, r := g[id].lhs, g[id].rhs;
    var xl := OperandGen(g, st, l);
    var xr := OperandGen(g, xl.st, r);
    var y := BinaryGen(g, st, id);
    assert y == BinaryFinish(g[id].op, xr.st, xl.isInteger, xl.value, xr.isInteger, xr.value);
    assert InstGen(g, st, id) == Ok(St(y.st.out, y.st.done[id := y.r]), y.r);
  }

  /** A binary instruction of two literals computes into `t0`; the memo gains only its own entry. */
  lemma LiteralOperands(g: Graph, st: St, id: nat)
    requires WellFormed(g) && id in g && g[id].Binary? && id !in st.done && g[id].op != Sar
    requires g[g[id].lhs].Integer? && g[g[id].rhs].Integer?
    ensures var lv, rv := g[g[id].lhs].value, g[g[id].rhs].value;
            var ld := LoadsOut(st.out, 0, true, lv, true, rv);
            InstGen(g, st, id)
            == Ok(St(OpOut(g[id].op, 0, ld.out, ld.lInt, ld.lv, ld.rInt, ld.rv).value, st.done[id := 0]), 0)
  {
    assert OperandsBelow(g, id);
  }

  /** Returning a value already in a register moves it into `a0`. */
  lemma ReturnOfMemoised(g: Graph, st: St, id: nat)
    requires WellFormed(g) && id in g && g[id].Return? && id !in st.done
    requires g[id].ret in st.done && !g[g[id].ret].Integer?
    ensures InstGen(g, st, id)
            == Ok(St(st.out + ("\tmv a0, " + Reg(st.done[g[id].ret]) + "\n") + "\tret\n", st.done[id := 0]), 0)
  {
    assert OperandsBelow(g, id);
  }

  /** A binary instruction of two literals: no operand is visited, the operation is selected at once. */
  lemma LiteralBinary(g: Graph, st: St, id: nat)
    requires WellFormed(g) && id in g && g[id].Binary? && id !in st.done
    requires g[g[id].lhs].Integer? && g[g[id].rhs].Integer?
    ensures InstGen(g, st, id) == Record(BinaryFinish(g[id].op, st, true, g[g[id].lhs].value, true, g[g[id].rhs].value), id)
  {
    assert OperandsBelow(g, id);
  }

  /** A slice of two instructions that both succeed. */
  lemma InstsTwo(g: Graph, st: St, a: nat, b: nat)
    requires WellFormed(g) && a in g && b in g && InstGen(g, st, a).Ok? && InstGen(g, InstGen(g, st, a).st, b).Ok?
    ensures AllIn(g, [a, b]) && InstsGen(g, st, [a, b]) == Visited(InstGen(g, InstGen(g, st, a).st, b).st)
  {
    var st1 := InstGen(g, st, a).st;
    var st2 := InstGen(g, st1, b).st;
    assert [a, b][1..] == [b] && [b][1..] == [];
    assert InstsGen(g, st1, [b]) == InstsGen(g, st2, []) == Visited(st2);
    assert InstsGen(g, st, [a, b]) == InstsGen(g, st1, [b]);
  }

  /** `\tmv a0, t0\n` then `\tret\n`. */
  lemma MoveT0(o: string)
    ensures o + ("\tmv a0, " + Reg(0) + "\n") + "\tret\n" == o + "\tmv a0, t0\n" + "\tret\n"
  {
    assert IntToString(0) == "0";
    assert Reg(0) == "t0";
    assert "\tmv a0, " + Reg(0) + "\n" == "\tmv a0, t0\n";
  }

  /** `1 + 1` into `t0`: both ones are loaded, into `t0` and `t1`. */
  lemma AddOneOne(o: string, d: map<nat, int>)
    ensures BinaryFinish(Add, St(o, d), true, 1, true, 1)
            == Ok(St(o + "\tli t0, 1\n" + "\tli t1, 1\n" + "\tadd t0, t0, t1\n", d), 0)
  {
    assert IntToString(0) == "0" && IntToString(1) == "1";
    assert Reg(0) == "t0" && Reg(1) == "t1";
    assert LiText(0, 1) == "\tli t0, 1\n" && LiText(1, 1) == "\tli t1, 1\n";
    var ld := LoadsOut(o, 0, true, 1, true, 1);
    assert ld == Loaded(o + "\tli t0, 1\n" + "\tli t1, 1\n", false, 0, false, 1);
    assert HeadText("add", 0) == "\tadd t0, " && LhsField(false, 0) == "t0, " && RhsField(false, 1) == "t1\n";
    KoopaIr.Assoc4(ld.out, "\tadd t0, ", "t0, ", "t1\n");
    assert "\tadd t0, " + "t0, " + "t1\n" == "\tadd t0, t0, t1\n";
  }

  /** `5 - 0` into `t0`: the five is loaded, the zero stays `x0, `. */
  lemma SubFiveZero(o: string, d: map<nat, int>)
    ensures BinaryFinish(Sub, St(o, d), true, 5, true, 0) == Ok(St(o + "\tli t0, 5\n" + "\tsub t0, t0, x0, ", d), 0)
  {
    assert IntToString(0) == "0" && IntToString(5) == "5";
    assert Reg(0) == "t0";
    assert LiText(0, 5) == "\tli t0, 5\n";
    var ld := LoadsOut(o, 0, true, 5, true, 0);
    assert ld == Loaded(o + "\tli t0, 5\n", false, 0, true, 0);
    assert HeadText("sub", 0) == "\tsub t0, " && LhsField(false, 0) == "t0, " && RhsField(true, 0) == "x0, ";
    KoopaIr.Assoc4(ld.out, "\tsub t0, ", "t0, ", "x0, ");
    assert "\tsub t0, " + "t0, " + "x0, " == "\tsub t0, t0, x0, ";
  }

  /** The graph of `return 1 + 1;`. */
  function OnePlusOne(): Graph {
    map[0 := Integer(1), 1 := Binary(Add, 0, 0), 2 := Return(1)]
  }

  lemma OnePlusOneWellFormed()
    ensures WellFormed(OnePlusOne())
  {
    var g := OnePlusOne();
    forall id | id in g
      ensures OperandsBelow(g, id)
    {
    }
  }

  /** The instructions of `return 1 + 1;`: the sum is computed once, into `t0`, and returned from there. */
  lemma OnePlusOneInsts(o: string)
    ensures WellFormed(OnePlusOne()) && AllIn(OnePlusOne(), [1, 2])
    ensures InstsGen(OnePlusOne(), St(o, map[]), [1, 2])
            == Visited(St(o + "\tli t0, 1\n" + "\tli t1, 1\n" + "\tadd t0, t0, t1\n" + "\tmv a0, t0\n" + "\tret\n",
                          map[1 := 0, 2 := 0]))
  {
    var g := OnePlusOne();
    OnePlusOneWellFormed();
    var s0 := St(o, map[]);
    AddOneOne(o, map[]);
    LiteralBinary(g, s0, 1);
    var s1 := St(o + "\tli t0, 1\n" + "\tli t1, 1\n" + "\tadd t0, t0, t1\n", map[1 := 0]);
    assert InstGen(g, s0, 1) == Ok(s1, 0);
    ReturnOfMemoised(g, s1, 2);
    MoveT0(s1.out);
    assert InstGen(g, s1, 2) == Ok(St(s1.out + "\tmv a0, t0\n" + "\tret\n", map[1 := 0, 2 := 0]), 0);
    InstsTwo(g, s0, 1, 2);
  }

  /** `int main() { return 1 + 1; }` as a whole program: header, labels, then the instructions. */
  lemma ReturnOnePlusOne()
    ensures var p := Program([], [Function("@main", [BasicBlock("%entry", [1, 2])])]);
            ProgramOk(OnePlusOne(), p)
            && ProgramGen(OnePlusOne(), St("", map[]), p)
               == Visited(St("\t.text\n" + "\t.globl main\n" + "main:\n" + "entry:\n"
                             + "\tli t0, 1\n" + "\tli t1, 1\n" + "\tadd t0, t0, t1\n"
                             + "\tmv a0, t0\n" + "\tret\n",
                             map[1 := 0, 2 := 0]))
  {
    var g := OnePlusOne();
    var bb := BasicBlock("%entry", [1, 2]);
    var f := Function("@main", [bb]);
    var p := Program([], [f]);
    var o0 := "\t.text\n" + "\t.globl main\n";
    var o1 := o0 + "main:\n" + "entry:\n";
    OnePlusOneInsts(o1);
    var s2 := InstsGen(g, St(o1, map[]), [1, 2]).st;
    ProgramSteps(g, p, f, bb, s2);
  }

  /** The program of one function of one block, visited step by step. */
  lemma ProgramSteps(g: Graph, p: Program, f: Function, bb: BasicBlock, s2: St)
    requires p == Program([], [f]) && f == Function("@main", [bb]) && bb == BasicBlock("%entry", [1, 2])
    requires WellFormed(g) && AllIn(g, [1, 2])
    requires InstsGen(g, St("\t.text\n" + "\t.globl main\n" + "main:\n" + "entry:\n", map[]), [1, 2]) == Visited(s2)
    ensures ProgramOk(g, p) && ProgramGen(g, St("", map[]), p) == Visited(s2)
  {
    var o0 := "\t.text\n" + "\t.globl main\n";
    assert BlockOk(g, bb) && FunctionOk(g, f) && ProgramOk(g, p);
    assert InstsGen(g, St("", map[]), p.values) == Visited(St("", map[]));
    assert "" + "\t.text\n" + "\t.globl main\n" == o0;
    assert Label(f.name) == "main:\n" && Label(bb.name) == "entry:\n";
    assert f.bbs[1..] == [] && p.funcs[1..] == [];
    assert BlockGen(g, St(o0 + "main:\n", map[]), bb) == Visited(s2);
    assert BlocksGen(g, St(o0 + "main:\n", map[]), f.bbs) == Visited(s2);
    assert FunctionGen(g, St(o0, map[]), f) == Visited(s2);
    assert FunctionsGen(g, St(o0, map[]), p.funcs) == Visited(s2);
  }

  /** The graph of `return 5 - 0;`. */
  function FiveMinusZero(): Graph {
    map[0 := Integer(5), 1 := Integer(0), 2 := Binary(Sub, 0, 1), 3 := Return(2)]
  }

  lemma FiveMinusZeroWellFormed()
    ensures WellFormed(FiveMinusZero())
  {
    var g := FiveMinusZero();
    forall id | id in g
      ensures OperandsBelow(g, id)
    {
    }
  }

  /**
   * A literal zero as the right operand is written `x0, `, with no line
   * break: `sub 5, 0` runs into the next instruction on the same line.
   */
  lemma RightZeroRunsOn()
    ensures var g := FiveMinusZero();
            WellFormed(g) && AllIn(g, [2, 3])
            && InstsGen(g, St("", map[]), [2, 3])
               == Visited(St("\tli t0, 5\n" + "\tsub t0, t0, x0, " + "\tmv a0, t0\n" + "\tret\n", map[2 := 0, 3 := 0]))
  {
    var g := FiveMinusZero();
    FiveMinusZeroWellFormed();
    var s0 := St("", map[]);
    SubFiveZero("", map[]);
    LiteralBinary(g, s0, 2);
    assert "" + "\tli t0, 5\n" == "\tli t0, 5\n";
    var s1 := St("\tli t0, 5\n" + "\tsub t0, t0, x0, ", map[2 := 0]);
    assert InstGen(g, s0, 2) == Ok(s1, 0);
    ReturnOfMemoised(g, s1, 3);
    MoveT0(s1.out);
    assert InstGen(g, s1, 3) == Ok(St(s1.out + "\tmv a0, t0\n" + "\tret\n", map[2 := 0, 3 := 0]), 0);
    InstsTwo(g, s0, 2, 3);
  }

  /** The graph of `return (1 + 2) * (3 + 4);`. */
  function TwoSums(): Graph {
    map[0 := Integer(1), 1 := Integer(2), 2 := Binary(Add, 0, 1),
        3 := Integer(3), 4 := Integer(4), 5 := Binary(Add, 3, 4), 6 := Binary(Mul, 2, 5)]
  }

  lemma TwoSumsWellFormed()
    ensures WellFormed(TwoSums())
  {
    var g := TwoSums();
    forall id | id in g
      ensures OperandsBelow(g, id)
    {
    }
  }

  /**
   * The register of a value depends only on its own operands: in
   * `(1 + 2) * (3 + 4)` both sums are placed in `t0`, so the second
   * overwrites the first before the product reads them.
   */
  lemma SiblingsShareRegister()
    ensures WellFormed(TwoSums())
    ensures var x := InstGen(TwoSums(), St("", map[]), 6);
            x.Ok? && 2 in x.st.done && x.st.done[2] == 0 && 5 in x.st.done && x.st.done[5] == 0 && x.r == 1
  {
    var g := TwoSums();
    TwoSumsWellFormed();
    var st := St("", map[]);
    LiteralBinary(g, st, 2);
    var x2 := InstGen(g, st, 2);
    assert x2.Ok? && x2.r == 0 && x2.st.done == map[2 := 0];
    LiteralBinary(g, x2.st, 5);
    var x5 := InstGen(g, x2.st, 5);
    assert x5.Ok? && x5.r == 0 && x5.st.done == map[2 := 0, 5 := 0];
    ProductOfSums(g, st, x2, x5);
  }

  /** The product visits both sums in turn and computes into one above their common register. */
  lemma ProductOfSums(g: Graph, st: St, x2: Res, x5: Res)
    requires g == TwoSums() && WellFormed(g) && 6 !in st.done && 2 !in st.done
    requires x2 == InstGen(g, st, 2) && x2.Ok? && x2.r == 0 && 5 !in x2.st.done
    requires x5 == InstGen(g, x2.st, 5) && x5.Ok? && x5.r == 0 && x5.st.done[2] == 0
    ensures var x := InstGen(g, st, 6); x.Ok? && x.st.done == x5.st.done[6 := 1] && x.r == 1
  {
    assert OperandsBelow(g, 6);
    var xl := OperandGen(g, st, 2);
    assert xl == Opnd(x2.st, false, 0);
    var xr := OperandGen(g, x2.st, 5);
    assert xr == Opnd(x5.st, false, 0);
    assert ResultReg(false, 0, false, 0) == 1;
    var y := BinaryFinish(Mul, x5.st, false, 0, false, 0);
    assert y.Ok? && y.st.done == x5.st.done && y.r == 1;
    assert BinaryGen(g, st, 6) == y;
    assert InstGen(g, st, 6) == Record(y, 6);
  }
}
