/**
 * What the code written by `PrintIR` means.
 *
 * Temporaries: the lines of an expression, a statement or a whole block
 * define the temporaries `%n`, `%n+1`, ... in order, each exactly once, so
 * the output is in single-assignment form.
 *
 * Meaning: running the lines of an expression leaves memory alone and leaves
 * its operand holding the value `Eval` gives the expression; running the
 * lines of a block does what the block does when run item by item on the
 * source tree (`RunItems`).
 */
module EmitterCorrectness {
  import opened Common
  import opened SymbolTables
  import opened FrontAst
  import opened ConstFold
  import opened KoopaIr
  import opened IrEmitter

  // ---------------------------------------------------------------------
  // Temporaries
  // ---------------------------------------------------------------------

  /** The temporaries the lines define, in order. */
  function Dests(insts: seq<Inst>): seq<nat>
    decreases |insts|
  {
    if insts == [] then [] else Dest(insts[0]) + Dests(insts[1..])
  }

  /** The temporary one line defines, if any. */
  function Dest(i: Inst): seq<nat> {
    if i.BinInst? || i.LoadInst? then [i.dst] else []
  }

  /** `a, a+1, ..., b-1` */
  function Range(a: nat, b: nat): (r: seq<nat>)
    requires a <= b
    ensures |r| == b - a
    ensures forall i :: 0 <= i < |r| ==> r[i] == a + i
    decreases b - a
  {
    if a == b then [] else [a] + Range(a + 1, b)
  }

  lemma RangeAppend(a: nat, b: nat, c: nat)
    requires a <= b <= c
    ensures Range(a, b) + Range(b, c) == Range(a, c)
  {
  }

  lemma {:induction false} DestsAppend(a: seq<Inst>, b: seq<Inst>)
    ensures Dests(a + b) == Dests(a) + Dests(b)
    decreases |a|
  {
    if a == [] {
      assert a + b == b;
    } else {
      assert (a + b)[0] == a[0] && (a + b)[1..] == a[1..] + b;
      DestsAppend(a[1..], b);
    }
  }

  lemma DestsOne(i: Inst)
    ensures Dests([i]) == Dest(i)
  {
    assert [i][1..] == [];
  }

  lemma DestsThree(i1: Inst, i2: Inst, i3: Inst)
    ensures Dests([i1, i2, i3]) == Dests([i1]) + Dests([i2]) + Dests([i3])
  {
    assert [i1, i2, i3] == [i1] + [i2] + [i3];
    DestsAppend([i1] + [i2], [i3]);
    DestsAppend([i1], [i2]);
  }

  lemma DestsTwo(i1: Inst, i2: Inst)
    ensures Dests([i1, i2]) == Dests([i1]) + Dests([i2])
  {
    assert [i1, i2] == [i1] + [i2];
    DestsAppend([i1], [i2]);
  }

  /** Both operands' temporaries, then the node's own ones. */
  lemma DestsOperands(cl: Code, cr: Code, tail: seq<Inst>, n: nat)
    requires n <= cl.next <= cr.next
    requires Dests(cl.insts) == Range(n, cl.next)
    requires Dests(cr.insts) == Range(cl.next, cr.next)
    ensures Dests(cl.insts + cr.insts + tail) == Range(n, cr.next) + Dests(tail)
  {
    DestsAppend(cl.insts + cr.insts, tail);
    DestsAppend(cl.insts, cr.insts);
    RangeAppend(n, cl.next, cr.next);
  }

  /** The lines of an expression define `%n` up to the counter it ends with, in order. */
  lemma {:induction false} ExpTemps(e: Exp, t: map<string, Symbol>, n: nat)
    ensures var c := ExpCode(e, t, n); Dests(c.insts) == Range(n, c.next)
    decreases e
  {
    match e
    case Number(_) =>
    case LVal(x) =>
      if x in t && t[x].kind != KConst {
        DestsOne(LoadInst(n, x));
      }
    case Unary(op, e1) =>
      ExpTemps(e1, t, n);
      UnaryCodeTemps(op, ExpCode(e1, t, n), n);
    case Binary(op, l, r) =>
      var cl := ExpCode(l, t, n);
      ExpTemps(l, t, n);
      ExpTemps(r, t, cl.next);
      BinaryCodeTemps(op, cl, ExpCode(r, t, cl.next), n);
    case LAnd(l, r) =>
      var cl := ExpCode(l, t, n);
      ExpTemps(l, t, n);
      ExpTemps(r, t, cl.next);
      LAndCodeTemps(cl, ExpCode(r, t, cl.next), n);
    case LOr(l, r) =>
      var cl := ExpCode(l, t, n);
      ExpTemps(l, t, n);
      ExpTemps(r, t, cl.next);
      LOrCodeTemps(cl, ExpCode(r, t, cl.next), n);
  }

  lemma UnaryCodeTemps(op: UnaryOp, c1: Code, n: nat)
    requires c1.val.Temp? ==> c1.val.k < c1.next
    requires n <= c1.next && Dests(c1.insts) == Range(n, c1.next)
    ensures Dests(UnaryCode(op, c1).insts) == Range(n, UnaryCode(op, c1).next)
  {
    if op != Positive {
      var i := BinInst(c1.next, if op == Negative then IrOp.Sub else IrOp.Eq, Lit(0), c1.val);
      DestsAppend(c1.insts, [i]);
      DestsOne(i);
      RangeAppend(n, c1.next, c1.next + 1);
    }
  }

  lemma BinaryCodeTemps(op: BinaryOp, cl: Code, cr: Code, n: nat)
    requires n <= cl.next <= cr.next
    requires Dests(cl.insts) == Range(n, cl.next) && Dests(cr.insts) == Range(cl.next, cr.next)
    ensures Dests(BinaryCode(op, cl, cr).insts) == Range(n, BinaryCode(op, cl, cr).next)
  {
    var i := BinInst(cr.next, IrOpOf(op), cl.val, cr.val);
    DestsOperands(cl, cr, [i], n);
    DestsOne(i);
    RangeAppend(n, cr.next, cr.next + 1);
  }

  lemma LAndCodeTemps(cl: Code, cr: Code, n: nat)
    requires n <= cl.next <= cr.next
    requires Dests(cl.insts) == Range(n, cl.next) && Dests(cr.insts) == Range(cl.next, cr.next)
    ensures Dests(LAndCode(cl, cr).insts) == Range(n, LAndCode(cl, cr).next)
  {
    var k := cr.next;
    DestsOperands(cl, cr, LAndTail(k, cl.val, cr.val), n);
    LAndTailDests(k, cl.val, cr.val);
    RangeAppend(n, k, k + 3);
  }

  /** The `&&` lines define `k`, `k + 1` and `k + 2`, in that order. */
  lemma LAndTailDests(k: nat, x: Operand, y: Operand)
    ensures Dests(LAndTail(k, x, y)) == Range(k, k + 3)
  {
    var i1, i2, i3 := BinInst(k, IrOp.Ne, Lit(0), x), BinInst(k + 1, IrOp.Ne, Lit(0), y),
                      BinInst(k + 2, IrOp.And, Temp(k), Temp(k + 1));
    assert LAndTail(k, x, y) == [i1, i2, i3];
    DestsThree(i1, i2, i3);
    DestsOne(i1);
    DestsOne(i2);
    DestsOne(i3);
    assert Range(k, k + 3) == [k, k + 1, k + 2];
  }

  lemma LOrCodeTemps(cl: Code, cr: Code, n: nat)
    requires n <= cl.next <= cr.next
    requires Dests(cl.insts) == Range(n, cl.next) && Dests(cr.insts) == Range(cl.next, cr.next)
    ensures Dests(LOrCode(cl, cr).insts) == Range(n, LOrCode(cl, cr).next)
  {
    var k := cr.next;
    DestsOperands(cl, cr, LOrTail(k, cl.val, cr.val), n);
    LOrTailDests(k, cl.val, cr.val);
    RangeAppend(n, k, k + 2);
  }

  /** The `||` lines define `k` and `k + 1`, in that order. */
  lemma LOrTailDests(k: nat, x: Operand, y: Operand)
    ensures Dests(LOrTail(k, x, y)) == Range(k, k + 2)
  {
    var i1, i2 := BinInst(k, IrOp.Or, x, y), BinInst(k + 1, IrOp.Ne, Lit(0), Temp(k));
    assert LOrTail(k, x, y) == [i1, i2];
    DestsTwo(i1, i2);
    DestsOne(i1);
    DestsOne(i2);
    assert Range(k, k + 2) == [k, k + 1];
  }

  lemma VarDefTemps(d: VarDef, t: map<string, Symbol>, n: nat)
    ensures var c := VarDefCode(d, t, n); Dests(c.insts) == Range(n, c.next)
  {
    DestsOne(AllocInst(d.ident));
    match d.init
    case None =>
    case Some(e) =>
      var ce := ExpCode(e, t, n);
      ExpTemps(e, t, n);
      DestsOne(StoreInst(ce.val, d.ident));
      DestsAppend([AllocInst(d.ident)] + ce.insts, [StoreInst(ce.val, d.ident)]);
      DestsAppend([AllocInst(d.ident)], ce.insts);
  }

  lemma {:induction false} VarDefsTemps(defs: seq<VarDef>, t: map<string, Symbol>, n: nat)
    ensures var c := VarDefsCode(defs, t, n); Dests(c.insts) == Range(n, c.next)
    decreases |defs|
  {
    if defs != [] {
      var c0 := VarDefsCode(defs[..|defs| - 1], t, n);
      var c1 := VarDefCode(defs[|defs| - 1], t, c0.next);
      VarDefsTemps(defs[..|defs| - 1], t, n);
      VarDefTemps(defs[|defs| - 1], t, c0.next);
      DestsAppend(c0.insts, c1.insts);
      RangeAppend(n, c0.next, c1.next);
    }
  }

  lemma StmtTemps(s: Stmt, t: map<string, Symbol>, n: nat)
    ensures var c := StmtCode(s, t, n); Dests(c.insts) == Range(n, c.next)
  {
    var ce := ExpCode(s.exp, t, n);
    ExpTemps(s.exp, t, n);
    match s
    case Assign(x, _) =>
      DestsOne(StoreInst(ce.val, x));
      DestsAppend(ce.insts, [StoreInst(ce.val, x)]);
    case Return(_) =>
      DestsOne(RetInst(ce.val));
      DestsAppend(ce.insts, [RetInst(ce.val)]);
  }

  lemma BlockItemTemps(item: BlockItem, t: map<string, Symbol>, n: nat)
    ensures var c := BlockItemCode(item, t, n); Dests(c.insts) == Range(n, c.next)
  {
    match item
    case DeclItem(d) =>
      if d.VarDecl? {
        VarDefsTemps(d.varDefs, t, n);
      }
    case StmtItem(s) =>
      StmtTemps(s, t, n);
  }

  /** The lines of a block define `%n` up to the final counter, in order. */
  lemma {:induction false} BlockItemsTemps(items: seq<BlockItem>, t: map<string, Symbol>, n: nat)
    ensures var c := BlockItemsCode(items, t, n); Dests(c.insts) == Range(n, c.next)
    decreases |items|
  {
    if items != [] {
      var c0 := BlockItemsCode(items[..|items| - 1], t, n);
      var c1 := BlockItemCode(items[|items| - 1], t, c0.next);
      BlockItemsTemps(items[..|items| - 1], t, n);
      BlockItemTemps(items[|items| - 1], t, c0.next);
      DestsAppend(c0.insts, c1.insts);
      RangeAppend(n, c0.next, c1.next);
    }
  }

  /**
   * Single assignment: no two lines of a block's code define temporaries
   * with the same name.
   */
  lemma SingleAssignment(items: seq<BlockItem>, t: map<string, Symbol>, n: nat, i: nat, j: nat)
    requires var ds := Dests(BlockItemsCode(items, t, n).insts); i < j < |ds|
    ensures var ds := Dests(BlockItemsCode(items, t, n).insts); TempName(ds[i]) != TempName(ds[j])
  {
    var ds := Dests(BlockItemsCode(items, t, n).insts);
    BlockItemsTemps(items, t, n);
    assert ds[i] == n + i && ds[j] == n + j;
    if TempName(ds[i]) == TempName(ds[j]) {
      TempNameInjective(ds[i], ds[j]);
    }
  }

  // ---------------------------------------------------------------------
  // Expressions
  // ---------------------------------------------------------------------

  /** Every constant of the table fits an `int` (what `SymbolTable.Valid` says). */
  predicate TableI32(t: map<string, Symbol>) {
    forall x :: x in t ==> IsI32(t[x].val)
  }

  predicate MemI32(mem: map<string, int>) {
    forall x :: x in mem ==> IsI32(mem[x])
  }

  lemma EvalI32(e: Exp, t: map<string, Symbol>, mem: map<string, int>)
    requires TableI32(t) && MemI32(mem) && Eval(e, t, mem).Some?
    ensures IsI32(Eval(e, t, mem).value)
  {
  }

  /** `s'` has the memory of `s` and its temporaries below `n`. */
  predicate Keeps(s: State, s': State, n: nat) {
    s'.mem == s.mem
    && forall k :: k in s.temps && k < n ==> k in s'.temps && s'.temps[k] == s.temps[k]
  }

  lemma KeepsTrans(s: State, s1: State, s2: State, n: nat, m: nat)
    requires n <= m && Keeps(s, s1, n) && Keeps(s1, s2, m)
    ensures Keeps(s, s2, n)
  {
  }

  lemma ExecCons(i: Inst, rest: seq<Inst>, s: State)
    ensures Step(i, s).Running? ==> Exec([i] + rest, s) == Exec(rest, Step(i, s).s)
    ensures !Step(i, s).Running? ==> Exec([i] + rest, s) == Step(i, s)
  {
    assert ([i] + rest)[0] == i && ([i] + rest)[1..] == rest;
  }

  lemma ExecOne(i: Inst, s: State)
    ensures Exec([i], s) == Step(i, s)
  {
    assert [i][1..] == [];
  }

  /** Running both operands' lines and then `tail` is running `tail` after both. */
  lemma ExecOperands(cl: Code, cr: Code, tail: seq<Inst>, s: State)
    requires Exec(cl.insts, s).Running? && Exec(cr.insts, Exec(cl.insts, s).s).Running?
    ensures Exec(cl.insts + cr.insts + tail, s) == Exec(tail, Exec(cr.insts, Exec(cl.insts, s).s).s)
  {
    ExecAppend(cl.insts + cr.insts, tail, s);
    ExecAppend(cl.insts, cr.insts, s);
  }

  /** The IR operation of a binary form computes its C value when that is defined. */
  lemma ApplyOpAgrees(op: BinaryOp, a: int, b: int)
    requires BinaryDefined(op, a, b)
    ensures ApplyOp(IrOpOf(op), a, b) == Some(BinaryValue(op, a, b))
  {
  }

  /** `ne 0, x; ne 0, y; and` leaves the conjunction in `%k+2`. */
  lemma LAndTailRuns(k: nat, x: Operand, y: Operand, s: State, a: int, b: int)
    requires x.Temp? ==> x.k < k
    requires y.Temp? ==> y.k < k
    requires OperandValue(x, s) == Some(a) && OperandValue(y, s) == Some(b)
    ensures var o := Exec(LAndTail(k, x, y), s);
            o.Running? && Keeps(s, o.s, k)
            && OperandValue(Temp(k + 2), o.s) == Some(if a != 0 && b != 0 then 1 else 0)
  {
    var i1, i2, i3 := BinInst(k, IrOp.Ne, Lit(0), x), BinInst(k + 1, IrOp.Ne, Lit(0), y),
                      BinInst(k + 2, IrOp.And, Temp(k), Temp(k + 1));
    assert LAndTail(k, x, y) == [i1] + ([i2] + [i3]);
    var p, q := if a != 0 then 1 else 0, if b != 0 then 1 else 0;
    assert ApplyOp(IrOp.Ne, 0, a) == Some(p) && ApplyOp(IrOp.Ne, 0, b) == Some(q);
    AndTruth(p, q);
    var r := if p == 1 && q == 1 then 1 else 0;
    var s1 := s.(temps := s.temps[k := p]);
    var s2 := s1.(temps := s1.temps[k + 1 := q]);
    var s3 := s2.(temps := s2.temps[k + 2 := r]);
    BinStep(i1, s, 0, a);
    assert OperandValue(y, s1) == Some(b);
    BinStep(i2, s1, 0, b);
    BinStep(i3, s2, p, q);
    ExecCons(i1, [i2] + [i3], s);
    ExecCons(i2, [i3], s1);
    ExecOne(i3, s2);
    assert Exec(LAndTail(k, x, y), s) == Running(s3);
  }

  /** `or x, y; ne 0` leaves the disjunction in `%k+1`. */
  lemma LOrTailRuns(k: nat, x: Operand, y: Operand, s: State, a: int, b: int)
    requires IsI32(a) && IsI32(b)
    requires OperandValue(x, s) == Some(a) && OperandValue(y, s) == Some(b)
    ensures var o := Exec(LOrTail(k, x, y), s);
            o.Running? && Keeps(s, o.s, k)
            && OperandValue(Temp(k + 1), o.s) == Some(if a != 0 || b != 0 then 1 else 0)
  {
    var i1, i2 := BinInst(k, IrOp.Or, x, y), BinInst(k + 1, IrOp.Ne, Lit(0), Temp(k));
    assert LOrTail(k, x, y) == [i1] + [i2];
    OrNonZero(a, b);
    var p := ApplyOp(IrOp.Or, a, b).value;
    var q := if p != 0 then 1 else 0;
    assert ApplyOp(IrOp.Ne, 0, p) == Some(q);
    var s1 := s.(temps := s.temps[k := p]);
    var s2 := s1.(temps := s1.temps[k + 1 := q]);
    BinStep(i1, s, a, b);
    BinStep(i2, s1, 0, p);
    ExecCons(i1, [i2], s);
    ExecOne(i2, s1);
    assert Exec(LOrTail(k, x, y), s) == Running(s2);
  }

  /** One arithmetic line whose operands have values and whose operation is defined. */
  lemma BinStep(i: Inst, s: State, a: int, b: int)
    requires i.BinInst? && OperandValue(i.a, s) == Some(a) && OperandValue(i.b, s) == Some(b)
    requires ApplyOp(i.op, a, b).Some?
    ensures Step(i, s) == Running(s.(temps := s.temps[i.dst := ApplyOp(i.op, a, b).value]))
  {
  }

  /**
   * The code of an expression is correct: whenever the expression has a
   * value, running its lines from any state with that memory finishes,
   * changes neither memory nor the temporaries below the starting counter,
   * and leaves the value in the operand `PrintIR` returned.
   */
  lemma {:induction false} ExpCodeCorrect(e: Exp, t: map<string, Symbol>, n: nat, s: State)
    requires TableI32(t) && MemI32(s.mem) && Eval(e, t, s.mem).Some?
    ensures var c := ExpCode(e, t, n); var o := Exec(c.insts, s);
            o.Running? && Keeps(s, o.s, n) && OperandValue(c.val, o.s) == Eval(e, t, s.mem)
    decreases e, 1
  {
    match e
    case Number(_) =>
    case LVal(x) =>
      if t[x].kind != KConst {
        ExecOne(LoadInst(n, x), s);
      }
    case Unary(_, _) =>
      UnaryCorrect(e, t, n, s);
    case Binary(_, _, _) =>
      BinaryCorrect(e, t, n, s);
    case LAnd(_, _) =>
      LAndCorrect(e, t, n, s);
    case LOr(_, _) =>
      LOrCorrect(e, t, n, s);
  }

  lemma UnaryCorrect(e: Exp, t: map<string, Symbol>, n: nat, s: State)
    requires e.Unary?
    requires TableI32(t) && MemI32(s.mem) && Eval(e, t, s.mem).Some?
    ensures var c := ExpCode(e, t, n); var o := Exec(c.insts, s);
            o.Running? && Keeps(s, o.s, n) && OperandValue(c.val, o.s) == Eval(e, t, s.mem)
    decreases e, 0
  {
    var c1 := ExpCode(e.operand, t, n);
    ExpCodeCorrect(e.operand, t, n, s);
    if e.uop != Positive {
      var s1 := Exec(c1.insts, s).s;
      var i := BinInst(c1.next, if e.uop == Negative then IrOp.Sub else IrOp.Eq, Lit(0), c1.val);
      ExecAppend(c1.insts, [i], s);
      ExecOne(i, s1);
    }
  }

  lemma BinaryCorrect(e: Exp, t: map<string, Symbol>, n: nat, s: State)
    requires e.Binary?
    requires TableI32(t) && MemI32(s.mem) && Eval(e, t, s.mem).Some?
    ensures var c := ExpCode(e, t, n); var o := Exec(c.insts, s);
            o.Running? && Keeps(s, o.s, n) && OperandValue(c.val, o.s) == Eval(e, t, s.mem)
    decreases e, 0
  {
    var cl := ExpCode(e.lhs, t, n);
    var cr := ExpCode(e.rhs, t, cl.next);
    ExpCodeCorrect(e.lhs, t, n, s);
    var s1 := Exec(cl.insts, s).s;
    ExpCodeCorrect(e.rhs, t, cl.next, s1);
    var s2 := Exec(cr.insts, s1).s;
    assert OperandValue(cl.val, s2) == OperandValue(cl.val, s1);
    var i := BinInst(cr.next, IrOpOf(e.op), cl.val, cr.val);
    ExecOperands(cl, cr, [i], s);
    ExecOne(i, s2);
    ApplyOpAgrees(e.op, Eval(e.lhs, t, s.mem).value, Eval(e.rhs, t, s.mem).value);
  }

  lemma LAndCorrect(e: Exp, t: map<string, Symbol>, n: nat, s: State)
    requires e.LAnd?
    requires TableI32(t) && MemI32(s.mem) && Eval(e, t, s.mem).Some?
    ensures var c := ExpCode(e, t, n); var o := Exec(c.insts, s);
            o.Running? && Keeps(s, o.s, n) && OperandValue(c.val, o.s) == Eval(e, t, s.mem)
    decreases e, 0
  {
    var cl := ExpCode(e.lhs, t, n);
    var cr := ExpCode(e.rhs, t, cl.next);
    ExpCodeCorrect(e.lhs, t, n, s);
    var s1 := Exec(cl.insts, s).s;
    ExpCodeCorrect(e.rhs, t, cl.next, s1);
    var s2 := Exec(cr.insts, s1).s;
    LAndCombine(cl, cr, s, s1, s2, n, Eval(e.lhs, t, s.mem).value, Eval(e.rhs, t, s.mem).value);
  }

  /** The `&&` lines after both operands' lines. */
  lemma LAndCombine(cl: Code, cr: Code, s: State, s1: State, s2: State, n: nat, a: int, b: int)
    requires n <= cl.next <= cr.next && (cl.val.Temp? ==> cl.val.k < cl.next)
    requires cr.val.Temp? ==> cr.val.k < cr.next
    requires Exec(cl.insts, s) == Running(s1) && Exec(cr.insts, s1) == Running(s2)
    requires Keeps(s, s1, n) && Keeps(s1, s2, cl.next)
    requires OperandValue(cl.val, s1) == Some(a) && OperandValue(cr.val, s2) == Some(b)
    ensures var c := LAndCode(cl, cr); var o := Exec(c.insts, s);
            o.Running? && Keeps(s, o.s, n) && OperandValue(c.val, o.s) == Some(if a != 0 && b != 0 then 1 else 0)
  {
    var k := cr.next;
    var tail := LAndTail(k, cl.val, cr.val);
    assert Exec(LAndCode(cl, cr).insts, s) == Exec(tail, s2) by {
      ExecOperands(cl, cr, tail, s);
    }
    var o := Exec(tail, s2);
    assert o.Running? && Keeps(s2, o.s, k)
           && OperandValue(Temp(k + 2), o.s) == Some(if a != 0 && b != 0 then 1 else 0) by {
      assert OperandValue(cl.val, s2) == Some(a);
      LAndTailRuns(k, cl.val, cr.val, s2, a, b);
    }
    KeepsTrans(s, s1, s2, n, cl.next);
    KeepsTrans(s, s2, o.s, n, k);
    var c := LAndCode(cl, cr);
    assert c.val == Temp(k + 2) && Exec(c.insts, s) == o;
  }

  lemma LOrCorrect(e: Exp, t: map<string, Symbol>, n: nat, s: State)
    requires e.LOr?
    requires TableI32(t) && MemI32(s.mem) && Eval(e, t, s.mem).Some?
    ensures var c := ExpCode(e, t, n); var o := Exec(c.insts, s);
            o.Running? && Keeps(s, o.s, n) && OperandValue(c.val, o.s) == Eval(e, t, s.mem)
    decreases e, 0
  {
    var cl := ExpCode(e.lhs, t, n);
    var cr := ExpCode(e.rhs, t, cl.next);
    ExpCodeCorrect(e.lhs, t, n, s);
    var s1 := Exec(cl.insts, s).s;
    ExpCodeCorrect(e.rhs, t, cl.next, s1);
    var s2 := Exec(cr.insts, s1).s;
    assert OperandValue(cl.val, s2) == OperandValue(cl.val, s1);
    EvalI32(e.lhs, t, s.mem);
    EvalI32(e.rhs, t, s.mem);
    LOrCombine(cl, cr, s, s1, s2, n, Eval(e.lhs, t, s.mem).value, Eval(e.rhs, t, s.mem).value);
  }

  /** The `||` lines after both operands' lines. */
  lemma LOrCombine(cl: Code, cr: Code, s: State, s1: State, s2: State, n: nat, a: int, b: int)
    requires n <= cl.next <= cr.next && (cl.val.Temp? ==> cl.val.k < cl.next)
    requires Exec(cl.insts, s) == Running(s1) && Exec(cr.insts, s1) == Running(s2)
    requires Keeps(s, s1, n) && Keeps(s1, s2, cl.next)
    requires OperandValue(cl.val, s1) == Some(a) && OperandValue(cr.val, s2) == Some(b)
    requires IsI32(a) && IsI32(b)
    ensures var c := LOrCode(cl, cr); var o := Exec(c.insts, s);
            o.Running? && Keeps(s, o.s, n) && OperandValue(c.val, o.s) == Some(if a != 0 || b != 0 then 1 else 0)
  {
    var k := cr.next;
    var tail := LOrTail(k, cl.val, cr.val);
    assert Exec(LOrCode(cl, cr).insts, s) == Exec(tail, s2) by {
      ExecOperands(cl, cr, tail, s);
    }
    var o := Exec(tail, s2);
    assert o.Running? && Keeps(s2, o.s, k)
           && OperandValue(Temp(k + 1), o.s) == Some(if a != 0 || b != 0 then 1 else 0) by {
      assert OperandValue(cl.val, s2) == Some(a);
      LOrTailRuns(k, cl.val, cr.val, s2, a, b);
    }
    KeepsTrans(s, s1, s2, n, cl.next);
    KeepsTrans(s, s2, o.s, n, k);
    var c := LOrCode(cl, cr);
    assert c.val == Temp(k + 1) && Exec(c.insts, s) == o;
  }

  // ---------------------------------------------------------------------
  // Blocks
  // ---------------------------------------------------------------------

  /** Running the source tree: the variables' memory, a returned value, or a fault. */
  datatype Run = Continue(mem: map<string, int>) | Done(v: int) | Fault

  /** A declared variable starts without a value; its initialiser is evaluated after that. */
  function RunVarDef(d: VarDef, t: map<string, Symbol>, mem: map<string, int>): Run {
    var m := mem - {d.ident};
    match d.init
    case None => Continue(m)
    case Some(e) =>
      match Eval(e, t, m)
      case None => Fault
      case Some(v) => Continue(m[d.ident := v])
  }

  function RunVarDefs(defs: seq<VarDef>, t: map<string, Symbol>, mem: map<string, int>): Run
    decreases |defs|
  {
    if defs == [] then Continue(mem)
    else
      match RunVarDefs(defs[..|defs| - 1], t, mem)
      case Continue(m) => RunVarDef(defs[|defs| - 1], t, m)
      case other => other
  }

  /** An assignment to a name the table does not know has no effect. */
  function RunStmt(s: Stmt, t: map<string, Symbol>, mem: map<string, int>): Run {
    match Eval(s.exp, t, mem)
    case None => Fault
    case Some(v) =>
      match s
      case Assign(x, _) => Continue(if x in t then mem[x := v] else mem)
      case Return(_) => Done(v)
  }

  function RunItem(item: BlockItem, t: map<string, Symbol>, mem: map<string, int>): Run {
    match item
    case DeclItem(ConstDecl(_)) => Continue(mem)
    case DeclItem(VarDecl(defs)) => RunVarDefs(defs, t, mem)
    case StmtItem(s) => RunStmt(s, t, mem)
  }

  /** The items in order, up to the first `return`. */
  function RunItems(items: seq<BlockItem>, t: map<string, Symbol>, mem: map<string, int>): Run
    decreases |items|
  {
    if items == [] then Continue(mem)
    else
      match RunItems(items[..|items| - 1], t, mem)
      case Continue(m) => RunItem(items[|items| - 1], t, m)
      case other => other
  }

  /**
   * The lines agree with the source run: the same memory when it goes on,
   * the same value when it returns.  A fault (undefined behaviour in C)
   * promises nothing.
   */
  predicate Simulates(o: Outcome, r: Run) {
    match r
    case Continue(m) => o.Running? && o.s.mem == m && MemI32(m)
    case Done(v) => o == Returned(v)
    case Fault => true
  }

  /** Running `a + b` where `a` agrees with `r`, and `b` agrees with the rest after a continue. */
  lemma SimulatesAppend(a: seq<Inst>, b: seq<Inst>, s: State, r: Run)
    requires Simulates(Exec(a, s), r)
    requires r.Continue? ==> Exec(a, s).Running?
    ensures r.Done? ==> Exec(a + b, s) == Returned(r.v)
    ensures r.Continue? ==> Exec(a + b, s) == Exec(b, Exec(a, s).s)
  {
    ExecAppend(a, b, s);
  }

  lemma VarDefCorrect(d: VarDef, t: map<string, Symbol>, n: nat, s: State)
    requires TableI32(t) && MemI32(s.mem)
    ensures Simulates(Exec(VarDefCode(d, t, n).insts, s), RunVarDef(d, t, s.mem))
  {
    var a := AllocInst(d.ident);
    var s1 := s.(mem := s.mem - {d.ident});
    ExecOne(a, s);
    match d.init
    case None =>
    case Some(e) =>
      var ce := ExpCode(e, t, n);
      if Eval(e, t, s1.mem).Some? {
        ExpCodeCorrect(e, t, n, s1);
        EvalI32(e, t, s1.mem);
        var s2 := Exec(ce.insts, s1).s;
        var st := StoreInst(ce.val, d.ident);
        ExecAppend([a] + ce.insts, [st], s);
        ExecAppend([a], ce.insts, s);
        ExecOne(st, s2);
      }
  }

  lemma {:induction false} VarDefsCorrect(defs: seq<VarDef>, t: map<string, Symbol>, n: nat, s: State)
    requires TableI32(t) && MemI32(s.mem)
    ensures Simulates(Exec(VarDefsCode(defs, t, n).insts, s), RunVarDefs(defs, t, s.mem))
    ensures RunVarDefs(defs, t, s.mem).Continue? || RunVarDefs(defs, t, s.mem).Fault?
    decreases |defs|
  {
    if defs != [] {
      var init, last := defs[..|defs| - 1], defs[|defs| - 1];
      var c0 := VarDefsCode(init, t, n);
      var c1 := VarDefCode(last, t, c0.next);
      VarDefsCorrect(init, t, n, s);
      var r0 := RunVarDefs(init, t, s.mem);
      SimulatesAppend(c0.insts, c1.insts, s, r0);
      if r0.Continue? {
        VarDefCorrect(last, t, c0.next, Exec(c0.insts, s).s);
      }
    }
  }

  lemma StmtCorrect(st: Stmt, t: map<string, Symbol>, n: nat, s: State)
    requires TableI32(t) && MemI32(s.mem)
    ensures Simulates(Exec(StmtCode(st, t, n).insts, s), RunStmt(st, t, s.mem))
  {
    var ce := ExpCode(st.exp, t, n);
    if Eval(st.exp, t, s.mem).Some? {
      ExpCodeCorrect(st.exp, t, n, s);
      EvalI32(st.exp, t, s.mem);
      var s1 := Exec(ce.insts, s).s;
      match st
      case Assign(x, _) =>
        if x in t {
          ExecAppend(ce.insts, [StoreInst(ce.val, x)], s);
          ExecOne(StoreInst(ce.val, x), s1);
        }
      case Return(_) =>
        ExecAppend(ce.insts, [RetInst(ce.val)], s);
        ExecOne(RetInst(ce.val), s1);
    }
  }

  lemma BlockItemCorrect(item: BlockItem, t: map<string, Symbol>, n: nat, s: State)
    requires TableI32(t) && MemI32(s.mem)
    ensures Simulates(Exec(BlockItemCode(item, t, n).insts, s), RunItem(item, t, s.mem))
  {
    match item
    case DeclItem(d) =>
      if d.VarDecl? {
        VarDefsCorrect(d.varDefs, t, n, s);
      }
    case StmtItem(st) =>
      StmtCorrect(st, t, n, s);
  }

  /**
   * The lines of a block do what its items do: from any state whose memory
   * holds `int` values, they keep the memory the source run keeps and return
   * the value the source run returns.
   */
  lemma {:induction false} BlockItemsCorrect(items: seq<BlockItem>, t: map<string, Symbol>, n: nat, s: State)
    requires TableI32(t) && MemI32(s.mem)
    ensures Simulates(Exec(BlockItemsCode(items, t, n).insts, s), RunItems(items, t, s.mem))
    decreases |items|
  {
    if items != [] {
      var init, last := items[..|items| - 1], items[|items| - 1];
      var c0 := BlockItemsCode(init, t, n);
      var c1 := BlockItemCode(last, t, c0.next);
      BlockItemsCorrect(init, t, n, s);
      var r0 := RunItems(init, t, s.mem);
      SimulatesAppend(c0.insts, c1.insts, s, r0);
      if r0.Continue? {
        BlockItemCorrect(last, t, c0.next, Exec(c0.insts, s).s);
      }
    }
  }

  /** The function of a compilation unit returns what its body returns, from an empty state. */
  lemma CompUnitReturns(u: CompUnit, t: map<string, Symbol>, v: int)
    requires TableI32(t)
    requires RunItems(u.funcDef.block.blockItems, t, map[]) == Done(v)
    ensures Exec(BlockItemsCode(u.funcDef.block.blockItems, t, 0).insts, State(map[], map[])) == Returned(v)
  {
    BlockItemsCorrect(u.funcDef.block.blockItems, t, 0, State(map[], map[]));
  }
}
