/**
 * `PrintIR` of the front end: every node appends its lines to one output
 * buffer and returns the operand text that names its value.  Temporaries
 * are numbered by one counter shared by the whole run (`NewTempSymbol`).
 *
 * The functions `ExpCode`, `StmtCode`, ... say which structured lines a node
 * produces from a given counter value; the class `Emitter` appends exactly
 * their text, as the source does, string by string.
 */
module IrEmitter {
  import opened Common
  import opened SymbolTables
  import opened FrontAst
  import opened ConstFold
  import opened KoopaIr

  /** Lines of an expression, the operand naming its value and the next free temporary. */
  datatype Code = Code(insts: seq<Inst>, val: Operand, next: nat)

  /** Lines of a statement or declaration and the next free temporary. */
  datatype Lines = Lines(insts: seq<Inst>, next: nat)

  function IrOpOf(op: BinaryOp): IrOp {
    match op
    case Mul => IrOp.Mul
    case Div => IrOp.Div
    case Mod => IrOp.Mod
    case Add => IrOp.Add
    case Sub => IrOp.Sub
    case Lt => IrOp.Lt
    case Gt => IrOp.Gt
    case Le => IrOp.Le
    case Ge => IrOp.Ge
    case Eq => IrOp.Eq
    case Ne => IrOp.Ne
  }

  /**
   * The code `PrintIR` writes for `e` when the counter starts at `n`:
   * operands first (left, then right), then fresh temporaries for the node.
   * An identifier missing from the table writes nothing and names no value.
   */
  function ExpCode(e: Exp, t: map<string, Symbol>, n: nat): (c: Code)
    ensures n <= c.next
    ensures c.val.Temp? ==> n <= c.val.k < c.next
  {
    match e
    case Number(k) => Code([], Lit(k), n)
    case LVal(x) =>
      if x !in t then Code([], NoValue, n)
      else if t[x].kind == KConst then Code([], Lit(t[x].val), n)
      else Code([LoadInst(n, x)], Temp(n), n + 1)
    case Unary(op, e1) => UnaryCode(op, ExpCode(e1, t, n))
    case Binary(op, l, r) =>
      var cl := ExpCode(l, t, n);
      BinaryCode(op, cl, ExpCode(r, t, cl.next))
    case LAnd(l, r) =>
      var cl := ExpCode(l, t, n);
      LAndCode(cl, ExpCode(r, t, cl.next))
    case LOr(l, r) =>
      var cl := ExpCode(l, t, n);
      LOrCode(cl, ExpCode(r, t, cl.next))
  }

  /** `+` forwards its operand; `-` is `sub 0, v` and `!` is `eq 0, v` into a fresh temporary. */
  function UnaryCode(op: UnaryOp, c1: Code): (c: Code)
    requires c1.val.Temp? ==> c1.val.k < c1.next
    ensures c1.next <= c.next
    ensures c.val.Temp? ==> c.val.k < c.next
  {
    if op == Positive then c1
    else
      var k := c1.next;
      Code(c1.insts + [BinInst(k, if op == Negative then IrOp.Sub else IrOp.Eq, Lit(0), c1.val)], Temp(k), k + 1)
  }

  /** `now = op v1, v2` after both operands. */
  function BinaryCode(op: BinaryOp, cl: Code, cr: Code): (c: Code)
    ensures c.next == cr.next + 1 && c.val == Temp(cr.next)
  {
    var k := cr.next;
    Code(cl.insts + cr.insts + [BinInst(k, IrOpOf(op), cl.val, cr.val)], Temp(k), k + 1)
  }

  /** `now1 = ne 0, v1`, `now2 = ne 0, v2`, `now3 = and now1, now2` after both operands. */
  function LAndCode(cl: Code, cr: Code): (c: Code)
    ensures c.next == cr.next + 3 && c.val == Temp(cr.next + 2)
  {
    var k := cr.next;
    Code(cl.insts + cr.insts + LAndTail(k, cl.val, cr.val), Temp(k + 2), k + 3)
  }

  function LAndTail(k: nat, x: Operand, y: Operand): seq<Inst> {
    [BinInst(k, IrOp.Ne, Lit(0), x), BinInst(k + 1, IrOp.Ne, Lit(0), y), BinInst(k + 2, IrOp.And, Temp(k), Temp(k + 1))]
  }

  /** `now1 = or v1, v2`, `now2 = ne 0, now1` after both operands. */
  function LOrCode(cl: Code, cr: Code): (c: Code)
    ensures c.next == cr.next + 2 && c.val == Temp(cr.next + 1)
  {
    var k := cr.next;
    Code(cl.insts + cr.insts + LOrTail(k, cl.val, cr.val), Temp(k + 1), k + 2)
  }

  function LOrTail(k: nat, x: Operand, y: Operand): seq<Inst> {
    [BinInst(k, IrOp.Or, x, y), BinInst(k + 1, IrOp.Ne, Lit(0), Temp(k))]
  }

  /** `VarDefAST::PrintIR`: the cell, then (if initialised) the initialiser and a store. */
  function VarDefCode(d: VarDef, t: map<string, Symbol>, n: nat): (c: Lines)
    ensures n <= c.next
  {
    match d.init
    case None => Lines([AllocInst(d.ident)], n)
    case Some(e) =>
      var ce := ExpCode(e, t, n);
      Lines([AllocInst(d.ident)] + ce.insts + [StoreInst(ce.val, d.ident)], ce.next)
  }

  /** `VarDeclAST::PrintIR`: its definitions in order. */
  function VarDefsCode(defs: seq<VarDef>, t: map<string, Symbol>, n: nat): (c: Lines)
    ensures n <= c.next
    decreases |defs|
  {
    if defs == [] then Lines([], n)
    else
      var c0 := VarDefsCode(defs[..|defs| - 1], t, n);
      var c1 := VarDefCode(defs[|defs| - 1], t, c0.next);
      Lines(c0.insts + c1.insts, c1.next)
  }

  /** `DeclAST::PrintIR`: a constant declaration writes nothing. */
  function DeclCode(d: Decl, t: map<string, Symbol>, n: nat): (c: Lines)
    ensures n <= c.next
  {
    match d
    case ConstDecl(_) => Lines([], n)
    case VarDecl(defs) => VarDefsCode(defs, t, n)
  }

  /**
   * `StmtAST::PrintIR`: the expression, then a store into the named cell
   * (left out when the name is not in the table) or a return.
   */
  function StmtCode(s: Stmt, t: map<string, Symbol>, n: nat): (c: Lines)
    ensures n <= c.next
  {
    var ce := ExpCode(s.exp, t, n);
    match s
    case Assign(x, _) =>
      if x in t then Lines(ce.insts + [StoreInst(ce.val, x)], ce.next) else Lines(ce.insts, ce.next)
    case Return(_) => Lines(ce.insts + [RetInst(ce.val)], ce.next)
  }

  function BlockItemCode(item: BlockItem, t: map<string, Symbol>, n: nat): (c: Lines)
    ensures n <= c.next
  {
    match item
    case DeclItem(d) => DeclCode(d, t, n)
    case StmtItem(s) => StmtCode(s, t, n)
  }

  function BlockItemsCode(items: seq<BlockItem>, t: map<string, Symbol>, n: nat): (c: Lines)
    ensures n <= c.next
    decreases |items|
  {
    if items == [] then Lines([], n)
    else
      var c0 := BlockItemsCode(items[..|items| - 1], t, n);
      var c1 := BlockItemCode(items[|items| - 1], t, c0.next);
      Lines(c0.insts + c1.insts, c1.next)
  }

  /** `FuncTypeAST::PrintIR`: only `int` has an IR type. */
  function FuncTypeText(tab: string, t: string): string {
    tab + (if t == "int" then " i32 " else " error-type ")
  }

  /** `BlockAST::PrintIR`: the entry label, then the items one tab deeper. */
  function BlockText(tab: string, b: Block, t: map<string, Symbol>, n: nat): string
  {
    (tab + "%entry:\n") + Render(tab + "\t", BlockItemsCode(b.blockItems, t, n).insts)
  }

  /** `FuncDefAST::PrintIR`: header, type, opening brace, block, closing brace. */
  function FuncDefText(tab: string, f: FuncDef, t: map<string, Symbol>, n: nat): string {
    (tab + "fun @" + f.ident + "():") + FuncTypeText(tab, f.funcType) + (tab + "{\n")
    + BlockText(tab, f.block, t, n) + (tab + "}\n")
  }

  /** The run of the emitter: the output buffer and the temporaries' counter. */
  class Emitter {
    var buffer: string
    var count: nat

    constructor ()
      ensures buffer == "" && count == 0
    {
      buffer := "";
      count := 0;
    }

    method NewTempSymbol() returns (s: string)
      modifies this
      ensures s == TempName(old(count)) && count == old(count) + 1 && buffer == old(buffer)
    {
      s := "%" + NatToString(count);
      count := count + 1;
    }

    /** PrintIR of an expression node: appends its code, returns the operand's text. */
    method EmitExp(tab: string, e: Exp, st: SymbolTable) returns (v: string)
      modifies this
      ensures var c := ExpCode(e, st.table, old(count));
              buffer == old(buffer) + Render(tab, c.insts) && count == c.next && v == OperandText(c.val)
      decreases e, 2
    {
      match e
      case Number(k) =>
        v := IntToString(k);
      case LVal(_) =>
        v := EmitLVal(tab, e, st);
      case Unary(_, _) =>
        v := EmitUnary(tab, e, st);
      case Binary(_, _, _) =>
        v := EmitBinary(tab, e, st);
      case LAnd(_, _) =>
        v := EmitLAnd(tab, e, st);
      case LOr(_, _) =>
        v := EmitLOr(tab, e, st);
    }

    /** `PrimaryExpAST::PrintIR` of an identifier: a constant's value, or a load of the variable. */
    method EmitLVal(tab: string, e: Exp, st: SymbolTable) returns (v: string)
      requires e.LVal?
      modifies this
      ensures var c := ExpCode(e, st.table, old(count));
              buffer == old(buffer) + Render(tab, c.insts) && count == c.next && v == OperandText(c.val)
      decreases e, 1
    {
      var x := e.ident;
      if !st.HasSymbol(x) {
        v := "";
      } else if st.GetSymbolType(x) == KConst {
        v := IntToString(st.GetConstSymbolValue(x));
      } else {
        ghost var k := count;
        var now := NewTempSymbol();
        buffer := buffer + (tab + LoadText(now, x) + "\n");
        v := now;
        RenderOne(tab, LoadInst(k, x));
      }
    }

    /** `UnaryExpAST::PrintIR`: `+` forwards, `-` is `sub 0, v`, `!` is `eq 0, v`. */
    method EmitUnary(tab: string, e: Exp, st: SymbolTable) returns (v: string)
      requires e.Unary?
      modifies this
      ensures var c := ExpCode(e, st.table, old(count));
              buffer == old(buffer) + Render(tab, c.insts) && count == c.next && v == OperandText(c.val)
      decreases e, 1
    {
      ghost var b0 := buffer;
      ghost var c1 := ExpCode(e.operand, st.table, count);
      ghost var i := BinInst(c1.next, if e.uop == Negative then IrOp.Sub else IrOp.Eq, Lit(0), c1.val);
      var w := EmitExp(tab, e.operand, st);
      if e.uop == Positive {
        v := w;
      } else {
        var now := NewTempSymbol();
        var mnemonic := if e.uop == Negative then "sub" else "eq";
        buffer := buffer + (tab + BinText(now, mnemonic, "0", w) + "\n");
        v := now;
        assert OperandText(Lit(0)) == "0";
        RenderOne(tab, i);
        RenderAppend2(tab, b0, c1.insts, [i]);
      }
    }

    /** The two operands of a binary node, left first: `var1`, then `var2`. */
    method EmitOperands(tab: string, e: Exp, st: SymbolTable) returns (v1: string, v2: string)
      requires e.Binary? || e.LAnd? || e.LOr?
      modifies this
      ensures var cl := ExpCode(e.lhs, st.table, old(count));
              var cr := ExpCode(e.rhs, st.table, cl.next);
              && buffer == old(buffer) + Render(tab, cl.insts) + Render(tab, cr.insts)
              && count == cr.next && v1 == OperandText(cl.val) && v2 == OperandText(cr.val)
      decreases e, 0
    {
      v1 := EmitExp(tab, e.lhs, st);
      v2 := EmitExp(tab, e.rhs, st);
    }

    /** PrintIR of `MulExpAST`, `AddExpAST`, `RelExpAST`, `EqExpAST`: `now = op v1, v2`. */
    method EmitBinary(tab: string, e: Exp, st: SymbolTable) returns (v: string)
      requires e.Binary?
      modifies this
      ensures var c := ExpCode(e, st.table, old(count));
              buffer == old(buffer) + Render(tab, c.insts) && count == c.next && v == OperandText(c.val)
      decreases e, 1
    {
      ghost var b0 := buffer;
      ghost var cl := ExpCode(e.lhs, st.table, count);
      ghost var cr := ExpCode(e.rhs, st.table, cl.next);
      ghost var i := BinInst(cr.next, IrOpOf(e.op), cl.val, cr.val);
      var v1, v2 := EmitOperands(tab, e, st);
      var now := NewTempSymbol();
      buffer := buffer + (tab + BinText(now, OpName(IrOpOf(e.op)), v1, v2) + "\n");
      v := now;
      RenderOne(tab, i);
      RenderAppend3(tab, b0, cl.insts, cr.insts, [i]);
    }

    /**
     * `ConstExpAST::PrintIR`: the value the parser folded and cached, as a
     * literal; nothing is written.  The parser has folded every `ConstExp`
     * before this runs, so the text is that of the folded expression.
     */
    method EmitConstExp(c: ConstExp, st: SymbolTable) returns (v: string)
      requires st.Valid() && c.isCalculated && CacheSound(c, st)
      ensures v == OperandText(Lit(ConstExpValue(c, st)))
      ensures v == IntToString(CalcConstExp(c.exp, st))
    {
      v := IntToString(c.value);
    }

    /** `VarDefAST::PrintIR`: `@x = alloc i32`, then the initialiser and `store v, @x` if there is one. */
    method EmitVarDef(tab: string, d: VarDef, st: SymbolTable)
      modifies this
      ensures var c := VarDefCode(d, st.table, old(count));
              buffer == old(buffer) + Render(tab, c.insts) && count == c.next
    {
      ghost var b0 := buffer;
      buffer := buffer + (tab + AllocText(d.ident) + "\n");
      RenderOne(tab, AllocInst(d.ident));
      match d.init
      case None =>
      case Some(e) =>
        ghost var ce := ExpCode(e, st.table, count);
        var v := EmitExp(tab, e, st);
        buffer := buffer + (tab + StoreText(v, d.ident) + "\n");
        RenderOne(tab, StoreInst(ce.val, d.ident));
        RenderAppend3(tab, b0, [AllocInst(d.ident)], ce.insts, [StoreInst(ce.val, d.ident)]);
    }

    /** `VarDeclAST::PrintIR`: every definition in order. */
    method EmitVarDecl(tab: string, defs: seq<VarDef>, st: SymbolTable)
      modifies this
      ensures var c := VarDefsCode(defs, st.table, old(count));
              buffer == old(buffer) + Render(tab, c.insts) && count == c.next
    {
      ghost var b0, n0 := buffer, count;
      for i := 0 to |defs|
        invariant var c := VarDefsCode(defs[..i], st.table, n0);
                  buffer == b0 + Render(tab, c.insts) && count == c.next
      {
        ghost var c0 := VarDefsCode(defs[..i], st.table, n0);
        ghost var c1 := VarDefCode(defs[i], st.table, count);
        assert defs[..i + 1][..i] == defs[..i];
        EmitVarDef(tab, defs[i], st);
        RenderAppend2(tab, b0, c0.insts, c1.insts);
      }
      assert defs[..|defs|] == defs;
    }

    /** `DeclAST::PrintIR`: a constant declaration (`ConstDeclAST`, `ConstDefAST`) writes nothing. */
    method EmitDecl(tab: string, d: Decl, st: SymbolTable)
      modifies this
      ensures var c := DeclCode(d, st.table, old(count));
              buffer == old(buffer) + Render(tab, c.insts) && count == c.next
    {
      match d
      case ConstDecl(_) =>
      case VarDecl(defs) =>
        EmitVarDecl(tab, defs, st);
    }

    /** `StmtAST::PrintIR`. */
    method EmitStmt(tab: string, s: Stmt, st: SymbolTable)
      modifies this
      ensures var c := StmtCode(s, st.table, old(count));
              buffer == old(buffer) + Render(tab, c.insts) && count == c.next
    {
      ghost var b0 := buffer;
      ghost var ce := ExpCode(s.exp, st.table, count);
      match s
      case Assign(x, e) =>
        var v := EmitExp(tab, e, st);
        if !st.HasSymbol(x) {
          return;
        }
        buffer := buffer + (tab + StoreText(v, x) + "\n");
        RenderOne(tab, StoreInst(ce.val, x));
        RenderAppend2(tab, b0, ce.insts, [StoreInst(ce.val, x)]);
      case Return(e) =>
        var v := EmitExp(tab, e, st);
        buffer := buffer + (tab + RetText(v) + "\n");
        RenderOne(tab, RetInst(ce.val));
        RenderAppend2(tab, b0, ce.insts, [RetInst(ce.val)]);
    }

    /** `BlockItemAST::PrintIR`. */
    method EmitBlockItem(tab: string, item: BlockItem, st: SymbolTable)
      modifies this
      ensures var c := BlockItemCode(item, st.table, old(count));
              buffer == old(buffer) + Render(tab, c.insts) && count == c.next
    {
      match item
      case DeclItem(d) =>
        EmitDecl(tab, d, st);
      case StmtItem(s) =>
        EmitStmt(tab, s, st);
    }

    /** `BlockAST::PrintIR`: `%entry:`, then every item one tab deeper. */
    method EmitBlock(tab: string, b: Block, st: SymbolTable)
      modifies this
      ensures buffer == old(buffer) + BlockText(tab, b, st.table, old(count))
      ensures count == BlockItemsCode(b.blockItems, st.table, old(count)).next
    {
      ghost var n0 := count;
      buffer := buffer + (tab + "%entry:\n");
      ghost var b1 := buffer;
      var items := b.blockItems;
      for i := 0 to |items|
        invariant var c := BlockItemsCode(items[..i], st.table, n0);
                  buffer == b1 + Render(tab + "\t", c.insts) && count == c.next
      {
        ghost var c0 := BlockItemsCode(items[..i], st.table, n0);
        ghost var c1 := BlockItemCode(items[i], st.table, count);
        assert items[..i + 1][..i] == items[..i];
        EmitBlockItem(tab + "\t", items[i], st);
        RenderAppend2(tab + "\t", b1, c0.insts, c1.insts);
      }
      assert items[..|items|] == items;
      Assoc3(old(buffer), tab + "%entry:\n", Render(tab + "\t", BlockItemsCode(items, st.table, n0).insts));
    }

    /** `FuncTypeAST::PrintIR`. */
    method EmitFuncType(tab: string, t: string)
      modifies this
      ensures buffer == old(buffer) + FuncTypeText(tab, t) && count == old(count)
    {
      if t == "int" {
        buffer := buffer + (tab + " i32 ");
      } else {
        buffer := buffer + (tab + " error-type ");
      }
    }

    /** `FuncDefAST::PrintIR`. */
    method EmitFuncDef(tab: string, f: FuncDef, st: SymbolTable)
      modifies this
      ensures buffer == old(buffer) + FuncDefText(tab, f, st.table, old(count))
      ensures count == BlockItemsCode(f.block.blockItems, st.table, old(count)).next
    {
      ghost var b0, n0 := buffer, count;
      buffer := buffer + (tab + "fun @" + f.ident + "():");
      EmitFuncType(tab, f.funcType);
      buffer := buffer + (tab + "{\n");
      EmitBlock(tab, f.block, st);
      buffer := buffer + (tab + "}\n");
      Assoc6(b0, tab + "fun @" + f.ident + "():", FuncTypeText(tab, f.funcType), tab + "{\n",
             BlockText(tab, f.block, st.table, n0), tab + "}\n");
    }

    /** `CompUnitAST::PrintIR`: the one function of the unit. */
    method EmitCompUnit(tab: string, u: CompUnit, st: SymbolTable)
      modifies this
      ensures buffer == old(buffer) + FuncDefText(tab, u.funcDef, st.table, old(count))
      ensures count == BlockItemsCode(u.funcDef.block.blockItems, st.table, old(count)).next
    {
      EmitFuncDef(tab, u.funcDef, st);
    }

    /** `LAndExpAST::PrintIR`: both operands compared with 0, then a bitwise `and`. */
    method EmitLAnd(tab: string, e: Exp, st: SymbolTable) returns (v: string)
      requires e.LAnd?
      modifies this
      ensures var c := ExpCode(e, st.table, old(count));
              buffer == old(buffer) + Render(tab, c.insts) && count == c.next && v == OperandText(c.val)
      decreases e, 1
    {
      ghost var b0 := buffer;
      ghost var cl := ExpCode(e.lhs, st.table, count);
      ghost var cr := ExpCode(e.rhs, st.table, cl.next);
      LAndCodeOf(e, st.table, count);
      var v1, v2 := EmitOperands(tab, e, st);
      v := EmitLAndTail(tab, v1, v2, cl.val, cr.val);
      RenderAppend3(tab, b0, cl.insts, cr.insts, LAndTail(cr.next, cl.val, cr.val));
    }

    /** The last three lines of `LAndExpAST::PrintIR`, on the operands' texts. */
    method EmitLAndTail(tab: string, v1: string, v2: string, ghost x: Operand, ghost y: Operand) returns (v: string)
      requires v1 == OperandText(x) && v2 == OperandText(y)
      modifies this
      ensures buffer == old(buffer) + Render(tab, LAndTail(old(count), x, y))
      ensures count == old(count) + 3 && v == OperandText(Temp(old(count) + 2))
    {
      ghost var b2, k := buffer, count;
      var now1 := NewTempSymbol();
      var now2 := NewTempSymbol();
      var now3 := NewTempSymbol();
      var l1 := tab + BinText(now1, "ne", "0", v1) + "\n";
      var l2 := tab + BinText(now2, "ne", "0", v2) + "\n";
      var l3 := tab + BinText(now3, "and", now1, now2) + "\n";
      buffer := buffer + l1 + l2 + l3;
      v := now3;
      assert now1 == TempName(k) && now2 == TempName(k + 1) && now3 == TempName(k + 2);
      assert l1 == tab + BinText(TempName(k), "ne", "0", OperandText(x)) + "\n";
      assert l2 == tab + BinText(TempName(k + 1), "ne", "0", OperandText(y)) + "\n";
      assert l3 == tab + BinText(TempName(k + 2), "and", TempName(k), TempName(k + 1)) + "\n";
      LAndLines(tab, b2, k, x, y);
      assert buffer == b2 + l1 + l2 + l3;
    }

    /** `LOrExpAST::PrintIR`: a bitwise `or` of the operands, then compared with 0. */
    method EmitLOr(tab: string, e: Exp, st: SymbolTable) returns (v: string)
      requires e.LOr?
      modifies this
      ensures var c := ExpCode(e, st.table, old(count));
              buffer == old(buffer) + Render(tab, c.insts) && count == c.next && v == OperandText(c.val)
      decreases e, 1
    {
      ghost var b0 := buffer;
      ghost var cl := ExpCode(e.lhs, st.table, count);
      ghost var cr := ExpCode(e.rhs, st.table, cl.next);
      LOrCodeOf(e, st.table, count);
      var v1, v2 := EmitOperands(tab, e, st);
      v := EmitLOrTail(tab, v1, v2, cl.val, cr.val);
      RenderAppend3(tab, b0, cl.insts, cr.insts, LOrTail(cr.next, cl.val, cr.val));
    }

    /** The last two lines of `LOrExpAST::PrintIR`, on the operands' texts. */
    method EmitLOrTail(tab: string, v1: string, v2: string, ghost x: Operand, ghost y: Operand) returns (v: string)
      requires v1 == OperandText(x) && v2 == OperandText(y)
      modifies this
      ensures buffer == old(buffer) + Render(tab, LOrTail(old(count), x, y))
      ensures count == old(count) + 2 && v == OperandText(Temp(old(count) + 1))
    {
      ghost var b2, k := buffer, count;
      var now1 := NewTempSymbol();
      var now2 := NewTempSymbol();
      var l1 := tab + BinText(now1, "or", v1, v2) + "\n";
      var l2 := tab + BinText(now2, "ne", "0", now1) + "\n";
      buffer := buffer + l1 + l2;
      v := now2;
      assert now1 == TempName(k) && now2 == TempName(k + 1);
      assert l1 == tab + BinText(TempName(k), "or", OperandText(x), OperandText(y)) + "\n";
      assert l2 == tab + BinText(TempName(k + 1), "ne", "0", TempName(k)) + "\n";
      LOrLines(tab, b2, k, x, y);
      assert buffer == b2 + l1 + l2;
    }
  }

  /** The code of `l && r`: both operands in order, then the tail. */
  lemma LAndCodeOf(e: Exp, t: map<string, Symbol>, n: nat)
    requires e.LAnd?
    ensures var cl := ExpCode(e.lhs, t, n); ExpCode(e, t, n) == LAndCode(cl, ExpCode(e.rhs, t, cl.next))
  {
  }

  /** The code of `l || r`: both operands in order, then the tail. */
  lemma LOrCodeOf(e: Exp, t: map<string, Symbol>, n: nat)
    requires e.LOr?
    ensures var cl := ExpCode(e.lhs, t, n); ExpCode(e, t, n) == LOrCode(cl, ExpCode(e.rhs, t, cl.next))
  {
  }

  /** The three lines `LAndExpAST::PrintIR` appends, as structured lines. */
  lemma LAndLines(tab: string, b: string, k: nat, x: Operand, y: Operand)
    ensures b + (tab + BinText(TempName(k), "ne", "0", OperandText(x)) + "\n")
              + (tab + BinText(TempName(k + 1), "ne", "0", OperandText(y)) + "\n")
              + (tab + BinText(TempName(k + 2), "and", TempName(k), TempName(k + 1)) + "\n")
            == b + Render(tab, LAndTail(k, x, y))
  {
    var i1, i2, i3 := BinInst(k, IrOp.Ne, Lit(0), x), BinInst(k + 1, IrOp.Ne, Lit(0), y), BinInst(k + 2, IrOp.And, Temp(k), Temp(k + 1));
    assert OperandText(Lit(0)) == "0";
    RenderThree(tab, i1, i2, i3);
    Assoc4(b, Line(tab, i1), Line(tab, i2), Line(tab, i3));
  }

  /** The two lines `LOrExpAST::PrintIR` appends, as structured lines. */
  lemma LOrLines(tab: string, b: string, k: nat, x: Operand, y: Operand)
    ensures b + (tab + BinText(TempName(k), "or", OperandText(x), OperandText(y)) + "\n")
              + (tab + BinText(TempName(k + 1), "ne", "0", TempName(k)) + "\n")
            == b + Render(tab, LOrTail(k, x, y))
  {
    var i1, i2 := BinInst(k, IrOp.Or, x, y), BinInst(k + 1, IrOp.Ne, Lit(0), Temp(k));
    assert OperandText(Lit(0)) == "0";
    RenderTwo(tab, i1, i2);
    Assoc3(b, Line(tab, i1), Line(tab, i2));
  }

  lemma Assoc6(b: string, p1: string, p2: string, p3: string, p4: string, p5: string)
    ensures b + (p1 + p2 + p3 + p4 + p5) == b + p1 + p2 + p3 + p4 + p5
  {
  }
}
