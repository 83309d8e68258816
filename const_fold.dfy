/**
 * Constant folding (`CalcConstExp` on every expression node) and, beside it,
 * the run-time meaning of an expression, which evaluates both operands of
 * every binary form (the IR has no short-circuit instruction).
 *
 * Folding follows C: `&&` and `||` short-circuit and yield 0 or 1, relational
 * and equality forms yield 0 or 1, `/` and `%` truncate toward zero.  Signed
 * overflow and division by zero are undefined behaviour in C; `FoldDefined`
 * is the precondition that excludes them.
 */
module ConstFold {
  import opened Common
  import opened SymbolTables
  import opened FrontAst

  function UnaryValue(op: UnaryOp, v: int): int {
    match op
    case Positive => v
    case Negative => -v
    case Not => if v == 0 then 1 else 0
  }

  /** No division by zero; the quotient of `/` and `%` exists. */
  predicate BinaryOperable(op: BinaryOp, a: int, b: int) {
    (op == Div || op == Mod) ==> b != 0
  }

  function BinaryValue(op: BinaryOp, a: int, b: int): int
    requires BinaryOperable(op, a, b)
  {
    match op
    case Mul => a * b
    case Div => CDiv(a, b)
    case Mod => CMod(a, b)
    case Add => a + b
    case Sub => a - b
    case Lt => if a < b then 1 else 0
    case Gt => if a > b then 1 else 0
    case Le => if a <= b then 1 else 0
    case Ge => if a >= b then 1 else 0
    case Eq => if a == b then 1 else 0
    case Ne => if a != b then 1 else 0
  }

  /** C-defined: operable and the mathematical result fits an `int`. */
  predicate BinaryDefined(op: BinaryOp, a: int, b: int) {
    BinaryOperable(op, a, b) && IsI32(BinaryValue(op, a, b))
  }

  /** Forms whose value is a truth value. */
  predicate IsCondition(e: Exp) {
    || e.LAnd? || e.LOr?
    || (e.Unary? && e.uop == Not)
    || (e.Binary? && e.op in {Lt, Gt, Le, Ge, Eq, Ne})
  }

  /**
   * Folding `e` performs no undefined behaviour: every literal fits an
   * `int`, and every operation that folding actually performs (the right
   * operand of `&&`/`||` only when the left does not decide) is defined.
   */
  predicate FoldDefined(e: Exp, st: SymbolTable)
    requires st.Valid()
    reads st
    decreases e, 0
  {
    match e
    case Number(n) => IsI32(n)
    case LVal(_) => true
    case Unary(op, e1) =>
      FoldDefined(e1, st) && IsI32(UnaryValue(op, CalcConstExp(e1, st)))
    case Binary(op, l, r) =>
      FoldDefined(l, st) && FoldDefined(r, st)
      && BinaryDefined(op, CalcConstExp(l, st), CalcConstExp(r, st))
    case LAnd(l, r) =>
      FoldDefined(l, st) && (CalcConstExp(l, st) != 0 ==> FoldDefined(r, st))
    case LOr(l, r) =>
      FoldDefined(l, st) && (CalcConstExp(l, st) == 0 ==> FoldDefined(r, st))
  }

  /** `CalcConstExp`: the value of `e` with every identifier read from the symbol table. */
  function CalcConstExp(e: Exp, st: SymbolTable): (r: int)
    requires st.Valid() && FoldDefined(e, st)
    reads st
    ensures IsI32(r)
    ensures IsCondition(e) ==> r == 0 || r == 1
    ensures e.LVal? ==> r == st.GetConstSymbolValue(e.ident)
    decreases e, 1
  {
    match e
    case Number(n) => n
    case LVal(x) =>
      if !st.HasSymbol(x) then 0
      else if st.GetSymbolType(x) != KConst then 0
      else st.GetConstSymbolValue(x)
    case Unary(op, e1) => UnaryValue(op, CalcConstExp(e1, st))
    case Binary(op, l, r) => BinaryValue(op, CalcConstExp(l, st), CalcConstExp(r, st))
    case LAnd(l, r) =>
      if CalcConstExp(l, st) == 0 then 0
      else if CalcConstExp(r, st) != 0 then 1 else 0
    case LOr(l, r) =>
      if CalcConstExp(l, st) != 0 then 1
      else if CalcConstExp(r, st) != 0 then 1 else 0
  }

  /**
   * What the parser guarantees of a `ConstExp` before `PrintIR`: folding its
   * expression is defined, and a cached value is the folded one.
   */
  predicate CacheSound(c: ConstExp, st: SymbolTable)
    requires st.Valid()
    reads st
  {
    FoldDefined(c.exp, st) && (c.isCalculated ==> c.value == CalcConstExp(c.exp, st))
  }

  /**
   * `ConstExpAST::CalcConstExp`: the cached value once the parser has folded
   * it; with a sound cache, either way the folded value of the expression.
   */
  function ConstExpValue(c: ConstExp, st: SymbolTable): (r: int)
    requires st.Valid() && (c.isCalculated || FoldDefined(c.exp, st))
    reads st
    ensures c.isCalculated ==> r == c.value
    ensures !c.isCalculated ==> r == CalcConstExp(c.exp, st)
    ensures CacheSound(c, st) ==> r == CalcConstExp(c.exp, st) && IsI32(r)
  {
    if c.isCalculated then c.value else CalcConstExp(c.exp, st)
  }

  // ---------------------------------------------------------------------
  // Run-time meaning
  // ---------------------------------------------------------------------

  /**
   * The value `e` has when run with the variables holding `mem`: constants
   * read from the table, variables from memory, both operands of every
   * binary form evaluated; `None` for an unknown name, an unset variable or
   * undefined behaviour.
   */
  function Eval(e: Exp, t: map<string, Symbol>, mem: map<string, int>): Option<int>
  {
    match e
    case Number(n) => if IsI32(n) then Some(n) else None
    case LVal(x) =>
      if x !in t then None
      else if t[x].kind == KConst then Some(t[x].val)
      else if x in mem then Some(mem[x])
      else None
    case Unary(op, e1) =>
      var v := Eval(e1, t, mem);
      if v.Some? && IsI32(UnaryValue(op, v.value)) then Some(UnaryValue(op, v.value)) else None
    case Binary(op, l, r) =>
      var a, b := Eval(l, t, mem), Eval(r, t, mem);
      if a.Some? && b.Some? && BinaryDefined(op, a.value, b.value)
      then Some(BinaryValue(op, a.value, b.value)) else None
    case LAnd(l, r) =>
      var a, b := Eval(l, t, mem), Eval(r, t, mem);
      if a.Some? && b.Some? then Some(if a.value != 0 && b.value != 0 then 1 else 0) else None
    case LOr(l, r) =>
      var a, b := Eval(l, t, mem), Eval(r, t, mem);
      if a.Some? && b.Some? then Some(if a.value != 0 || b.value != 0 then 1 else 0) else None
  }

  /** Every identifier in `e` names a constant of the table. */
  predicate ConstOnly(e: Exp, t: map<string, Symbol>)
  {
    match e
    case Number(_) => true
    case LVal(x) => x in t && t[x].kind == KConst
    case Unary(_, e1) => ConstOnly(e1, t)
    case Binary(_, l, r) => ConstOnly(l, t) && ConstOnly(r, t)
    case LAnd(l, r) => ConstOnly(l, t) && ConstOnly(r, t)
    case LOr(l, r) => ConstOnly(l, t) && ConstOnly(r, t)
  }

  /**
   * Folding agrees with running: for an expression built from literals and
   * constants whose run is defined, folding is defined and gives the same
   * value, whatever the memory.
   */
  lemma {:induction false} FoldAgreesWithEval(e: Exp, st: SymbolTable, mem: map<string, int>)
    requires st.Valid() && ConstOnly(e, st.table) && Eval(e, st.table, mem).Some?
    ensures FoldDefined(e, st) && CalcConstExp(e, st) == Eval(e, st.table, mem).value
  {
    match e
    case Number(_) =>
    case LVal(_) =>
    case Unary(_, e1) =>
      FoldAgreesWithEval(e1, st, mem);
    case Binary(_, l, r) =>
      FoldAgreesWithEval(l, st, mem);
      FoldAgreesWithEval(r, st, mem);
    case LAnd(l, r) =>
      FoldAgreesWithEval(l, st, mem);
      FoldAgreesWithEval(r, st, mem);
    case LOr(l, r) =>
      FoldAgreesWithEval(l, st, mem);
      FoldAgreesWithEval(r, st, mem);
  }

  /**
   * The converse does not hold: `0 && 1 / 0` folds to 0, because `&&`
   * short-circuits in C, while running it divides by zero, because the IR
   * evaluates both operands.
   */
  lemma FoldShortCircuitsRunDoesNot(st: SymbolTable, mem: map<string, int>)
    requires st.Valid()
    ensures var e := LAnd(Number(0), Binary(Div, Number(1), Number(0)));
            FoldDefined(e, st) && CalcConstExp(e, st) == 0 && Eval(e, st.table, mem) == None
  {
  }
}
