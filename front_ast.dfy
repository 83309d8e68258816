/**
 * The abstract syntax tree of the front end, as a closed set of node kinds.
 * The grammar's precedence layers (Exp, LOrExp, ..., PrimaryExp) that only
 * forward to a single child are not separate nodes: a node of one of those
 * classes whose kind is the forwarding one (kLAndExp, kEqExp, kAddExp,
 * kPrimaryExp, kExp, ...) is the child itself.
 */
module FrontAst {
  import opened Common

  /** UnaryExp ::= '+' UnaryExp | '-' UnaryExp | '!' UnaryExp */
  datatype UnaryOp = Positive | Negative | Not

  /** The binary forms of MulExp, AddExp, RelExp and EqExp. */
  datatype BinaryOp = Mul | Div | Mod | Add | Sub | Lt | Gt | Le | Ge | Eq | Ne

  datatype Exp =
    | Number(number: int)                          // PrimaryExp kNumber
    | LVal(ident: string)                          // PrimaryExp kLVal
    | Unary(uop: UnaryOp, operand: Exp)            // UnaryExp kPositive/kNegative/kNot
    | Binary(op: BinaryOp, lhs: Exp, rhs: Exp)     // MulExp, AddExp, RelExp, EqExp
    | LAnd(lhs: Exp, rhs: Exp)                     // LAndExp kAnd
    | LOr(lhs: Exp, rhs: Exp)                      // LOrExp kOr

  /** ConstExp caches the value the parser folded (`isCalcuated`, `value`). */
  datatype ConstExp = ConstExp(isCalculated: bool, value: int, exp: Exp)

  datatype ConstDef = ConstDef(ident: string, constInitVal: ConstExp)

  /** VarDef kUnInit (`init == None`) or kInit. */
  datatype VarDef = VarDef(ident: string, init: Option<Exp>)

  datatype Decl =
    | ConstDecl(constDefs: seq<ConstDef>)
    | VarDecl(varDefs: seq<VarDef>)

  /** Stmt ::= LVal '=' Exp ';' | 'return' Exp ';' */
  datatype Stmt = Assign(lVal: string, exp: Exp) | Return(exp: Exp)

  datatype BlockItem = DeclItem(decl: Decl) | StmtItem(stmt: Stmt)

  datatype Block = Block(blockItems: seq<BlockItem>)

  datatype FuncDef = FuncDef(funcType: string, ident: string, block: Block)

  datatype CompUnit = CompUnit(funcDef: FuncDef)
}
