/**
 * The first version of the front end (`compiler/src/AST.hpp`): a function
 * whose body is a single `return <number>;`, printed as IR by pure string
 * building.
 */
module OldIr {
  import opened Common
  import opened SymbolTables
  import opened FrontAst
  import opened KoopaIr
  import opened IrEmitter

  datatype OldStmt = OldStmt(number: int)

  datatype OldBlock = OldBlock(stmt: OldStmt)

  datatype OldFuncDef = OldFuncDef(funcType: string, ident: string, block: OldBlock)

  datatype OldCompUnit = OldCompUnit(funcDef: OldFuncDef)

  /** `StmtAST::PrintIR`: one indented `ret` line. */
  function StmtIR(tab: string, s: OldStmt): (r: string)
    ensures |r| == |tab| + 5 + |IntToString(s.number)|
    ensures r[..|tab|] == tab && r[|tab|..|tab| + 4] == "ret " && r[|r| - 1] == '\n'
    ensures r[|tab| + 4..|r| - 1] == IntToString(s.number)
  {
    tab + "ret " + IntToString(s.number) + "\n"
  }

  /** `BlockAST::PrintIR`: the entry label, then the statement one tab deeper. */
  function BlockIR(tab: string, b: OldBlock): (r: string)
    ensures |r| == |tab| + 8 + |StmtIR(tab + "\t", b.stmt)|
    ensures r[..|tab| + 8] == tab + "%entry:\n" && r[|tab| + 8..] == StmtIR(tab + "\t", b.stmt)
  {
    (tab + "%entry:\n") + StmtIR(tab + "\t", b.stmt)
  }

  /** `FuncTypeAST::PrintIR`: only `int` has an IR type. */
  function FuncTypeIR(tab: string, t: string): (r: string)
    ensures r == tab + " i32 " <==> t == "int"
    ensures r != tab + " i32 " <==> r == tab + " error-type "
  {
    if t == "int" then tab + " i32 " else tab + " error-type "
  }

  /** `FuncDefAST::PrintIR`: header, type, `{`, block, `}`. */
  function FuncDefIR(tab: string, f: OldFuncDef): (r: string)
    ensures |r| >= |tab| + 5 && r[..|tab| + 5] == tab + "fun @"
    ensures |r| >= |tab| + 2 && r[|r| - |tab| - 2..] == tab + "}\n"
  {
    (tab + "fun @" + f.ident + "():") + FuncTypeIR(tab, f.funcType) + (tab + "{\n")
    + BlockIR(tab, f.block) + (tab + "}\n")
  }

  /** `CompUnitAST::PrintIR`: its one function. */
  function CompUnitIR(tab: string, u: OldCompUnit): string {
    FuncDefIR(tab, u.funcDef)
  }

  /** Different returned numbers give different `ret` lines. */
  lemma StmtIRInjective(tab: string, s1: OldStmt, s2: OldStmt)
    requires StmtIR(tab, s1) == StmtIR(tab, s2)
    ensures s1 == s2
  {
    var r := StmtIR(tab, s1);
    assert IntToString(s1.number) == r[|tab| + 4..|r| - 1] == IntToString(s2.number);
    IntToStringInjective(s1.number, s2.number);
  }

  /** `int main() { return 0; }` is printed as the textbook first program. */
  lemma MainReturnsZero()
    ensures CompUnitIR("", OldCompUnit(OldFuncDef("int", "main", OldBlock(OldStmt(0)))))
            == "fun @main(): i32 {\n%entry:\n\tret 0\n}\n"
  {
    assert IntToString(0) == "0";
    assert StmtIR("\t", OldStmt(0)) == "\tret 0\n";
    assert BlockIR("", OldBlock(OldStmt(0))) == "%entry:\n\tret 0\n";
    assert FuncTypeIR("", "int") == " i32 ";
    assert "" + "fun @" + "main" + "():" == "fun @main():";
    MainText();
  }

  /** The pieces of the printed `main`, joined. */
  lemma MainText()
    ensures "fun @main():" + " i32 " + ("" + "{\n") + "%entry:\n\tret 0\n" + ("" + "}\n")
            == "fun @main(): i32 {\n%entry:\n\tret 0\n}\n"
  {
    assert "" + "{\n" == "{\n" && "" + "}\n" == "}\n";
    assert "fun @main():" + " i32 " == "fun @main(): i32 ";
    assert "fun @main(): i32 " + "{\n" == "fun @main(): i32 {\n";
    assert "%entry:\n\tret 0\n" + "}\n" == "%entry:\n\tret 0\n}\n";
    assert "fun @main(): i32 {\n" + "%entry:\n\tret 0\n}\n" == "fun @main(): i32 {\n%entry:\n\tret 0\n}\n";
    Assoc3("fun @main(): i32 {\n", "%entry:\n\tret 0\n", "}\n");
  }

  /** The new front end's tree for the same program: one `return` of the literal. */
  function Lift(f: OldFuncDef): FuncDef {
    FuncDef(f.funcType, f.ident, Block([StmtItem(Return(Number(f.block.stmt.number)))]))
  }

  /**
   * The second front end prints this program exactly as the first one did,
   * whatever its symbol table and counter.
   */
  lemma NewFrontEndAgrees(tab: string, f: OldFuncDef, t: map<string, Symbol>, n: nat)
    ensures FuncDefText(tab, Lift(f), t, n) == FuncDefIR(tab, f)
  {
    var k := f.block.stmt.number;
    var items := Lift(f).block.blockItems;
    var i := RetInst(Lit(k));
    assert items[..0] == [];
    assert BlockItemsCode(items, t, n).insts == [] + ([] + [i]);
    assert [] + ([] + [i]) == [i];
    RenderOne(tab + "\t", i);
    Assoc3(tab + "\t", "ret ", IntToString(k));
    assert Line(tab + "\t", i) == StmtIR(tab + "\t", f.block.stmt);
    assert BlockText(tab, Lift(f).block, t, n) == BlockIR(tab, f.block);
    assert FuncTypeText(tab, f.funcType) == FuncTypeIR(tab, f.funcType);
  }
}
