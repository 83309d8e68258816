/**
 * The front end's symbol table: one flat map from identifier to symbol.
 * A name is either a constant (with its folded value) or a variable.
 * Redeclaring a name reports a diagnostic and keeps the first entry.
 */
module SymbolTables {
  import opened Common

  datatype SymbolType = KConst | KVar

  /** `Symbol`: its kind and the value stored in the `const_val`/`var_val` union. */
  datatype Symbol = Symbol(kind: SymbolType, val: int)

  class SymbolTable {
    var table: map<string, Symbol>

    /** Every stored value fits a C `int`. */
    ghost predicate Valid()
      reads this
    {
      forall name :: name in table ==> IsI32(table[name].val)
    }

    constructor ()
      ensures Valid() && table == map[]
    {
      table := map[];
    }

    /** Declares a constant; a name that already exists keeps its entry. */
    method AddConstSymbol(name: string, constVal: int)
      requires Valid() && IsI32(constVal)
      modifies this
      ensures Valid()
      ensures name in old(table) ==> table == old(table)
      ensures name !in old(table) ==> table == old(table)[name := Symbol(KConst, constVal)]
      ensures table == Declare(old(table), name, Symbol(KConst, constVal))
    {
      if name in table {
        return;
      }
      table := table[name := Symbol(KConst, constVal)];
    }

    /** Declares a variable (stored value 0); a name that already exists keeps its entry. */
    method AddVarSymbol(name: string)
      requires Valid()
      modifies this
      ensures Valid()
      ensures name in old(table) ==> table == old(table)
      ensures name !in old(table) ==> table == old(table)[name := Symbol(KVar, 0)]
      ensures table == Declare(old(table), name, Symbol(KVar, 0))
    {
      if name in table {
        return;
      }
      table := table[name := Symbol(KVar, 0)];
    }

    function HasSymbol(name: string): (b: bool)
      reads this
      ensures b <==> name in table
    {
      name in table
    }

    /** The kind of `name`; a missing name reads as a variable. */
    function GetSymbolType(name: string): (t: SymbolType)
      reads this
      ensures t == KConst <==> name in table && table[name].kind == KConst
    {
      if name !in table then KVar else table[name].kind
    }

    /** The value of a constant; 0 for a missing name or a variable. */
    function GetConstSymbolValue(name: string): (v: int)
      reads this
      ensures name in table && table[name].kind == KConst ==> v == table[name].val
      ensures v != 0 ==> name in table && table[name].kind == KConst
    {
      if name !in table then 0
      else if table[name].kind != KConst then 0
      else table[name].val
    }

    /** The value stored for a variable; 0 for a missing name or a constant. */
    function GetVarSymbolValue(name: string): (v: int)
      reads this
      ensures name in table && table[name].kind == KVar ==> v == table[name].val
      ensures v != 0 ==> name in table && table[name].kind == KVar
    {
      if name !in table then 0
      else if table[name].kind != KVar then 0
      else table[name].val
    }
  }

  /** One call of AddConstSymbol/AddVarSymbol, on the map it updates. */
  function Declare(t: map<string, Symbol>, name: string, s: Symbol): map<string, Symbol> {
    if name in t then t else t[name := s]
  }

  /** A sequence of declarations, applied in order. */
  function DeclareAll(t: map<string, Symbol>, decls: seq<(string, Symbol)>): map<string, Symbol>
    decreases |decls|
  {
    if decls == [] then t else DeclareAll(Declare(t, decls[0].0, decls[0].1), decls[1..])
  }

  /** Declaring never removes or changes an existing entry. */
  lemma {:induction false} DeclareAllKeeps(t: map<string, Symbol>, decls: seq<(string, Symbol)>, name: string)
    requires name in t
    ensures name in DeclareAll(t, decls) && DeclareAll(t, decls)[name] == t[name]
    decreases |decls|
  {
    if decls != [] {
      DeclareAllKeeps(Declare(t, decls[0].0, decls[0].1), decls[1..], name);
    }
  }

  /**
   * First declaration wins: after any sequence of declarations, a fresh name
   * is bound to the symbol of its first declaration, whatever follows.
   */
  lemma {:induction false} FirstDeclarationWins(t: map<string, Symbol>, decls: seq<(string, Symbol)>, i: nat)
    requires i < |decls| && decls[i].0 !in t
    requires forall j :: 0 <= j < i ==> decls[j].0 != decls[i].0
    ensures decls[i].0 in DeclareAll(t, decls) && DeclareAll(t, decls)[decls[i].0] == decls[i].1
    decreases |decls|
  {
    var t1 := Declare(t, decls[0].0, decls[0].1);
    if i == 0 {
      DeclareAllKeeps(t1, decls[1..], decls[0].0);
    } else {
      assert decls[1..][i - 1] == decls[i];
      FirstDeclarationWins(t1, decls[1..], i - 1);
    }
  }
}
