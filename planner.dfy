/**
 * What the two course planners of `task3` (the C file and the C++ file)
 * have in common: the line format `name|credit|prerequisites|grade`, the
 * intern table of course names, the per-course record, the effect of one
 * input line on the tables, the credit sums and the "can take next" test.
 *
 * Characters are held as their integer codes (`int` in the C version,
 * `char` in the C++ one); a line is a buffer ending in a 0 code.
 */
module Planner {

  /** The character codes the parser looks for: the terminator, `|`, `;`, `,` and `0`. */
  const NUL: int := 0
  const BAR: int := 124
  const SEMI: int := 59
  const COMMA: int := 44
  const DIGIT0: int := 48

  // ---------------------------------------------------------------------
  // Sequences
  // ---------------------------------------------------------------------

  /** The position of the first `x` in `s`, or `|s|` when there is none. */
  function IndexOf<T(==)>(s: seq<T>, x: T): (k: nat)
    ensures k <= |s|
    ensures k < |s| <==> x in s
    ensures k < |s| ==> s[k] == x
    ensures forall j :: 0 <= j < k ==> s[j] != x
  {
    IndexFrom(s, x, 0)
  }

  /** The position of the first `x` in `s` at or after `i`, or `|s|` when there is none. */
  function IndexFrom<T(==)>(s: seq<T>, x: T, i: nat): (k: nat)
    requires i <= |s|
    ensures i <= k <= |s|
    ensures k < |s| ==> s[k] == x
    ensures forall j :: i <= j < k ==> s[j] != x
    decreases |s| - i
  {
    if i == |s| then |s| else if s[i] == x then i else IndexFrom(s, x, i + 1)
  }

  /** A position where `x` occurs with no earlier `x` is the first one. */
  lemma IndexOfAt<T>(s: seq<T>, x: T, k: nat)
    requires k <= |s| && (k < |s| ==> s[k] == x)
    requires forall j :: 0 <= j < k ==> s[j] != x
    ensures IndexOf(s, x) == k
  {
  }

  /** The first position in `[i, n)` holding `x`, or `n` when there is none. */
  function Scan(s: seq<int>, x: int, i: nat, n: nat): (r: nat)
    requires i <= n <= |s|
    ensures i <= r <= n && (r < n ==> s[r] == x)
    decreases n - i
  {
    if i == n then n else if s[i] == x then i else Scan(s, x, i + 1, n)
  }

  /** No position before the one `Scan` returns holds `x`. */
  lemma {:induction false} ScanSkips(s: seq<int>, x: int, i: nat, n: nat)
    requires i <= n <= |s|
    ensures forall j :: i <= j < Scan(s, x, i, n) ==> s[j] != x
    decreases n - i
  {
    if i < n && s[i] != x {
      ScanSkips(s, x, i + 1, n);
    }
  }

  /** `Scan` is `IndexOf` on the window `s[i..n]`, counted from `i`. */
  lemma ScanIndexOf(s: seq<int>, x: int, i: nat, n: nat)
    requires i <= n <= |s|
    ensures Scan(s, x, i, n) == i + IndexOf(s[i..n], x)
  {
    var r := Scan(s, x, i, n);
    ScanSkips(s, x, i, n);
    var w := s[i..n];
    assert forall j :: 0 <= j < r - i ==> w[j] == s[i + j];
    if r < n {
      assert w[r - i] == s[r];
    }
    IndexOfAt(w, x, r - i);
  }

  /** The length of a zero-terminated buffer (`GetLen`, `strlen`). */
  function Len(s: seq<int>): nat {
    IndexOf(s, NUL)
  }

  predicate Distinct<T(==)>(s: seq<T>) {
    forall i, j :: 0 <= i < j < |s| ==> s[i] != s[j]
  }

  // ---------------------------------------------------------------------
  // The prerequisite field
  // ---------------------------------------------------------------------

  /** The codes `s[i..j]`, collected one at a time as the copying loops do. */
  function Chars(s: seq<int>, i: nat, j: nat): (w: seq<int>)
    requires i <= j <= |s|
    ensures |w| == j - i
    decreases j - i
  {
    if i == j then [] else Chars(s, i, j - 1) + [s[j - 1]]
  }

  /** Element `t` of the collected codes is `s[i + t]`. */
  lemma {:induction false} CharsAt(s: seq<int>, i: nat, j: nat)
    requires i <= j <= |s|
    ensures forall t :: 0 <= t < j - i ==> Chars(s, i, j)[t] == s[i + t]
    decreases j - i
  {
    if i < j {
      CharsAt(s, i, j - 1);
    }
  }

  /** The collected codes are the slice. */
  lemma CharsSlice(s: seq<int>, i: nat, j: nat)
    requires i <= j <= |s|
    ensures Chars(s, i, j) == s[i..j]
  {
    CharsAt(s, i, j);
  }

  /** Collecting all of `s` gives `s`. */
  lemma CharsAll(s: seq<int>)
    ensures Chars(s, 0, |s|) == s
  {
    CharsAt(s, 0, |s|);
  }

  /** Collecting up to `j` is collecting up to `k`, then from `k` on. */
  lemma CharsCat(s: seq<int>, i: nat, k: nat, j: nat)
    requires i <= k <= j <= |s|
    ensures Chars(s, i, j) == Chars(s, i, k) + Chars(s, k, j)
  {
    CharsAt(s, i, j);
    CharsAt(s, i, k);
    CharsAt(s, k, j);
  }

  /**
   * The pieces of `s[i..n]` between occurrences of `sep`, found by scanning
   * in place; a separator at the very end closes the last piece instead of
   * opening an empty one.
   */
  function Pieces(s: seq<int>, sep: int, i: nat, n: nat): (pieces: seq<seq<int>>)
    requires i <= n <= |s|
    ensures i < n <==> |pieces| > 0
    decreases n - i
  {
    if i == n then []
    else
      var k := Scan(s, sep, i, n);
      [Chars(s, i, k)] + (if k == n then [] else Pieces(s, sep, k + 1, n))
  }

  /** The pieces after a separator at `k`: none when `k` is the end itself. */
  function PiecesAfter(s: seq<int>, sep: int, k: nat, n: nat): seq<seq<int>>
    requires k <= n <= |s|
  {
    if k < n then Pieces(s, sep, k + 1, n) else []
  }

  /** The first piece of `s[i..n]` runs to the first separator `k`, the others follow it. */
  lemma PiecesHead(s: seq<int>, sep: int, i: nat, n: nat, k: nat)
    requires i < n <= |s| && k == Scan(s, sep, i, n)
    ensures Pieces(s, sep, i, n) == [Chars(s, i, k)] + PiecesAfter(s, sep, k, n)
  {
  }

  /** The pieces of the whole of `s`. */
  function Split(s: seq<int>, sep: int): (pieces: seq<seq<int>>)
    ensures |s| > 0 <==> |pieces| > 0
  {
    Pieces(s, sep, 0, |s|)
  }

  /** The pieces glued back together with one separator between neighbours. */
  function Join(pieces: seq<seq<int>>, sep: int): seq<int> {
    if |pieces| == 0 then [] else JoinFrom(pieces, sep, 0)
  }

  /** Pieces `i` onwards, glued. */
  function JoinFrom(pieces: seq<seq<int>>, sep: int, i: nat): seq<int>
    requires i < |pieces|
    decreases |pieces| - i
  {
    if i + 1 == |pieces| then pieces[i] else pieces[i] + [sep] + JoinFrom(pieces, sep, i + 1)
  }

  lemma {:induction false} JoinFromShift(a: seq<int>, ps: seq<seq<int>>, sep: int, i: nat)
    requires i < |ps|
    ensures JoinFrom([a] + ps, sep, i + 1) == JoinFrom(ps, sep, i)
    decreases |ps| - i
  {
    assert ([a] + ps)[i + 1] == ps[i];
    if i + 1 < |ps| {
      JoinFromShift(a, ps, sep, i + 1);
    }
  }

  /** `s` without one trailing separator. */
  function Trim(s: seq<int>, sep: int): seq<int> {
    if |s| > 0 && s[|s| - 1] == sep then s[..|s| - 1] else s
  }

  lemma JoinCons(a: seq<int>, ps: seq<seq<int>>, sep: int)
    requires |ps| > 0
    ensures Join([a] + ps, sep) == a + [sep] + Join(ps, sep)
  {
    JoinFromShift(a, ps, sep, 0);
  }

  /** The first position of `x` in `[i, n)`, found any way, is what `Scan` returns. */
  lemma {:induction false} ScanAt(s: seq<int>, x: int, i: nat, n: nat, r: nat)
    requires i <= r <= n <= |s| && (r < n ==> s[r] == x)
    requires forall j :: i <= j < r ==> s[j] != x
    ensures Scan(s, x, i, n) == r
    decreases n - i
  {
    if i < r {
      ScanAt(s, x, i + 1, n, r);
    }
  }

  /** Where `s[i..n]` ends once a closing separator is dropped. */
  function TrimEnd(s: seq<int>, sep: int, i: nat, n: nat): (m: nat)
    requires i <= n <= |s|
    ensures i <= m <= n
  {
    if i < n && s[n - 1] == sep then n - 1 else n
  }

  /** Gluing the pieces of `s[i..n]` gives back the codes, less a closing separator. */
  lemma {:induction false} PiecesJoin(s: seq<int>, sep: int, i: nat, n: nat)
    requires i <= n <= |s|
    ensures Join(Pieces(s, sep, i, n), sep) == Chars(s, i, TrimEnd(s, sep, i, n))
    decreases n - i
  {
    if i < n {
      var k := Scan(s, sep, i, n);
      if k + 1 < n {
        PiecesJoin(s, sep, k + 1, n);
      }
      PiecesJoinStep(s, sep, i, n, k);
    }
  }

  /** One step of `PiecesJoin`: the first piece, then the rest as `PiecesJoin` gives it. */
  lemma PiecesJoinStep(s: seq<int>, sep: int, i: nat, n: nat, k: nat)
    requires i < n <= |s| && k == Scan(s, sep, i, n)
    requires k + 1 < n ==> Join(Pieces(s, sep, k + 1, n), sep) == Chars(s, k + 1, TrimEnd(s, sep, k + 1, n))
    ensures Join(Pieces(s, sep, i, n), sep) == Chars(s, i, TrimEnd(s, sep, i, n))
  {
    if k + 1 < n {
      PiecesJoinMore(s, sep, i, n, k);
    } else {
      PiecesJoinLast(s, sep, i, n, k);
    }
  }

  /** The last piece: no separator before the end, or one just at its end. */
  lemma PiecesJoinLast(s: seq<int>, sep: int, i: nat, n: nat, k: nat)
    requires i < n <= |s| && k == Scan(s, sep, i, n) && n <= k + 1
    ensures Join(Pieces(s, sep, i, n), sep) == Chars(s, i, TrimEnd(s, sep, i, n))
  {
    PiecesHead(s, sep, i, n, k);
    assert PiecesAfter(s, sep, k, n) == [];
    if k == n {
      ScanSkips(s, sep, i, n);
      assert s[n - 1] != sep;
    }
  }

  /** A piece closed by a separator with more codes after it. */
  lemma PiecesJoinMore(s: seq<int>, sep: int, i: nat, n: nat, k: nat)
    requires i < n <= |s| && k == Scan(s, sep, i, n) && k + 1 < n
    requires Join(Pieces(s, sep, k + 1, n), sep) == Chars(s, k + 1, TrimEnd(s, sep, k + 1, n))
    ensures Join(Pieces(s, sep, i, n), sep) == Chars(s, i, TrimEnd(s, sep, i, n))
  {
    var a := Chars(s, i, k);
    var rest := Pieces(s, sep, k + 1, n);
    PiecesHead(s, sep, i, n, k);
    var m := TrimEnd(s, sep, k + 1, n);
    JoinCons(a, rest, sep);
    CharsCat(s, i, k + 1, m);
    assert Chars(s, i, k + 1) == a + [sep];
  }

  /** `Trim` on collected codes is collecting up to `TrimEnd`. */
  lemma TrimChars(s: seq<int>, sep: int, i: nat, n: nat)
    requires i <= n <= |s|
    ensures Trim(Chars(s, i, n), sep) == Chars(s, i, TrimEnd(s, sep, i, n))
  {
    if i < n && s[n - 1] == sep {
      var a := Chars(s, i, n - 1);
      assert Chars(s, i, n) == a + [sep];
      assert (a + [sep])[..|a|] == a;
    }
  }

  /** Splitting loses nothing but a closing separator. */
  lemma SplitJoin(s: seq<int>, sep: int)
    ensures Join(Split(s, sep), sep) == Trim(s, sep)
  {
    PiecesJoin(s, sep, 0, |s|);
    TrimChars(s, sep, 0, |s|);
    CharsAll(s);
  }

  /**
   * The groups of the prerequisite field `s[i..q]`, found by scanning in
   * place: pieces separated by `;`, each a list of names separated by `,`.
   */
  function FieldGroups(s: seq<int>, i: nat, q: nat): (groups: seq<seq<seq<int>>>)
    requires i <= q <= |s|
    decreases q - i
  {
    if i == q then []
    else
      var ge := Scan(s, SEMI, i, q);
      [Pieces(s, COMMA, i, ge)] + (if ge == q then [] else FieldGroups(s, ge + 1, q))
  }

  /** The groups after a `;` at `ge`: none when `ge` is the end of the field. */
  function GroupsAfter(s: seq<int>, ge: nat, q: nat): seq<seq<seq<int>>>
    requires ge <= q <= |s|
  {
    if ge < q then FieldGroups(s, ge + 1, q) else []
  }

  /** The first group of `s[i..q]` runs to the first `;` at `ge`, the others follow it. */
  lemma GroupsHead(s: seq<int>, i: nat, q: nat, ge: nat)
    requires i < q <= |s| && ge == Scan(s, SEMI, i, q)
    ensures FieldGroups(s, i, q) == [Pieces(s, COMMA, i, ge)] + GroupsAfter(s, ge, q)
  {
  }

  /** The groups of a whole field. */
  function Groups(s: seq<int>): seq<seq<seq<int>>> {
    FieldGroups(s, 0, |s|)
  }

  /** Group `k`, glued with `,`, is piece `k` less a closing `,`. */
  predicate GluesTo(gs: seq<seq<seq<int>>>, ps: seq<seq<int>>) {
    |gs| == |ps| && forall k :: 0 <= k < |gs| ==> Join(gs[k], COMMA) == Trim(ps[k], COMMA)
  }

  lemma GluesToCons(g: seq<seq<int>>, a: seq<int>, gs: seq<seq<seq<int>>>, ps: seq<seq<int>>)
    requires Join(g, COMMA) == Trim(a, COMMA) && GluesTo(gs, ps)
    ensures GluesTo([g] + gs, [a] + ps)
  {
    var gs', ps' := [g] + gs, [a] + ps;
    forall j | 0 <= j < |gs'|
      ensures Join(gs'[j], COMMA) == Trim(ps'[j], COMMA)
    {
      if j > 0 {
        assert gs'[j] == gs[j - 1] && ps'[j] == ps[j - 1];
      }
    }
  }

  /**
   * Each group of `s[i..q]`, glued back with `,`, is the matching
   * `;`-piece of `s[i..q]` less a closing `,`.
   */
  lemma {:induction false} FieldGroupsGlue(s: seq<int>, i: nat, q: nat)
    requires i <= q <= |s|
    ensures GluesTo(FieldGroups(s, i, q), Pieces(s, SEMI, i, q))
    decreases q - i
  {
    if i < q {
      var ge := Scan(s, SEMI, i, q);
      var a := Chars(s, i, ge);
      var g := Pieces(s, COMMA, i, ge);
      GroupsHead(s, i, q, ge);
      PiecesHead(s, SEMI, i, q, ge);
      PiecesJoin(s, COMMA, i, ge);
      TrimChars(s, COMMA, i, ge);
      if ge < q {
        FieldGroupsGlue(s, ge + 1, q);
      }
      GluesToCons(g, a, GroupsAfter(s, ge, q), PiecesAfter(s, SEMI, ge, q));
    }
  }

  /** The groups of a field, glued with `,`, are its `;`-pieces less a closing `,`. */
  lemma GroupsGlue(s: seq<int>)
    ensures GluesTo(Groups(s), Split(s, SEMI))
  {
    FieldGroupsGlue(s, 0, |s|);
  }

  /** No piece holds a value that `s[i..n]` does not. */
  lemma {:induction false} PiecesAvoid(s: seq<int>, sep: int, i: nat, n: nat, x: int)
    requires i <= n <= |s| && forall t :: i <= t < n ==> s[t] != x
    ensures forall j :: 0 <= j < |Pieces(s, sep, i, n)| ==> x !in Pieces(s, sep, i, n)[j]
    decreases n - i
  {
    if i < n {
      var k := Scan(s, sep, i, n);
      CharsAt(s, i, k);
      assert x !in Chars(s, i, k);
      if k < n {
        PiecesAvoid(s, sep, k + 1, n, x);
      }
    }
  }

  /** Every name in every group avoids `x`. */
  predicate NamesAvoid(groups: seq<seq<seq<int>>>, x: int) {
    forall g, j :: 0 <= g < |groups| && 0 <= j < |groups[g]| ==> x !in groups[g][j]
  }

  /** No name in any group holds a value that the field `s[i..q]` does not. */
  lemma {:induction false} FieldGroupsAvoid(s: seq<int>, i: nat, q: nat, x: int)
    requires i <= q <= |s| && forall t :: i <= t < q ==> s[t] != x
    ensures NamesAvoid(FieldGroups(s, i, q), x)
    decreases q - i
  {
    if i < q {
      var ge := Scan(s, SEMI, i, q);
      var names := Pieces(s, COMMA, i, ge);
      PiecesAvoid(s, COMMA, i, ge, x);
      GroupsHead(s, i, q, ge);
      if ge < q {
        FieldGroupsAvoid(s, ge + 1, q, x);
      }
      NamesAvoidCons(names, GroupsAfter(s, ge, q), x);
    }
  }

  lemma NamesAvoidCons(names: seq<seq<int>>, rest: seq<seq<seq<int>>>, x: int)
    requires forall j :: 0 <= j < |names| ==> x !in names[j]
    requires NamesAvoid(rest, x)
    ensures NamesAvoid([names] + rest, x)
  {
    var gs := [names] + rest;
    forall g, j | 0 <= g < |gs| && 0 <= j < |gs[g]|
      ensures x !in gs[g][j]
    {
      if g > 0 {
        assert gs[g] == rest[g - 1];
      }
    }
  }

  // ---------------------------------------------------------------------
  // One input line
  // ---------------------------------------------------------------------

  /**
   * The lines on which `Prework` never reads past the terminator: empty,
   * or a `|` with at least a credit character and one more after it, and a
   * tail that has another `|`, is empty, or ends with `;` (a tail ending in
   * a name or `,` makes the scan step over the terminator).
   */
  predicate WellFormedLine(line: seq<int>) {
    NUL in line &&
    var n := Len(line);
    (n == 0 ||
     var p := Scan(line, BAR, 0, n);
     p + 3 <= n &&
     var q := Scan(line, BAR, p + 3, n);
     (q < n || q == p + 3 || line[n - 1] == SEMI))
  }

  /** Grade letters: `A`..`D` pass with 4..1 points, `F` is 0, anything else -1 (not taken). */
  function GradeOf(c: int): (g: int)
    ensures -1 <= g <= 4
    ensures g == -1 <==> c !in {'A' as int, 'B' as int, 'C' as int, 'D' as int, 'F' as int}
    ensures g > 0 <==> c in {'A' as int, 'B' as int, 'C' as int, 'D' as int}
  {
    if c == 'A' as int then 4
    else if c == 'B' as int then 3
    else if c == 'C' as int then 2
    else if c == 'D' as int then 1
    else if c == 'F' as int then 0
    else -1
  }

  datatype Entry = Entry(name: seq<int>, credit: int, groups: seq<seq<seq<int>>>, grade: int)

  /**
   * The fields of a non-empty line: the name before the first `|`, the
   * credit digit after it, the groups up to the next `|` (or the end) and
   * the grade letter after that.
   */
  function ParseLine(line: seq<int>): (e: Entry)
    requires WellFormedLine(line) && Len(line) > 0
    ensures BAR !in e.name && NUL !in e.name
    ensures -1 <= e.grade <= 4
  {
    var n := Len(line);
    var p := Scan(line, BAR, 0, n);
    var q := Scan(line, BAR, p + 3, n);
    var g := if q < n then q + 1 else q;
    ScanSkips(line, BAR, 0, n);
    assert NUL !in line[..p];
    Fields(line, p, q, g)
  }

  /** The entry whose name ends at `p`, whose groups lie in `[p + 3, q)` and whose grade letter is at `g`. */
  function Fields(line: seq<int>, p: nat, q: nat, g: nat): Entry
    requires p + 3 <= q <= |line| && g < |line|
  {
    Entry(line[..p], line[p + 1] - DIGIT0, FieldGroups(line, p + 3, q), GradeOf(line[g]))
  }

  /** `ParseLine` with the field positions named by the caller. */
  lemma ParseLineAt(line: seq<int>, n: nat, p: nat, q: nat)
    requires WellFormedLine(line) && n == Len(line) > 0
    requires p == Scan(line, BAR, 0, n) && q == Scan(line, BAR, p + 3, n)
    ensures p + 3 <= q <= n < |line|
    ensures ParseLine(line) == Fields(line, p, q, if q < n then q + 1 else q)
  {
  }

  /** No name in any group holds the terminator. */
  lemma ParseLineNames(line: seq<int>)
    requires WellFormedLine(line) && Len(line) > 0
    ensures NamesAvoid(ParseLine(line).groups, NUL)
  {
    var n := Len(line);
    var p := Scan(line, BAR, 0, n);
    var q := Scan(line, BAR, p + 3, n);
    FieldGroupsAvoid(line, p + 3, q, NUL);
  }

  /**
   * The groups read from a line, each glued back with `,`, are the
   * `;`-pieces of its prerequisite field `line[p + 3..q]` (less a closing
   * `,`); gluing those pieces back with `;` gives the field, less a
   * closing `;`.
   */
  lemma ParseLineGroups(line: seq<int>)
    requires WellFormedLine(line) && Len(line) > 0
    ensures var n := Len(line); var p := Scan(line, BAR, 0, n); var q := Scan(line, BAR, p + 3, n);
            p + 3 <= q <= n &&
            GluesTo(ParseLine(line).groups, Pieces(line, SEMI, p + 3, q)) &&
            Join(Pieces(line, SEMI, p + 3, q), SEMI) == Trim(Chars(line, p + 3, q), SEMI)
  {
    var n := Len(line);
    var p := Scan(line, BAR, 0, n);
    var q := Scan(line, BAR, p + 3, n);
    ParseLineAt(line, n, p, q);
    FieldGroupsGlue(line, p + 3, q);
    FieldJoin(line, p + 3, q);
  }

  /** Gluing the `;`-pieces of `line[i..q]` back gives the codes, less a closing `;`. */
  lemma FieldJoin(line: seq<int>, i: nat, q: nat)
    requires i <= q <= |line|
    ensures Join(Pieces(line, SEMI, i, q), SEMI) == Trim(Chars(line, i, q), SEMI)
  {
    PiecesJoin(line, SEMI, i, q);
    TrimChars(line, SEMI, i, q);
  }

  // ---------------------------------------------------------------------
  // The tables
  // ---------------------------------------------------------------------

  /**
   * What the source keeps per course: the credit, the prerequisite groups
   * (slot `g` holds the member indices; its length is the counter kept in
   * slot 0), the number of groups and the grade.
   */
  datatype Course = Course(credit: int, need: map<int, seq<int>>, cnt: int, grade: int)

  /** A course nobody has written to: the zero-initialised record. */
  const Blank: Course := Course(0, map[], 0, 0)

  function NeedAt(need: map<int, seq<int>>, g: int): seq<int> {
    if g in need then need[g] else []
  }

  /** The interned names, one record per name, and the input order of the courses. */
  datatype Plan = Plan(course: seq<seq<int>>, recs: seq<Course>, input: seq<int>)

  /** The intern table holds distinct zero-free names and the input order refers to them. */
  ghost predicate Interned(p: Plan) {
    |p.recs| == |p.course| && Distinct(p.course) &&
    (forall k :: 0 <= k < |p.course| ==> NUL !in p.course[k]) &&
    (forall k :: 0 <= k < |p.input| ==> 0 <= p.input[k] < |p.course|)
  }

  /** Groups are only stored below the group count, and grades are in range. */
  ghost predicate SlotsOk(c: Course) {
    c.cnt >= 0 && -1 <= c.grade <= 4 && forall g :: g in c.need ==> 0 <= g < c.cnt
  }

  ghost predicate PlanOk(p: Plan) {
    Interned(p) && forall k :: 0 <= k < |p.recs| ==> SlotsOk(p.recs[k])
  }

  function Lookup(course: seq<seq<int>>, name: seq<int>): nat {
    IndexOf(course, name)
  }

  /** The table after `Find`: unchanged when the name is there, else the name appended. */
  function Intern(course: seq<seq<int>>, name: seq<int>): seq<seq<int>> {
    if Lookup(course, name) < |course| then course else course + [name]
  }

  /** `Find` on the whole plan: a new name also gets a blank record. */
  function FindPlan(p: Plan, name: seq<int>): (r: (Plan, nat))
    requires |p.recs| == |p.course|
    ensures r.0.course == Intern(p.course, name) && r.1 == Lookup(p.course, name)
    ensures |r.0.recs| == |r.0.course| && r.1 < |r.0.course| && r.0.input == p.input
    ensures r.0.recs == if r.1 < |p.course| then p.recs else p.recs + [Blank]
  {
    var k := Lookup(p.course, name);
    if k < |p.course| then (p, k) else (Plan(p.course + [name], p.recs + [Blank], p.input), k)
  }

  /** After interning, the name is found at the index `Find` returned, and nothing stored moves. */
  lemma InternFinds(course: seq<seq<int>>, name: seq<int>)
    ensures var c := Intern(course, name);
            Lookup(c, name) == Lookup(course, name) && Lookup(c, name) < |c| && c[Lookup(c, name)] == name &&
            course <= c && |c| <= |course| + 1
  {
    if Lookup(course, name) == |course| {
      IndexOfAt(course + [name], name, |course|);
    }
  }

  /** A second `Find` of the same name changes nothing. */
  lemma InternIdempotent(course: seq<seq<int>>, name: seq<int>)
    ensures Intern(Intern(course, name), name) == Intern(course, name)
  {
    InternFinds(course, name);
  }

  /** The table never holds a name twice. */
  lemma InternKeepsDistinct(course: seq<seq<int>>, name: seq<int>)
    requires Distinct(course)
    ensures Distinct(Intern(course, name))
  {
    if Lookup(course, name) == |course| {
      var c := course + [name];
      forall i, j | 0 <= i < j < |c|
        ensures c[i] != c[j]
      {
        if j == |course| {
          assert c[i] == course[i] != name;
        }
      }
    }
  }

  /** A name already in a table keeps its index in any longer table. */
  lemma LookupExtend(c: seq<seq<int>>, d: seq<seq<int>>, name: seq<int>)
    requires c <= d && Lookup(c, name) < |c|
    ensures Lookup(d, name) == Lookup(c, name)
  {
    var k := Lookup(c, name);
    assert d[k] == c[k];
    assert forall j :: 0 <= j < k ==> d[j] == c[j];
    IndexOfAt(d, name, k);
  }

  /** The indices of the names in the table. */
  function Lookups(course: seq<seq<int>>, names: seq<seq<int>>): (ks: seq<nat>)
    ensures |ks| == |names|
    decreases |names|
  {
    if |names| == 0 then [] else [Lookup(course, names[0])] + Lookups(course, names[1..])
  }

  lemma {:induction false} LookupsExtend(c: seq<seq<int>>, d: seq<seq<int>>, names: seq<seq<int>>)
    requires c <= d && forall j :: 0 <= j < |names| ==> Lookup(c, names[j]) < |c|
    ensures Lookups(d, names) == Lookups(c, names)
    decreases |names|
  {
    if |names| > 0 {
      LookupExtend(c, d, names[0]);
      LookupsExtend(c, d, names[1..]);
    }
  }

  function SetCredit(p: Plan, k: nat, c: int): Plan
    requires k < |p.recs|
  {
    p.(recs := p.recs[k := p.recs[k].(credit := c)])
  }

  function SetGrade(p: Plan, k: nat, g: int): Plan
    requires k < |p.recs|
  {
    p.(recs := p.recs[k := p.recs[k].(grade := g)])
  }

  function BumpCnt(p: Plan, k: nat): Plan
    requires k < |p.recs|
  {
    p.(recs := p.recs[k := p.recs[k].(cnt := p.recs[k].cnt + 1)])
  }

  function AppendNeed(p: Plan, k: nat, g: int, m: int): Plan
    requires k < |p.recs|
  {
    var r := p.recs[k];
    p.(recs := p.recs[k := r.(need := r.need[g := NeedAt(r.need, g) + [m]])])
  }

  /** One group: each name is interned and its index appended to group `g` of course `k`. */
  function AddMembers(p: Plan, k: nat, g: int, names: seq<seq<int>>): (r: Plan)
    requires |p.recs| == |p.course| && k < |p.recs|
    ensures |r.recs| == |r.course| && |p.recs| <= |r.recs| && p.course <= r.course && r.input == p.input
    decreases |names|
  {
    if |names| == 0 then p
    else
      var f := FindPlan(p, names[0]);
      InternFinds(p.course, names[0]);
      AddMembers(AppendNeed(f.0, k, g, f.1), k, g, names[1..])
  }

  /** One member: interned, then appended to group `g`, before the rest. */
  lemma AddMembersStep(p: Plan, k: nat, g: int, name: seq<int>, rest: seq<seq<int>>)
    requires |p.recs| == |p.course| && k < |p.recs|
    ensures var f := FindPlan(p, name);
            k < |f.0.recs| &&
            AddMembers(p, k, g, [name] + rest) == AddMembers(AppendNeed(f.0, k, g, f.1), k, g, rest)
  {
    assert ([name] + rest)[1..] == rest;
  }

  /** The first name of the pieces from `i` is the one running to `j`: interned and appended, then the rest. */
  lemma MembersAt(p: Plan, k: nat, g: int, s: seq<int>, i: nat, ge: nat, j: nat)
    requires |p.recs| == |p.course| && k < |p.recs| && i <= j <= ge <= |s|
    requires Pieces(s, COMMA, i, ge) == [Chars(s, i, j)] + PiecesAfter(s, COMMA, j, ge)
    ensures var f := FindPlan(p, Chars(s, i, j));
            k < |f.0.recs| &&
            AddMembers(p, k, g, Pieces(s, COMMA, i, ge)) == AddMembers(AppendNeed(f.0, k, g, f.1), k, g, PiecesAfter(s, COMMA, j, ge))
  {
    AddMembersStep(p, k, g, Chars(s, i, j), PiecesAfter(s, COMMA, j, ge));
  }

  /** All groups, each closed by counting it. */
  function AddGroups(p: Plan, k: nat, groups: seq<seq<seq<int>>>): (r: Plan)
    requires |p.recs| == |p.course| && k < |p.recs|
    ensures |r.recs| == |r.course| && |p.recs| <= |r.recs| && p.course <= r.course && r.input == p.input
    decreases |groups|
  {
    if |groups| == 0 then p
    else AddGroups(BumpCnt(AddMembers(p, k, p.recs[k].cnt, groups[0]), k), k, groups[1..])
  }

  /** One group: its members added and the count bumped, before the rest. */
  lemma AddGroupsStep(p: Plan, k: nat, group: seq<seq<int>>, rest: seq<seq<seq<int>>>)
    requires |p.recs| == |p.course| && k < |p.recs|
    ensures AddGroups(p, k, [group] + rest) == AddGroups(BumpCnt(AddMembers(p, k, p.recs[k].cnt, group), k), k, rest)
  {
    assert ([group] + rest)[1..] == rest;
  }

  /** The first group of the field from `i` ends at `ge`: its members added and the count bumped, then the rest. */
  lemma GroupsAt(p: Plan, k: nat, s: seq<int>, i: nat, q: nat, ge: nat)
    requires |p.recs| == |p.course| && k < |p.recs| && i < q <= |s| && ge == Scan(s, SEMI, i, q)
    ensures AddGroups(p, k, FieldGroups(s, i, q))
              == AddGroups(BumpCnt(AddMembers(p, k, p.recs[k].cnt, Pieces(s, COMMA, i, ge)), k), k, GroupsAfter(s, ge, q))
  {
    GroupsHead(s, i, q, ge);
    AddGroupsStep(p, k, Pieces(s, COMMA, i, ge), GroupsAfter(s, ge, q));
  }

  /** The first steps of a line: the course is interned, appended to the input order and given its credit. */
  function Admit(p: Plan, e: Entry): (r: (Plan, nat))
    requires |p.recs| == |p.course|
    ensures |r.0.recs| == |r.0.course| && r.1 < |r.0.recs|
  {
    var f := FindPlan(p, e.name);
    (SetCredit(f.0.(input := f.0.input + [f.1]), f.1, e.credit), f.1)
  }

  /**
   * `Prework`: an empty line changes nothing; otherwise the course is
   * admitted, its groups added and its grade set.
   */
  function PreworkSpec(p: Plan, line: seq<int>): Plan
    requires |p.recs| == |p.course| && WellFormedLine(line)
  {
    if Len(line) == 0 then p
    else
      var e := ParseLine(line);
      var a := Admit(p, e);
      SetGrade(AddGroups(a.0, a.1, e.groups), a.1, e.grade)
  }

  /** `PreworkSpec` of a non-empty line, step by step. */
  lemma PreworkSpecAt(p: Plan, line: seq<int>, e: Entry)
    requires |p.recs| == |p.course| && WellFormedLine(line) && Len(line) > 0 && e == ParseLine(line)
    ensures var a := Admit(p, e);
            PreworkSpec(p, line) == SetGrade(AddGroups(a.0, a.1, e.groups), a.1, e.grade)
  {
  }

  /** Every member of a group ends up in the table. */
  lemma {:induction false} AddMembersInterns(p: Plan, k: nat, g: int, names: seq<seq<int>>)
    requires |p.recs| == |p.course| && k < |p.recs|
    ensures var r := AddMembers(p, k, g, names);
            forall j :: 0 <= j < |names| ==> Lookup(r.course, names[j]) < |r.course|
    decreases |names|
  {
    if |names| > 0 {
      var f := FindPlan(p, names[0]);
      InternFinds(p.course, names[0]);
      var p1 := AppendNeed(f.0, k, g, f.1);
      var rest := names[1..];
      AddMembersInterns(p1, k, g, rest);
      var r := AddMembers(p1, k, g, rest);
      assert r == AddMembers(p, k, g, names);
      LookupExtend(f.0.course, r.course, names[0]);
      forall j | 0 <= j < |names|
        ensures Lookup(r.course, names[j]) < |r.course|
      {
        if j > 0 {
          assert names[j] == rest[j - 1];
        }
      }
    }
  }

  /** A group leaves every other course's record alone; new names get blank records. */
  lemma {:induction false} AddMembersOthers(p: Plan, k: nat, g: int, names: seq<seq<int>>)
    requires |p.recs| == |p.course| && k < |p.recs|
    ensures var r := AddMembers(p, k, g, names);
            forall j :: 0 <= j < |r.recs| && j != k ==> r.recs[j] == if j < |p.recs| then p.recs[j] else Blank
    decreases |names|
  {
    if |names| > 0 {
      var f := FindPlan(p, names[0]);
      var p1 := AppendNeed(f.0, k, g, f.1);
      AddMembersOthers(p1, k, g, names[1..]);
    }
  }

  /**
   * One group: the members' indices are appended to slot `g` of course
   * `k`, and nothing else about the course changes.
   */
  lemma {:induction false} AddMembersRecord(p: Plan, k: nat, g: int, names: seq<seq<int>>)
    requires |p.recs| == |p.course| && k < |p.recs|
    ensures var r := AddMembers(p, k, g, names);
            r.recs[k] == p.recs[k].(need := if |names| == 0 then p.recs[k].need
                                           else p.recs[k].need[g := NeedAt(p.recs[k].need, g) + Lookups(r.course, names)])
    decreases |names|
  {
    if |names| > 0 {
      var f := FindPlan(p, names[0]);
      InternFinds(p.course, names[0]);
      var p1 := AppendNeed(f.0, k, g, f.1);
      var rest := names[1..];
      AddMembersRecord(p1, k, g, rest);
      var r := AddMembers(p1, k, g, rest);
      assert r == AddMembers(p, k, g, names);
      LookupExtend(f.0.course, r.course, names[0]);
      assert Lookups(r.course, names) == [f.1] + Lookups(r.course, rest);
      var c := p.recs[k];
      assert f.0.recs[k] == c;
      var tail := Lookups(r.course, rest);
      NeedStep(c.need, g, f.1, tail);
    }
  }

  /** Appending `m` and then `tail` to a slot is appending `[m] + tail`. */
  lemma NeedStep(need: map<int, seq<int>>, g: int, m: int, tail: seq<int>)
    ensures var m1 := need[g := NeedAt(need, g) + [m]];
            m1[g := NeedAt(m1, g) + tail] == need[g := NeedAt(need, g) + ([m] + tail)] &&
            (tail == [] ==> m1 == need[g := NeedAt(need, g) + ([m] + tail)])
  {
    assert NeedAt(need, g) + [m] + tail == NeedAt(need, g) + ([m] + tail);
    if tail == [] {
      assert [m] + tail == [m];
    }
  }

  /** A group of zero-free names keeps the table interned. */
  lemma {:induction false} AddMembersInterned(p: Plan, k: nat, g: int, names: seq<seq<int>>)
    requires |p.recs| == |p.course| && k < |p.recs|
    requires Interned(p) && forall j :: 0 <= j < |names| ==> NUL !in names[j]
    ensures Interned(AddMembers(p, k, g, names))
    decreases |names|
  {
    if |names| > 0 {
      var f := FindPlan(p, names[0]);
      InternFinds(p.course, names[0]);
      InternKeepsDistinct(p.course, names[0]);
      var p1 := AppendNeed(f.0, k, g, f.1);
      var rest := names[1..];
      assert Interned(p1);
      assert forall j :: 0 <= j < |rest| ==> NUL !in rest[j] by {
        forall j | 0 <= j < |rest| ensures NUL !in rest[j] {
          assert rest[j] == names[j + 1];
        }
      }
      AddMembersInterned(p1, k, g, rest);
    }
  }

  /** What one counted group does to course `k`. */
  lemma OneGroup(p: Plan, k: nat, names: seq<seq<int>>)
    requires |p.recs| == |p.course| && k < |p.recs|
    ensures var c0 := p.recs[k].cnt;
            var q := AddMembers(p, k, c0, names);
            var r := BumpCnt(q, k);
            r.recs[k].cnt == c0 + 1 && r.recs[k].credit == p.recs[k].credit && r.recs[k].grade == p.recs[k].grade &&
            NeedAt(r.recs[k].need, c0) == NeedAt(p.recs[k].need, c0) + Lookups(q.course, names) &&
            (forall h :: h != c0 ==> NeedAt(r.recs[k].need, h) == NeedAt(p.recs[k].need, h)) &&
            (forall h :: h in r.recs[k].need ==> h in p.recs[k].need || h == c0)
  {
    AddMembersRecord(p, k, p.recs[k].cnt, names);
  }

  /** All groups: course `k` gains one count per group and keeps its credit and grade. */
  lemma {:induction false} AddGroupsRecord(p: Plan, k: nat, groups: seq<seq<seq<int>>>)
    requires |p.recs| == |p.course| && k < |p.recs|
    ensures var r := AddGroups(p, k, groups);
            r.recs[k].cnt == p.recs[k].cnt + |groups| && r.recs[k].credit == p.recs[k].credit &&
            r.recs[k].grade == p.recs[k].grade
    decreases |groups|
  {
    if |groups| > 0 {
      OneGroup(p, k, groups[0]);
      var p1 := BumpCnt(AddMembers(p, k, p.recs[k].cnt, groups[0]), k);
      AddGroupsRecord(p1, k, groups[1..]);
    }
  }

  /** All groups leave every other course's record alone; new names get blank records. */
  lemma {:induction false} AddGroupsOthers(p: Plan, k: nat, groups: seq<seq<seq<int>>>)
    requires |p.recs| == |p.course| && k < |p.recs|
    ensures var r := AddGroups(p, k, groups);
            forall j :: 0 <= j < |r.recs| && j != k ==> r.recs[j] == if j < |p.recs| then p.recs[j] else Blank
    decreases |groups|
  {
    if |groups| > 0 {
      var q := AddMembers(p, k, p.recs[k].cnt, groups[0]);
      AddMembersOthers(p, k, p.recs[k].cnt, groups[0]);
      var p1 := BumpCnt(q, k);
      AddGroupsOthers(p1, k, groups[1..]);
    }
  }

  /** Every name of every group ends up in the table. */
  lemma {:induction false} AddGroupsInterns(p: Plan, k: nat, groups: seq<seq<seq<int>>>)
    requires |p.recs| == |p.course| && k < |p.recs|
    ensures var r := AddGroups(p, k, groups);
            forall g, j :: 0 <= g < |groups| && 0 <= j < |groups[g]| ==> Lookup(r.course, groups[g][j]) < |r.course|
    decreases |groups|
  {
    if |groups| > 0 {
      var q := AddMembers(p, k, p.recs[k].cnt, groups[0]);
      AddMembersInterns(p, k, p.recs[k].cnt, groups[0]);
      var p1 := BumpCnt(q, k);
      var rest := groups[1..];
      AddGroupsInterns(p1, k, rest);
      var r := AddGroups(p1, k, rest);
      assert r == AddGroups(p, k, groups);
      forall g, j | 0 <= g < |groups| && 0 <= j < |groups[g]|
        ensures Lookup(r.course, groups[g][j]) < |r.course|
      {
        if g == 0 {
          LookupExtend(q.course, r.course, groups[0][j]);
        } else {
          assert groups[g] == rest[g - 1];
        }
      }
    }
  }

  /** All groups: slot `c0 + j` of course `k`, where `c0` is its group count, gains the indices of group `j`. */
  lemma {:induction false} AddGroupsSlots(p: Plan, k: nat, c0: int, groups: seq<seq<seq<int>>>)
    requires |p.recs| == |p.course| && k < |p.recs| && c0 == p.recs[k].cnt
    ensures var r := AddGroups(p, k, groups);
            forall j :: 0 <= j < |groups| ==>
              NeedAt(r.recs[k].need, c0 + j) == NeedAt(p.recs[k].need, c0 + j) + Lookups(r.course, groups[j])
    decreases |groups|
  {
    if |groups| > 0 {
      var tail := groups[1..];
      var p1 := BumpCnt(AddMembers(p, k, c0, groups[0]), k);
      var r := AddGroups(p1, k, tail);
      OneGroupSlot(p, k, c0, groups[0], r.course);
      AddGroupsSlots(p1, k, c0 + 1, tail);
      AddGroupsOtherSlots(p1, k, c0 + 1, tail);
      SlotsShift(r.recs[k].need, p1.recs[k].need, p.recs[k].need, c0, groups, tail, r.course);
    }
  }

  /** One counted group, seen from its slot: the slot gains the group's indices in any later table. */
  lemma OneGroupSlot(p: Plan, k: nat, c0: int, names: seq<seq<int>>, d: seq<seq<int>>)
    requires |p.recs| == |p.course| && k < |p.recs| && c0 == p.recs[k].cnt
    requires AddMembers(p, k, c0, names).course <= d
    ensures var p1 := BumpCnt(AddMembers(p, k, c0, names), k);
            p1.recs[k].cnt == c0 + 1 &&
            NeedAt(p1.recs[k].need, c0) == NeedAt(p.recs[k].need, c0) + Lookups(d, names) &&
            forall h :: h != c0 ==> NeedAt(p1.recs[k].need, h) == NeedAt(p.recs[k].need, h)
  {
    var q := AddMembers(p, k, c0, names);
    OneGroup(p, k, names);
    AddMembersInterns(p, k, c0, names);
    LookupsExtend(q.course, d, names);
  }

  /** One step of `AddGroupsSlots`, stated on the three slot maps alone. */
  lemma SlotsShift(rn: map<int, seq<int>>, p1n: map<int, seq<int>>, pn: map<int, seq<int>>, c0: int,
                   groups: seq<seq<seq<int>>>, tail: seq<seq<seq<int>>>, course: seq<seq<int>>)
    requires |groups| > 0 && tail == groups[1..]
    requires NeedAt(p1n, c0) == NeedAt(pn, c0) + Lookups(course, groups[0])
    requires forall h :: h != c0 ==> NeedAt(p1n, h) == NeedAt(pn, h)
    requires forall j :: 0 <= j < |tail| ==>
               NeedAt(rn, c0 + 1 + j) == NeedAt(p1n, c0 + 1 + j) + Lookups(course, tail[j])
    requires forall h :: h < c0 + 1 || h >= c0 + 1 + |tail| ==> NeedAt(rn, h) == NeedAt(p1n, h)
    ensures forall j :: 0 <= j < |groups| ==> NeedAt(rn, c0 + j) == NeedAt(pn, c0 + j) + Lookups(course, groups[j])
  {
    forall j | 0 <= j < |groups|
      ensures NeedAt(rn, c0 + j) == NeedAt(pn, c0 + j) + Lookups(course, groups[j])
    {
      if j > 0 {
        assert c0 + j == c0 + 1 + (j - 1);
        assert groups[j] == tail[j - 1];
      }
    }
  }

  /** All groups: every slot outside the new ones keeps its contents, and no other slot appears. */
  lemma {:induction false} AddGroupsOtherSlots(p: Plan, k: nat, c0: int, groups: seq<seq<seq<int>>>)
    requires |p.recs| == |p.course| && k < |p.recs| && c0 == p.recs[k].cnt
    ensures var r := AddGroups(p, k, groups);
            forall h :: h < c0 || h >= c0 + |groups| ==> NeedAt(r.recs[k].need, h) == NeedAt(p.recs[k].need, h)
    ensures var r := AddGroups(p, k, groups);
            forall h :: h in r.recs[k].need ==> h in p.recs[k].need || c0 <= h < c0 + |groups|
    decreases |groups|
  {
    if |groups| > 0 {
      var q := AddMembers(p, k, c0, groups[0]);
      OneGroup(p, k, groups[0]);
      var p1 := BumpCnt(q, k);
      AddGroupsOtherSlots(p1, k, c0 + 1, groups[1..]);
    }
  }

  /** Groups of zero-free names keep the table interned. */
  lemma {:induction false} AddGroupsInterned(p: Plan, k: nat, groups: seq<seq<seq<int>>>)
    requires |p.recs| == |p.course| && k < |p.recs|
    requires Interned(p) && NamesAvoid(groups, NUL)
    ensures Interned(AddGroups(p, k, groups))
    decreases |groups|
  {
    if |groups| > 0 {
      var q := AddMembers(p, k, p.recs[k].cnt, groups[0]);
      AddMembersInterned(p, k, p.recs[k].cnt, groups[0]);
      var p1 := BumpCnt(q, k);
      assert Interned(p1);
      var rest := groups[1..];
      assert NamesAvoid(rest, NUL) by {
        forall g, j | 0 <= g < |rest| && 0 <= j < |rest[g]| ensures NUL !in rest[g][j] {
          assert rest[g] == groups[g + 1];
        }
      }
      AddGroupsInterned(p1, k, rest);
    }
  }

  /**
   * Admitting a course: its name is interned at the index `Find` gave, that
   * index is appended to the input order, the record holds the credit, its
   * old grade and group count and no group at or above that count, and every
   * other record is unchanged.
   */
  lemma AdmitEffect(p: Plan, e: Entry)
    requires PlanOk(p)
    ensures var a, idx := Admit(p, e).0, Admit(p, e).1;
            var c0 := if idx < |p.recs| then p.recs[idx].cnt else 0;
            idx == Lookup(p.course, e.name) && a.input == p.input + [idx] &&
            a.course == Intern(p.course, e.name) && a.course[idx] == e.name &&
            a.recs[idx].credit == e.credit && a.recs[idx].cnt == c0 &&
            a.recs[idx].grade == (if idx < |p.recs| then p.recs[idx].grade else 0) &&
            SlotsOk(a.recs[idx]) &&
            (forall j :: 0 <= j < |a.recs| && j != idx ==> a.recs[j] == if j < |p.recs| then p.recs[j] else Blank)
  {
    InternFinds(p.course, e.name);
    var idx := Lookup(p.course, e.name);
    if idx < |p.recs| {
      assert SlotsOk(p.recs[idx]);
    }
  }

  /**
   * A non-empty line is appended to the input order under the index `Find`
   * gave its name, and that name is in the table there.
   */
  lemma PreworkTables(p: Plan, line: seq<int>)
    requires PlanOk(p) && WellFormedLine(line) && Len(line) > 0
    ensures var e, r := ParseLine(line), PreworkSpec(p, line);
            var idx := Lookup(p.course, e.name);
            r.input == p.input + [idx] && p.course <= r.course && idx < |r.course| && r.course[idx] == e.name
  {
    var e := ParseLine(line);
    AdmitEffect(p, e);
    InternFinds(p.course, e.name);
  }

  /**
   * After a non-empty line the course holds the line's credit and grade and
   * one more group per `;`-group, each holding the indices of its names.
   */
  lemma PreworkRecord(p: Plan, line: seq<int>)
    requires PlanOk(p) && WellFormedLine(line) && Len(line) > 0
    ensures var e, r := ParseLine(line), PreworkSpec(p, line);
            var idx := Lookup(p.course, e.name);
            var c0 := if idx < |p.recs| then p.recs[idx].cnt else 0;
            r.recs[idx].credit == e.credit && r.recs[idx].grade == e.grade &&
            r.recs[idx].cnt == c0 + |e.groups| && GroupsStored(r.recs[idx].need, c0, r.course, e.groups)
  {
    var e := ParseLine(line);
    var a, idx := Admit(p, e).0, Admit(p, e).1;
    AdmitEffect(p, e);
    var c0 := if idx < |p.recs| then p.recs[idx].cnt else 0;
    AddGroupsRecord(a, idx, e.groups);
    AddGroupsSlots(a, idx, c0, e.groups);
    var r := AddGroups(a, idx, e.groups);
    var fin := PreworkSpec(p, line);
    assert fin == SetGrade(r, idx, e.grade);
    assert fin.recs[idx].need == r.recs[idx].need && fin.course == r.course;
    forall j | 0 <= j < |e.groups|
      ensures NeedAt(fin.recs[idx].need, c0 + j) == Lookups(fin.course, e.groups[j])
    {
      assert c0 + j !in a.recs[idx].need;
    }
    assert GroupsStored(fin.recs[idx].need, c0, fin.course, e.groups);
  }

  /** Slot `c0 + j` holds the table indices of the names of group `j`. */
  ghost predicate GroupsStored(need: map<int, seq<int>>, c0: int, course: seq<seq<int>>, groups: seq<seq<seq<int>>>) {
    forall j :: 0 <= j < |groups| ==> NeedAt(need, c0 + j) == Lookups(course, groups[j])
  }

  /** A line leaves every other course's record alone; new prerequisite names get blank ones. */
  lemma PreworkOthers(p: Plan, line: seq<int>)
    requires PlanOk(p) && WellFormedLine(line) && Len(line) > 0
    ensures var e, r := ParseLine(line), PreworkSpec(p, line);
            var idx := Lookup(p.course, e.name);
            forall j :: 0 <= j < |r.recs| && j != idx ==> r.recs[j] == if j < |p.recs| then p.recs[j] else Blank
  {
    var e := ParseLine(line);
    var a := Admit(p, e);
    AdmitEffect(p, e);
    AddGroupsOthers(a.0, a.1, e.groups);
  }

  /** Every line keeps the tables sound: distinct names, groups below the count, grades in range. */
  lemma PreworkKeepsOk(p: Plan, line: seq<int>)
    requires PlanOk(p) && WellFormedLine(line)
    ensures PlanOk(PreworkSpec(p, line))
  {
    if Len(line) > 0 {
      var e := ParseLine(line);
      var a := Admit(p, e);
      AdmitEffect(p, e);
      InternKeepsDistinct(p.course, e.name);
      ParseLineNames(line);
      AddGroupsInterned(a.0, a.1, e.groups);
      AddGroupsRecord(a.0, a.1, e.groups);
      AddGroupsOtherSlots(a.0, a.1, a.0.recs[a.1].cnt, e.groups);
      AddGroupsOthers(a.0, a.1, e.groups);
      var r := PreworkSpec(p, line);
      forall j | 0 <= j < |r.recs|
        ensures SlotsOk(r.recs[j])
      {
        if j != a.1 && j < |p.recs| {
          assert SlotsOk(p.recs[j]);
        }
      }
    }
  }

  // ---------------------------------------------------------------------
  // Credit sums
  // ---------------------------------------------------------------------

  /** Which courses a sum counts: taken (`Hours Attempted`), not taken, passed (`Hours Completed`), not passed (`Credits Remaining`). */
  datatype Filter = Graded | Ungraded | Passed | NotPassed

  predicate Keeps(f: Filter, grade: int) {
    match f
    case Graded => grade != -1
    case Ungraded => grade == -1
    case Passed => grade > 0
    case NotPassed => grade <= 0
  }

  /** The credits of the first `n` courses that the filter keeps. */
  function CreditSum(recs: seq<Course>, n: nat, f: Filter): int
    requires n <= |recs|
    decreases n
  {
    if n == 0 then 0
    else CreditSum(recs, n - 1, f) + (if Keeps(f, recs[n - 1].grade) then recs[n - 1].credit else 0)
  }

  /** Grade points weighted by credit over the taken courses among the first `n`. */
  function GradePoints(recs: seq<Course>, n: nat): int
    requires n <= |recs|
    decreases n
  {
    if n == 0 then 0
    else GradePoints(recs, n - 1) + (if recs[n - 1].grade != -1 then recs[n - 1].grade * recs[n - 1].credit else 0)
  }

  /** Attempted plus never-taken equals completed plus remaining: both are all the credits. */
  lemma {:induction false} CreditBalance(recs: seq<Course>, n: nat)
    requires n <= |recs|
    ensures CreditSum(recs, n, Graded) + CreditSum(recs, n, Ungraded)
            == CreditSum(recs, n, Passed) + CreditSum(recs, n, NotPassed)
    decreases n
  {
    if n > 0 {
      CreditBalance(recs, n - 1);
    }
  }

  /** With non-negative credits, completed hours never exceed attempted hours. */
  lemma {:induction false} CompletedWithinAttempted(recs: seq<Course>, n: nat)
    requires n <= |recs| && forall k :: 0 <= k < n ==> recs[k].credit >= 0
    ensures 0 <= CreditSum(recs, n, Passed) <= CreditSum(recs, n, Graded)
    decreases n
  {
    if n > 0 {
      CompletedWithinAttempted(recs, n - 1);
    }
  }

  lemma ScaleBound(g: int, c: int)
    requires 0 <= g <= 4 && c >= 0
    ensures 0 <= g * c <= 4 * c
  {
    assert (4 - g) * c >= 0;
  }

  /** With non-negative credits and grades in range the grade points lie between 0 and 4 per credit. */
  lemma {:induction false} GradePointsBounds(recs: seq<Course>, n: nat)
    requires n <= |recs| && forall k :: 0 <= k < n ==> recs[k].credit >= 0 && -1 <= recs[k].grade <= 4
    ensures 0 <= GradePoints(recs, n) <= 4 * CreditSum(recs, n, Graded)
    decreases n
  {
    if n > 0 {
      GradePointsBounds(recs, n - 1);
      var c := recs[n - 1];
      if c.grade != -1 {
        ScaleBound(c.grade, c.credit);
      }
    }
  }

  /** With non-negative credits nothing remains exactly when every unpassed course is worth no credit. */
  lemma {:induction false} RemainingZero(recs: seq<Course>, n: nat)
    requires n <= |recs| && forall k :: 0 <= k < n ==> recs[k].credit >= 0
    ensures CreditSum(recs, n, NotPassed) >= 0
    ensures CreditSum(recs, n, NotPassed) == 0 <==> forall k :: 0 <= k < n && recs[k].grade <= 0 ==> recs[k].credit == 0
    decreases n
  {
    if n > 0 {
      RemainingZero(recs, n - 1);
    }
  }

  // ---------------------------------------------------------------------
  // Courses to take next
  // ---------------------------------------------------------------------

  /** The grade of course `m`; an index nobody wrote reads as the zero of the global table. */
  function GradeAt(recs: seq<Course>, m: int): int {
    if 0 <= m < |recs| then recs[m].grade else 0
  }

  /** Every member of the group has been passed. */
  predicate GroupDone(recs: seq<Course>, members: seq<int>) {
    forall j :: 0 <= j < |members| ==> GradeAt(recs, members[j]) > 0
  }

  /** `NeedToLearn`: not passed yet, and no prerequisites or some group all passed. */
  predicate CanTake(recs: seq<Course>, k: nat)
    requires k < |recs|
  {
    recs[k].grade <= 0 &&
    (recs[k].cnt == 0 || exists g :: 0 <= g < recs[k].cnt && GroupDone(recs, NeedAt(recs[k].need, g)))
  }

  /** Passing some other course never withdraws a suggestion. */
  lemma PassingKeepsOptions(recs: seq<Course>, k: nat, j: nat, x: int)
    requires k < |recs| && j < |recs| && j != k && x > 0 && CanTake(recs, k)
    ensures CanTake(recs[j := recs[j].(grade := x)], k)
  {
    var recs' := recs[j := recs[j].(grade := x)];
    assert recs'[k] == recs[k];
    if recs[k].cnt != 0 {
      var g :| 0 <= g < recs[k].cnt && GroupDone(recs, NeedAt(recs[k].need, g));
      var ms := NeedAt(recs[k].need, g);
      assert forall i :: 0 <= i < |ms| ==> GradeAt(recs', ms[i]) > 0 by {
        forall i | 0 <= i < |ms| ensures GradeAt(recs', ms[i]) > 0 {
          assert GradeAt(recs, ms[i]) > 0;
        }
      }
      assert GroupDone(recs', NeedAt(recs'[k].need, g));
    }
  }

  // ---------------------------------------------------------------------
  // Scanning loops shared by both versions
  // ---------------------------------------------------------------------

  /** `GetLen` (and `strlen` in the C++ version): the number of codes before the terminator. */
  method GetLen(s: seq<int>) returns (len: nat)
    requires NUL in s
    ensures len == Len(s)
  {
    len := 0;
    while s[len] != NUL
      invariant len <= Len(s)
      decreases Len(s) - len
    {
      len := len + 1;
    }
  }

  /** `comp`: 1 (true) exactly when the two zero-terminated strings are equal. */
  method Comp(s1: seq<int>, s2: seq<int>) returns (same: bool)
    requires NUL in s1 && NUL in s2
    ensures same <==> s1[..Len(s1)] == s2[..Len(s2)]
  {
    var len1 := GetLen(s1);
    var len2 := GetLen(s2);
    if len1 != len2 {
      return false;
    }
    var i := 0;
    while i < len1
      invariant 0 <= i <= len1
      invariant forall j :: 0 <= j < i ==> s1[j] == s2[j]
    {
      if s1[i] != s2[i] {
        assert s1[..len1][i] != s2[..len2][i];
        return false;
      }
      i := i + 1;
    }
    assert s1[..len1] == s2[..len2];
    return true;
  }

  /** A code that ends a prerequisite name. */
  predicate IsStop(c: int) {
    c == NUL || c == COMMA || c == SEMI || c == BAR
  }

  /** The innermost loop of `Prework`: a name runs to the next `,`, `;`, `|` or the terminator. */
  method ReadName(line: seq<int>, i: nat) returns (name: seq<int>, j: nat)
    requires NUL in line && i <= Len(line)
    ensures i <= j <= Len(line) && name == Chars(line, i, j)
    ensures IsStop(line[j]) && forall k :: i <= k < j ==> !IsStop(line[k])
  {
    name := [];
    j := i;
    while line[j] != NUL && line[j] != COMMA && line[j] != SEMI && line[j] != BAR
      invariant i <= j <= Len(line) && name == Chars(line, i, j)
      invariant forall k :: i <= k < j ==> !IsStop(line[k])
      decreases Len(line) - j
    {
      name := name + [line[j]];
      j := j + 1;
    }
  }

  /** The first loop of `Prework`: the course name is everything before the first `|`. */
  method ReadTitle(line: seq<int>) returns (name: seq<int>, i: nat)
    requires NUL in line && Scan(line, BAR, 0, Len(line)) < Len(line)
    ensures i == Scan(line, BAR, 0, Len(line)) && name == line[..i]
  {
    ghost var p := Scan(line, BAR, 0, Len(line));
    ScanSkips(line, BAR, 0, Len(line));
    name := [];
    i := 0;
    while line[i] != BAR
      invariant i <= p && name == line[..i]
      decreases p - i
    {
      name := name + [line[i]];
      i := i + 1;
    }
  }

  /**
   * The prerequisite field of a well-formed line runs from `i0` to `q`:
   * no `|` or terminator inside, one of them at `q`, and a `;` just before
   * a terminator that closes a non-empty field.
   */
  ghost predicate PrereqField(line: seq<int>, i0: nat, q: nat) {
    i0 <= q <= Len(line) < |line| &&
    (forall k :: i0 <= k < q ==> line[k] != BAR && line[k] != NUL) &&
    (line[q] == BAR || line[q] == NUL) &&
    (line[q] == BAR || i0 == q || line[q - 1] == SEMI)
  }

  /** One group from `i0` to `ge`: no `;`, `|` or terminator inside, and a `;` or `|` at `ge`. */
  ghost predicate GroupField(line: seq<int>, i0: nat, ge: nat) {
    i0 <= ge < |line| &&
    (forall k :: i0 <= k < ge ==> line[k] != BAR && line[k] != NUL && line[k] != SEMI) &&
    (line[ge] == SEMI || line[ge] == BAR)
  }

  /**
   * Where the fields of a non-empty well-formed line lie: the first `|`
   * comes before the terminator, and the prerequisite field ends at the
   * second `|` or at the terminator.
   */
  lemma LineFields(line: seq<int>)
    requires WellFormedLine(line) && Len(line) > 0
    ensures var n := Len(line); var p := Scan(line, BAR, 0, n); var q := Scan(line, BAR, p + 3, n);
            p < n && PrereqField(line, p + 3, q) && (q < n <==> line[q] == BAR)
  {
    var n := Len(line);
    var p := Scan(line, BAR, 0, n);
    ScanSkips(line, BAR, p + 3, n);
  }

  /** The first group of a field ends at the first `;` (then the rest is a field again) or at its `|`. */
  lemma FirstGroup(line: seq<int>, i: nat, q: nat, ge: nat)
    requires PrereqField(line, i, q) && i < q && ge == Scan(line, SEMI, i, q)
    ensures GroupField(line, i, ge)
    ensures ge < q ==> line[ge] == SEMI && PrereqField(line, ge + 1, q)
    ensures ge == q ==> line[ge] == BAR
  {
    ScanSkips(line, SEMI, i, q);
  }

  /**
   * One step of the member loop: the name `ReadName` reads from `i` heads the
   * group's remaining names, and either the group ends at `j` or a `,`
   * there opens the next name.
   */
  lemma NameStep(line: seq<int>, i: nat, ge: nat, j: nat)
    requires GroupField(line, i, ge) && line[i] != NUL && line[i] != SEMI && line[i] != BAR
    requires i <= j < |line| && IsStop(line[j]) && forall k :: i <= k < j ==> !IsStop(line[k])
    ensures j <= ge && Pieces(line, COMMA, i, ge) == [Chars(line, i, j)] + PiecesAfter(line, COMMA, j, ge)
    ensures j < ge ==> line[j] == COMMA && GroupField(line, j + 1, ge)
    ensures j == ge <==> line[j] == SEMI || line[j] == BAR
  {
    assert IsStop(line[ge]);
    ScanAt(line, COMMA, i, ge, j);
  }

  /** A name without the terminator, terminated: its length is the name's. */
  lemma Terminated(name: seq<int>)
    requires NUL !in name
    ensures NUL in name + [NUL] && Len(name + [NUL]) == |name| && (name + [NUL])[..|name|] == name
  {
    IndexOfAt(name + [NUL], NUL, |name|);
  }

  /** Stored names are free of the terminator. */
  predicate Clean(course: seq<seq<int>>) {
    forall k :: 0 <= k < |course| ==> NUL !in course[k]
  }

  lemma InternClean(course: seq<seq<int>>, name: seq<int>)
    requires Clean(course) && NUL !in name
    ensures Clean(Intern(course, name))
  {
  }

  /** No position before the terminator holds it. */
  lemma BeforeEnd(line: seq<int>, i: nat, j: nat)
    requires NUL in line && i <= j <= Len(line)
    ensures NUL !in Chars(line, i, j)
  {
    CharsAt(line, i, j);
    assert forall k :: i <= k < j ==> line[k] != NUL;
  }

  /** A group inside a prerequisite field ends before the line's terminator. */
  lemma GroupBeforeEnd(line: seq<int>, i: nat, ge: nat, q: nat)
    requires PrereqField(line, i, q) && GroupField(line, i, ge) && ge <= q
    ensures NUL in line && ge < Len(line)
  {
    assert line[Len(line)] == NUL;
  }

  /** The grade letter as points: `A`..`D` are 4..1, `F` is 0, anything else -1. */
  method ReadGrade(c: int) returns (g: int)
    ensures g == GradeOf(c)
  {
    g := -1;
    if c == 'A' as int {
      g := 4;
    } else if c == 'B' as int {
      g := 3;
    } else if c == 'C' as int {
      g := 2;
    } else if c == 'D' as int {
      g := 1;
    } else if c == 'F' as int {
      g := 0;
    }
  }
}
