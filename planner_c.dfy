/**
 * The planner of `task3.c`: zero-initialised global tables indexed by the
 * interned course number (`course`, `credit`, `need`, `cnt`, `grade`,
 * `course_input`, `credit_remaining`), filled line by line by `Prework`
 * and read by the summing loops and `NeedToLearn`.
 *
 * The global arrays are the fields of one `Tables` object; an array that
 * nobody wrote reads as zero, so each is a map read through `At`. The
 * object is proved against the plan of the `Planner` module through
 * `View`, which reads the parallel arrays as one record per course.
 */
module PlannerC {
  import opened Common
  import opened DecimalIo
  import opened Planner

  /** A zero-initialised `int` array cell. */
  function At(m: map<int, int>, k: int): int {
    if k in m then m[k] else 0
  }

  /** Row `k` of `need`: the groups of course `k`, none when nobody wrote them. */
  function RowAt(need: map<int, map<int, seq<int>>>, k: int): map<int, seq<int>> {
    if k in need then need[k] else map[]
  }

  /** The parallel arrays read as one record per course, for the first `n` courses. */
  function Recs(credit: map<int, int>, need: map<int, map<int, seq<int>>>, cnt: map<int, int>,
                grade: map<int, int>, n: nat): (recs: seq<Course>)
    ensures |recs| == n
  {
    seq(n, k => Course(At(credit, k), RowAt(need, k), At(cnt, k), At(grade, k)))
  }

  /** The tables as a plan: the interned names, one record per name and the input order. */
  function ViewOf(course: seq<seq<int>>, credit: map<int, int>, need: map<int, map<int, seq<int>>>,
                  cnt: map<int, int>, grade: map<int, int>, input: seq<int>): (p: Plan)
    ensures |p.recs| == |p.course|
  {
    Plan(course, Recs(credit, need, cnt, grade, |course|), input)
  }

  /** Every index an array holds is below `n`. */
  predicate Below<V>(m: map<int, V>, n: int) {
    forall k :: k in m ==> 0 <= k < n
  }

  /** A new course number reads as a blank record while nothing was written at it. */
  lemma ViewGrow(course: seq<seq<int>>, credit: map<int, int>, need: map<int, map<int, seq<int>>>,
                 cnt: map<int, int>, grade: map<int, int>, input: seq<int>, name: seq<int>)
    requires var n := |course|; Below(credit, n) && Below(need, n) && Below(cnt, n) && Below(grade, n)
    ensures var p := ViewOf(course, credit, need, cnt, grade, input);
            ViewOf(course + [name], credit, need, cnt, grade, input) == Plan(p.course + [name], p.recs + [Blank], p.input)
  {
    var n := |course|;
    assert n !in credit && n !in need && n !in cnt && n !in grade;
    assert Recs(credit, need, cnt, grade, n + 1) == Recs(credit, need, cnt, grade, n) + [Blank];
  }

  /** Writing `credit[k]` is `SetCredit`. */
  lemma ViewCredit(course: seq<seq<int>>, credit: map<int, int>, need: map<int, map<int, seq<int>>>,
                   cnt: map<int, int>, grade: map<int, int>, input: seq<int>, k: nat, c: int)
    requires k < |course|
    ensures ViewOf(course, credit[k := c], need, cnt, grade, input) == SetCredit(ViewOf(course, credit, need, cnt, grade, input), k, c)
  {
    var recs := Recs(credit, need, cnt, grade, |course|);
    assert Recs(credit[k := c], need, cnt, grade, |course|) == recs[k := recs[k].(credit := c)];
  }

  /** Writing `grade[k]` is `SetGrade`. */
  lemma ViewGrade(course: seq<seq<int>>, credit: map<int, int>, need: map<int, map<int, seq<int>>>,
                  cnt: map<int, int>, grade: map<int, int>, input: seq<int>, k: nat, g: int)
    requires k < |course|
    ensures ViewOf(course, credit, need, cnt, grade[k := g], input) == SetGrade(ViewOf(course, credit, need, cnt, grade, input), k, g)
  {
    var recs := Recs(credit, need, cnt, grade, |course|);
    assert Recs(credit, need, cnt, grade[k := g], |course|) == recs[k := recs[k].(grade := g)];
  }

  /** `cnt[k]++` is `BumpCnt`. */
  lemma ViewCnt(course: seq<seq<int>>, credit: map<int, int>, need: map<int, map<int, seq<int>>>,
                cnt: map<int, int>, grade: map<int, int>, input: seq<int>, k: nat)
    requires k < |course|
    ensures ViewOf(course, credit, need, cnt[k := At(cnt, k) + 1], grade, input) == BumpCnt(ViewOf(course, credit, need, cnt, grade, input), k)
  {
    var recs := Recs(credit, need, cnt, grade, |course|);
    assert Recs(credit, need, cnt[k := At(cnt, k) + 1], grade, |course|) == recs[k := recs[k].(cnt := recs[k].cnt + 1)];
  }

  /** Appending `m` to group `g` of row `k` of `need` is `AppendNeed`. */
  lemma ViewNeed(course: seq<seq<int>>, credit: map<int, int>, need: map<int, map<int, seq<int>>>,
                 cnt: map<int, int>, grade: map<int, int>, input: seq<int>, k: nat, g: int, m: int)
    requires k < |course|
    ensures var row := RowAt(need, k);
            ViewOf(course, credit, need[k := row[g := NeedAt(row, g) + [m]]], cnt, grade, input)
              == AppendNeed(ViewOf(course, credit, need, cnt, grade, input), k, g, m)
  {
    var recs := Recs(credit, need, cnt, grade, |course|);
    var row := RowAt(need, k);
    assert Recs(credit, need[k := row[g := NeedAt(row, g) + [m]]], cnt, grade, |course|)
        == recs[k := recs[k].(need := recs[k].need[g := NeedAt(recs[k].need, g) + [m]])];
  }

  /** The global tables of `task3.c`. */
  class Tables {
    var course: seq<seq<int>>
    var credit: map<int, int>
    var need: map<int, map<int, seq<int>>>
    var cnt: map<int, int>
    var grade: map<int, int>
    var courseInput: seq<int>
    var creditRemaining: int

    /** The tables as a plan: the interned names, one record per name and the input order. */
    ghost function View(): Plan
      reads this
    {
      ViewOf(course, credit, need, cnt, grade, courseInput)
    }

    /** Only interned courses have entries in the parallel arrays. */
    ghost predicate Indexed()
      reads this
    {
      Below(credit, |course|) && Below(need, |course|) && Below(cnt, |course|) && Below(grade, |course|)
    }

    ghost predicate Valid()
      reads this
    {
      Indexed() && PlanOk(View())
    }

    /** The program start: every table zero, nothing interned. */
    constructor ()
      ensures Valid() && View() == Plan([], [], []) && creditRemaining == 0
    {
      course, credit, need, cnt, grade := [], map[], map[], map[], map[];
      courseInput, creditRemaining := [], 0;
    }

    /** `Insert`: copies the name up to its terminator into the next row and returns that row's number. */
    method Insert(s: seq<int>) returns (idx: int)
      requires NUL in s
      modifies this
      ensures course == old(course) + [s[..Len(s)]] && idx == |old(course)|
      ensures credit == old(credit) && need == old(need) && cnt == old(cnt) && grade == old(grade)
      ensures courseInput == old(courseInput) && creditRemaining == old(creditRemaining)
    {
      var row := [];
      var now := 0;
      while s[now] != NUL
        invariant now <= Len(s) && row == s[..now]
        decreases Len(s) - now
      {
        row := row + [s[now]];
        now := now + 1;
      }
      course := course + [row];
      idx := |course| - 1;
    }

    /** `Find`: the first row equal to the name, or a new row holding it. */
    method Find(s: seq<int>) returns (idx: int)
      requires NUL in s && Clean(course)
      modifies this
      ensures course == Intern(old(course), s[..Len(s)]) && idx == Lookup(old(course), s[..Len(s)])
      ensures credit == old(credit) && need == old(need) && cnt == old(cnt) && grade == old(grade)
      ensures courseInput == old(courseInput) && creditRemaining == old(creditRemaining)
    {
      ghost var name := s[..Len(s)];
      var i := 0;
      while i < |course|
        invariant 0 <= i <= |course| && forall j :: 0 <= j < i ==> course[j] != name
        invariant course == old(course) && credit == old(credit) && need == old(need) && cnt == old(cnt)
        invariant grade == old(grade) && courseInput == old(courseInput) && creditRemaining == old(creditRemaining)
      {
        Terminated(course[i]);
        var same := Comp(s, course[i] + [NUL]);
        if same {
          IndexOfAt(course, name, i);
          return i;
        }
        i := i + 1;
      }
      IndexOfAt(course, name, |course|);
      idx := Insert(s);
    }

    /** `Find` seen on the plan: the view is `FindPlan`'s, and the terminator stays out of the names. */
    method FindName(name: seq<int>) returns (idx: int)
      requires Indexed() && Clean(course) && NUL !in name
      modifies this
      ensures Indexed() && Clean(course)
      ensures View() == FindPlan(old(View()), name).0 && idx == FindPlan(old(View()), name).1
      ensures idx < |course| && old(course) <= course
      ensures credit == old(credit) && need == old(need) && cnt == old(cnt) && grade == old(grade)
      ensures courseInput == old(courseInput) && creditRemaining == old(creditRemaining)
    {
      ghost var n := |course|;
      Terminated(name);
      idx := Find(name + [NUL]);
      InternFinds(old(course), name);
      InternClean(old(course), name);
      if idx == n {
        ViewGrow(old(course), credit, need, cnt, grade, courseInput, name);
      }
    }

    /**
     * `Prework`: an empty line changes nothing; otherwise the tables end as
     * `PreworkSpec` says and stay sound.
     */
    method Prework(line: seq<int>)
      requires Valid() && WellFormedLine(line)
      modifies this
      ensures Valid() && View() == PreworkSpec(old(View()), line)
      ensures creditRemaining == old(creditRemaining)
    {
      PreworkKeepsOk(View(), line);
      var len := GetLen(line);
      if len == 0 {
        return;
      }
      assert Clean(course);
      PreworkLine(line, len);
    }

    /** A non-empty line: its title admitted, its groups read, its grade set. */
    method PreworkLine(line: seq<int>, len: nat)
      requires Indexed() && Clean(course) && WellFormedLine(line) && len == Len(line) > 0
      modifies this
      ensures |old(View()).recs| == |old(View()).course|
      ensures Indexed() && View() == PreworkSpec(old(View()), line)
      ensures creditRemaining == old(creditRemaining)
    {
      ghost var p0 := View();
      LineFields(line);
      ghost var bar := Scan(line, BAR, 0, len);
      ghost var q := Scan(line, BAR, bar + 3, len);
      ParseLineAt(line, len, bar, q);
      ghost var e := ParseLine(line);
      var name, i := ReadTitle(line);
      assert name == e.name;
      i := i + 1;
      var index := AdmitCourse(name, line[i] - DIGIT0, e);
      ghost var a := View();
      i := i + 2;
      i := ReadGroups(line, index, i, q, a, e.groups);
      ReadGradeField(line, index, i, q, len);
      PreworkSpecAt(p0, line, e);
    }

    /**
     * The tail of `Prework` (task3.c lines 176-191): past the `|` that closes the
     * prerequisite field, if there is one, the grade letter sets the grade.
     */
    method ReadGradeField(line: seq<int>, index: nat, i: nat, ghost q: nat, ghost len: nat)
      requires Indexed() && index < |course|
      requires NUL in line && len == Len(line) && i == q <= len && (q < len <==> line[q] == BAR)
      modifies this
      ensures Indexed() && View() == SetGrade(old(View()), index, GradeOf(line[if q < len then q + 1 else q]))
      ensures creditRemaining == old(creditRemaining)
    {
      var j := i;
      if line[j] != NUL {
        j := j + 1;
      }
      assert j == if q < len then q + 1 else q;
      var g := ReadGrade(line[j]);
      SetGradeAt(index, g);
    }

    /**
     * The head of `Prework` (task3.c lines 139-147): the course is found or
     * added, its number joins the input order and its credit is set.
     */
    method AdmitCourse(name: seq<int>, c: int, ghost e: Entry) returns (index: nat)
      requires Indexed() && Clean(course) && NUL !in name && e.name == name && e.credit == c
      modifies this
      ensures Indexed() && Clean(course) && index < |course|
      ensures View() == Admit(old(View()), e).0 && index == Admit(old(View()), e).1
      ensures creditRemaining == old(creditRemaining)
    {
      index := FindName(name);
      courseInput := courseInput + [index];
      ViewCredit(course, credit, need, cnt, grade, courseInput, index, c);
      credit := credit[index := c];
    }

    /** `grade[index] = g`. */
    method SetGradeAt(index: nat, g: int)
      requires Indexed() && index < |course|
      modifies this
      ensures Indexed() && View() == SetGrade(old(View()), index, g)
      ensures course == old(course) && creditRemaining == old(creditRemaining)
    {
      ViewGrade(course, credit, need, cnt, grade, courseInput, index, g);
      grade := grade[index := g];
    }

    /** `cnt[index]++`: the next group of the course opens. */
    method BumpAt(index: nat)
      requires Indexed() && index < |course|
      modifies this
      ensures Indexed() && View() == BumpCnt(old(View()), index)
      ensures course == old(course) && cnt == old(cnt)[index := At(old(cnt), index) + 1]
      ensures courseInput == old(courseInput) && creditRemaining == old(creditRemaining)
    {
      ViewCnt(course, credit, need, cnt, grade, courseInput, index);
      cnt := cnt[index := At(cnt, index) + 1];
    }

    /** One name of a group: found or added, then appended to the group being filled. */
    method AddMember(name: seq<int>, index: nat)
      requires Indexed() && Clean(course) && NUL !in name && index < |course|
      modifies this
      ensures Indexed() && Clean(course) && index < |course|
      ensures var f := FindPlan(old(View()), name);
              index < |f.0.recs| && View() == AppendNeed(f.0, index, At(cnt, index), f.1)
      ensures cnt == old(cnt) && courseInput == old(courseInput) && creditRemaining == old(creditRemaining)
    {
      var m := FindName(name);
      AppendAt(index, At(cnt, index), m);
    }

    /** `need[index][count][++need[index][count][0]] = m`: a member joins group `count`. */
    method AppendAt(index: nat, count: int, m: int)
      requires Indexed() && index < |course|
      modifies this
      ensures Indexed() && View() == AppendNeed(old(View()), index, count, m)
      ensures course == old(course) && cnt == old(cnt)
      ensures courseInput == old(courseInput) && creditRemaining == old(creditRemaining)
    {
      var row := RowAt(need, index);
      ViewNeed(course, credit, need, cnt, grade, courseInput, index, count, m);
      need := need[index := row[count := NeedAt(row, count) + [m]]];
    }

    /**
     * The group loop of `Prework` (task3.c lines 150-175), over the
     * prerequisite field from `i0` to `q`: it stops at `q`, and course
     * `index` has gained all the field's groups.
     */
    method ReadGroups(line: seq<int>, index: nat, i0: nat, ghost q: nat, ghost a: Plan, ghost groups: seq<seq<seq<int>>>)
      returns (i: nat)
      requires PrereqField(line, i0, q) && Indexed() && Clean(course) && index < |course|
      requires groups == FieldGroups(line, i0, q) && View() == a
      modifies this
      ensures i == q && Indexed() && Clean(course) && index < |course|
      ensures |a.recs| == |a.course| && index < |a.recs| && View() == AddGroups(a, index, groups)
      ensures courseInput == old(courseInput) && creditRemaining == old(creditRemaining)
    {
      ghost var target := AddGroups(a, index, groups);
      i := i0;
      while line[i] != NUL && line[i] != BAR
        invariant PrereqField(line, i, q) && Indexed() && Clean(course) && index < |course|
        invariant AddGroups(View(), index, FieldGroups(line, i, q)) == target
        invariant courseInput == old(courseInput) && creditRemaining == old(creditRemaining)
        decreases q - i
      {
        var ge := ReadOneGroup(line, index, i, q);
        if line[ge] == BAR {
          assert GroupsAfter(line, ge, q) == [];
          i := ge;
          break;
        }
        i := ge + 1;
        assert GroupsAfter(line, ge, q) == FieldGroups(line, i, q);
      }
    }

    /**
     * One pass of the group loop: the members up to the next `;` or `|` are
     * added to the group numbered by `cnt`, and the count is bumped.
     */
    method ReadOneGroup(line: seq<int>, index: nat, i: nat, ghost q: nat) returns (ge: nat)
      requires PrereqField(line, i, q) && line[i] != NUL && line[i] != BAR
      requires Indexed() && Clean(course) && index < |course|
      modifies this
      ensures ge == Scan(line, SEMI, i, q) && ge <= q && (ge < q <==> line[ge] != BAR)
      ensures ge < q ==> PrereqField(line, ge + 1, q)
      ensures Indexed() && Clean(course) && index < |course|
      ensures |old(View()).recs| == |old(View()).course| && index < |old(View()).recs|
      ensures AddGroups(View(), index, GroupsAfter(line, ge, q)) == AddGroups(old(View()), index, FieldGroups(line, i, q))
      ensures courseInput == old(courseInput) && creditRemaining == old(creditRemaining)
    {
      ghost var v0 := View();
      ghost var g := Scan(line, SEMI, i, q);
      FirstGroup(line, i, q, g);
      GroupBeforeEnd(line, i, g, q);
      assert v0.recs[index].cnt == At(cnt, index);
      GroupsAt(v0, index, line, i, q, g);
      ge := ReadGroup(line, index, i, g);
      BumpAt(index);
    }

    /**
     * The member loop of `Prework` (task3.c lines 152-171), over one group
     * from `i0` to `ge`: each name is interned and its index appended to
     * the group being filled, the one numbered by the current `cnt`.
     */
    method ReadGroup(line: seq<int>, index: nat, i0: nat, ghost ge: nat) returns (i: nat)
      requires GroupField(line, i0, ge) && NUL in line && ge < Len(line) && Indexed() && Clean(course) && index < |course|
      modifies this
      ensures i == ge && Indexed() && Clean(course) && index < |course|
      ensures View() == AddMembers(old(View()), index, At(old(cnt), index), Pieces(line, COMMA, i0, ge))
      ensures At(cnt, index) == At(old(cnt), index)
      ensures courseInput == old(courseInput) && creditRemaining == old(creditRemaining)
    {
      ghost var count := At(cnt, index);
      ghost var target := AddMembers(View(), index, count, Pieces(line, COMMA, i0, ge));
      i := i0;
      while line[i] != NUL && line[i] != SEMI && line[i] != BAR
        invariant i0 <= i && GroupField(line, i, ge) && Indexed() && Clean(course) && index < |course|
        invariant At(cnt, index) == count
        invariant AddMembers(View(), index, count, Pieces(line, COMMA, i, ge)) == target
        invariant courseInput == old(courseInput) && creditRemaining == old(creditRemaining)
        decreases ge - i
      {
        var j := ReadMember(line, index, i, ge);
        if line[j] == SEMI || line[j] == BAR {
          i := j;
          break;
        }
        i := j + 1;
      }
    }

    /** One pass of the member loop: the name up to the next stop is interned and joins the group. */
    method ReadMember(line: seq<int>, index: nat, i: nat, ghost ge: nat) returns (j: nat)
      requires GroupField(line, i, ge) && NUL in line && ge < Len(line) && line[i] != NUL && line[i] != SEMI && line[i] != BAR
      requires Indexed() && Clean(course) && index < |course|
      modifies this
      ensures i <= j <= ge && (j < ge <==> line[j] != SEMI && line[j] != BAR)
      ensures j < ge ==> GroupField(line, j + 1, ge)
      ensures Indexed() && Clean(course) && index < |course|
      ensures |old(View()).recs| == |old(View()).course| && index < |old(View()).recs|
      ensures j < ge ==> AddMembers(View(), index, At(cnt, index), Pieces(line, COMMA, j + 1, ge))
                         == AddMembers(old(View()), index, At(old(cnt), index), Pieces(line, COMMA, i, ge))
      ensures j == ge ==> View() == AddMembers(old(View()), index, At(old(cnt), index), Pieces(line, COMMA, i, ge))
      ensures At(cnt, index) == At(old(cnt), index)
      ensures courseInput == old(courseInput) && creditRemaining == old(creditRemaining)
    {
      var name;
      name, j := ReadName(line, i);
      NameStep(line, i, ge, j);
      BeforeEnd(line, i, j);
      MembersAt(View(), index, At(cnt, index), line, i, ge, j);
      AddMember(name, index);
      if j < ge {
        assert PiecesAfter(line, COMMA, j, ge) == Pieces(line, COMMA, j + 1, ge);
      } else {
        assert PiecesAfter(line, COMMA, j, ge) == [];
      }
    }

    /**
     * The summing loop of `PrintAttemped`, `PrintCompleted` and
     * `PrintRemaining`: the credits of the interned courses whose grade
     * the filter keeps.
     */
    method SumCredits(f: Filter) returns (sum: int)
      ensures sum == CreditSum(View().recs, |course|, f)
    {
      sum := 0;
      var i := 0;
      while i < |course|
        invariant 0 <= i <= |course| && sum == CreditSum(View().recs, i, f)
      {
        if !Keeps(f, At(grade, i)) {
          i := i + 1;
          continue;
        }
        sum := sum + At(credit, i);
        i := i + 1;
      }
    }

    /** `PrintAttemped`: the credits of every course with a grade. */
    method PrintAttempted() returns (out: string)
      requires var c := CreditSum(View().recs, |course|, Graded); IsI32(c) && c != I32_MIN
      ensures out == "Hours Attempted: " + PrintInt(CreditSum(View().recs, |course|, Graded)) + "\n"
    {
      var sum := SumCredits(Graded);
      out := "Hours Attempted: " + PrintInt(sum) + "\n";
    }

    /** `PrintCompleted`: the credits of every passed course. */
    method PrintCompleted() returns (out: string)
      requires var c := CreditSum(View().recs, |course|, Passed); IsI32(c) && c != I32_MIN
      ensures out == "Hours Completed: " + PrintInt(CreditSum(View().recs, |course|, Passed)) + "\n"
    {
      var sum := SumCredits(Passed);
      out := "Hours Completed: " + PrintInt(sum) + "\n";
    }

    /** `PrintRemaining`: the credits of every course not passed, also kept in `credit_remaining`. */
    method PrintRemaining() returns (out: string)
      requires var c := CreditSum(View().recs, |course|, NotPassed); IsI32(c) && c != I32_MIN
      modifies this
      ensures course == old(course) && credit == old(credit) && need == old(need) && cnt == old(cnt)
      ensures grade == old(grade) && courseInput == old(courseInput)
      ensures creditRemaining == CreditSum(View().recs, |course|, NotPassed)
      ensures out == "Credits Remaining: " + PrintInt(creditRemaining) + "\n"
    {
      var sum := SumCredits(NotPassed);
      creditRemaining := sum;
      out := "Credits Remaining: " + PrintInt(sum) + "\n";
    }

    /**
     * `PrintGPA`: `0.0` when no course has a grade, otherwise the grade
     * points over the credits of the graded courses, to one decimal.
     */
    method PrintGPA() returns (out: string)
      requires var c := CreditSum(View().recs, |course|, Graded);
               c != 0 ==> Print1FDivDefined(GradePoints(View().recs, |course|), c)
      ensures var c := CreditSum(View().recs, |course|, Graded);
              out == "GPA: " + (if c == 0 then "0.0" else Print1FDiv(GradePoints(View().recs, |course|), c)) + "\n"
    {
      ghost var recs := View().recs;
      var sumCredit := 0;
      var sumGrade := 0;
      var i := 0;
      while i < |course|
        invariant 0 <= i <= |course|
        invariant sumCredit == CreditSum(recs, i, Graded) && sumGrade == GradePoints(recs, i)
      {
        assert recs[i].grade == At(grade, i) && recs[i].credit == At(credit, i);
        if At(grade, i) == -1 {
          i := i + 1;
          continue;
        }
        sumCredit := sumCredit + At(credit, i);
        sumGrade := sumGrade + At(grade, i) * At(credit, i);
        i := i + 1;
      }
      if sumCredit == 0 {
        out := "GPA: 0.0\n";
      } else {
        out := "GPA: " + Print1FDiv(sumGrade, sumCredit) + "\n";
      }
    }

    /**
     * `NeedToLearn`: 1 exactly when the course is not passed and has no
     * groups or a group whose every member is passed; 0 otherwise.
     */
    method NeedToLearn(index: int) returns (r: int)
      requires Indexed() && 0 <= index < |course|
      ensures r == 0 || r == 1
      ensures r == 1 <==> CanTake(View().recs, index)
    {
      ghost var recs := View().recs;
      if At(grade, index) > 0 {
        return 0;
      }
      if At(cnt, index) == 0 {
        return 1;
      }
      var i := 0;
      while i < At(cnt, index)
        invariant 0 <= i && (i <= At(cnt, index) || i == 0)
        invariant forall g :: 0 <= g < i ==> !GroupDone(recs, NeedAt(recs[index].need, g))
      {
        var members := NeedAt(RowAt(need, index), i);
        var canLearn := 1;
        var j := 1;
        while j <= |members|
          invariant 1 <= j <= |members| + 1
          invariant canLearn == 0 || canLearn == 1
          invariant canLearn == 1 <==> forall t :: 0 <= t < j - 1 ==> GradeAt(recs, members[t]) > 0
        {
          var needCourse := members[j - 1];
          assert At(grade, needCourse) == GradeAt(recs, needCourse);
          if At(grade, needCourse) <= 0 {
            canLearn := 0;
          }
          j := j + 1;
        }
        if canLearn == 1 {
          return 1;
        }
        i := i + 1;
      }
      return 0;
    }
  }
}
