/**
 * The planner of `task3.cpp`: the same program as `task3.c`, with one
 * `struct Course` record per course number (`a[110]`) in place of the
 * parallel arrays, `char` names, `strlen`, and `bool` results.
 *
 * The record array is a map read through `Get`: a record nobody wrote
 * reads as the zero record. The object is proved against the plan of the
 * `Planner` module through `View`, as the C version is.
 */
module PlannerCpp {
  import opened Common
  import opened Planner

  /** `a[k]`: a zero-initialised record. */
  function Get(a: map<int, Course>, k: int): Course {
    if k in a then a[k] else Blank
  }

  /** The records of the first `n` courses. */
  function RecsOf(a: map<int, Course>, n: nat): (recs: seq<Course>)
    ensures |recs| == n
  {
    seq(n, k => Get(a, k))
  }

  /** Writing record `k` replaces the `k`-th record of the view. */
  lemma RecsPut(a: map<int, Course>, n: nat, k: nat, c: Course)
    requires k < n
    ensures RecsOf(a[k := c], n) == RecsOf(a, n)[k := c]
  {
  }

  /** A new course number reads as a blank record while nothing was written at it. */
  lemma RecsGrow(a: map<int, Course>, n: nat)
    requires forall k :: k in a ==> 0 <= k < n
    ensures RecsOf(a, n + 1) == RecsOf(a, n) + [Blank]
  {
    assert n !in a;
  }

  /** The global data of `task3.cpp`. */
  class Registry {
    var a: map<int, Course>
    var course: seq<seq<int>>
    var courseInput: seq<int>
    var creditRemaining: int

    /** The records as a plan: the interned names, one record per name and the input order. */
    ghost function View(): (p: Plan)
      reads this
      ensures |p.recs| == |p.course|
    {
      Plan(course, RecsOf(a, |course|), courseInput)
    }

    /** Only interned courses have records. */
    ghost predicate Indexed()
      reads this
    {
      forall k :: k in a ==> 0 <= k < |course|
    }

    ghost predicate Valid()
      reads this
    {
      Indexed() && PlanOk(View())
    }

    /** The program start: every record zero, nothing interned. */
    constructor ()
      ensures Valid() && View() == Plan([], [], []) && creditRemaining == 0
    {
      a, course, courseInput, creditRemaining := map[], [], [], 0;
    }

    /** `Insert`: copies the name up to its terminator into the next row and returns that row's number. */
    method Insert(s: seq<int>) returns (idx: int)
      requires NUL in s
      modifies this
      ensures course == old(course) + [s[..Len(s)]] && idx == |old(course)|
      ensures a == old(a) && courseInput == old(courseInput) && creditRemaining == old(creditRemaining)
    {
      var row := [];
      var now := 0;
      while s[now] != NUL
        invariant now <= Len(s) && row == s[..now]
        decreases Len(s) - now
      {
        row := row + [s[now]];
        now := now + 1;
      }
      course := course + [row];
      idx := |course| - 1;
    }

    /** `Find`: the first row equal to the name, or a new row holding it. */
    method Find(s: seq<int>) returns (idx: int)
      requires NUL in s && Clean(course)
      modifies this
      ensures course == Intern(old(course), s[..Len(s)]) && idx == Lookup(old(course), s[..Len(s)])
      ensures a == old(a) && courseInput == old(courseInput) && creditRemaining == old(creditRemaining)
    {
      ghost var name := s[..Len(s)];
      var i := 0;
      while i < |course|
        invariant 0 <= i <= |course| && forall j :: 0 <= j < i ==> course[j] != name
        invariant course == old(course) && a == old(a)
        invariant courseInput == old(courseInput) && creditRemaining == old(creditRemaining)
      {
        Terminated(course[i]);
        var same := Comp(s, course[i] + [NUL]);
        if same {
          IndexOfAt(course, name, i);
          return i;
        }
        i := i + 1;
      }
      IndexOfAt(course, name, |course|);
      idx := Insert(s);
    }

    /** `Find(now + 1)` seen on the plan: the view is `FindPlan`'s. */
    method FindName(name: seq<int>) returns (idx: int)
      requires Indexed() && Clean(course) && NUL !in name
      modifies this
      ensures Indexed() && Clean(course)
      ensures View() == FindPlan(old(View()), name).0 && idx == FindPlan(old(View()), name).1
      ensures idx < |course| && old(course) <= course
      ensures courseInput == old(courseInput) && creditRemaining == old(creditRemaining)
    {
      ghost var n := |course|;
      Terminated(name);
      idx := Find(name + [NUL]);
      InternFinds(old(course), name);
      InternClean(old(course), name);
      if idx == n {
        RecsGrow(a, n);
      }
    }

    /**
     * `Prework`: the tables end as `PreworkSpec` says and stay sound. The
     * line is a word read by `scanf("%s")`, so it is never empty; the C++
     * version, unlike the C one, does not test for that.
     */
    method Prework(line: seq<int>)
      requires Valid() && WellFormedLine(line) && Len(line) > 0
      modifies this
      ensures Valid() && View() == PreworkSpec(old(View()), line)
      ensures creditRemaining == old(creditRemaining)
    {
      PreworkKeepsOk(View(), line);
      PreworkLine(line);
    }

    /** The steps of `Prework`: the title admitted, the groups read, the grade set. */
    method PreworkLine(line: seq<int>)
      requires Indexed() && Clean(course) && WellFormedLine(line) && Len(line) > 0
      modifies this
      ensures Indexed() && View() == PreworkSpec(old(View()), line)
      ensures creditRemaining == old(creditRemaining)
    {
      ghost var p0 := View();
      ghost var len := Len(line);
      LineFields(line);
      ghost var bar := Scan(line, BAR, 0, len);
      ghost var q := Scan(line, BAR, bar + 3, len);
      ParseLineAt(line, len, bar, q);
      ghost var e := ParseLine(line);
      var name, i := ReadTitle(line);
      assert name == e.name;
      i := i + 1;
      var index := AdmitCourse(name, line[i] - DIGIT0, e);
      ghost var ad := View();
      i := i + 2;
      i := ReadGroups(line, index, i, q, ad, e.groups);
      ReadGradeField(line, index, i, q, len);
      PreworkSpecAt(p0, line, e);
    }

    /**
     * The tail of `Prework` (task3.cpp lines 76-83): past the `|` that closes the
     * prerequisite field, if there is one, the grade letter sets the grade.
     */
    method ReadGradeField(line: seq<int>, index: nat, i: nat, ghost q: nat, ghost len: nat)
      requires Indexed() && index < |course|
      requires NUL in line && len == Len(line) && i == q <= len && (q < len <==> line[q] == BAR)
      modifies this
      ensures Indexed() && View() == SetGrade(old(View()), index, GradeOf(line[if q < len then q + 1 else q]))
      ensures creditRemaining == old(creditRemaining)
    {
      var j := i;
      if line[j] != NUL {
        j := j + 1;
      }
      assert j == if q < len then q + 1 else q;
      var g := ReadGrade(line[j]);
      SetGradeAt(index, g);
    }

    /**
     * The head of `Prework` (task3.cpp lines 49-53): the course is found
     * or added, its number joins the input order and its credit is set.
     */
    method AdmitCourse(name: seq<int>, c: int, ghost e: Entry) returns (index: nat)
      requires Indexed() && Clean(course) && NUL !in name && e.name == name && e.credit == c
      modifies this
      ensures Indexed() && Clean(course) && index < |course|
      ensures View() == Admit(old(View()), e).0 && index == Admit(old(View()), e).1
      ensures creditRemaining == old(creditRemaining)
    {
      index := FindName(name);
      courseInput := courseInput + [index];
      RecsPut(a, |course|, index, Get(a, index).(credit := c));
      a := a[index := Get(a, index).(credit := c)];
    }

    /** `a[index].grade = g`. */
    method SetGradeAt(index: nat, g: int)
      requires Indexed() && index < |course|
      modifies this
      ensures Indexed() && View() == SetGrade(old(View()), index, g)
      ensures course == old(course) && creditRemaining == old(creditRemaining)
    {
      RecsPut(a, |course|, index, Get(a, index).(grade := g));
      a := a[index := Get(a, index).(grade := g)];
    }

    /** `a[index].cnt++`: the next group of the course opens. */
    method BumpAt(index: nat)
      requires Indexed() && index < |course|
      modifies this
      ensures Indexed() && View() == BumpCnt(old(View()), index)
      ensures course == old(course) && Get(a, index).cnt == Get(old(a), index).cnt + 1
      ensures courseInput == old(courseInput) && creditRemaining == old(creditRemaining)
    {
      var r := Get(a, index);
      RecsPut(a, |course|, index, r.(cnt := r.cnt + 1));
      a := a[index := r.(cnt := r.cnt + 1)];
    }

    /** One name of a group: found or added, then appended to the group being filled. */
    method AddMember(name: seq<int>, index: nat)
      requires Indexed() && Clean(course) && NUL !in name && index < |course|
      modifies this
      ensures Indexed() && Clean(course) && index < |course|
      ensures var f := FindPlan(old(View()), name);
              index < |f.0.recs| && View() == AppendNeed(f.0, index, Get(old(a), index).cnt, f.1)
      ensures Get(a, index).cnt == Get(old(a), index).cnt
      ensures courseInput == old(courseInput) && creditRemaining == old(creditRemaining)
    {
      var count := Get(a, index).cnt;
      var m := FindName(name);
      assert Get(a, index) == View().recs[index];
      AppendAt(index, count, m);
    }

    /** `a[index].need[cnt][++a[index].need[cnt][0]] = m`: a member joins group `cnt`. */
    method AppendAt(index: nat, count: int, m: int)
      requires Indexed() && index < |course|
      modifies this
      ensures Indexed() && View() == AppendNeed(old(View()), index, count, m)
      ensures course == old(course) && Get(a, index).cnt == Get(old(a), index).cnt
      ensures courseInput == old(courseInput) && creditRemaining == old(creditRemaining)
    {
      var r := Get(a, index);
      var r' := r.(need := r.need[count := NeedAt(r.need, count) + [m]]);
      RecsPut(a, |course|, index, r');
      a := a[index := r'];
    }

    /**
     * The group loop of `Prework` (task3.cpp lines 56-75), over the
     * prerequisite field from `i0` to `q`: it stops at `q`, and course
     * `index` has gained all the field's groups.
     */
    method ReadGroups(line: seq<int>, index: nat, i0: nat, ghost q: nat, ghost p: Plan, ghost groups: seq<seq<seq<int>>>)
      returns (i: nat)
      requires PrereqField(line, i0, q) && Indexed() && Clean(course) && index < |course|
      requires groups == FieldGroups(line, i0, q) && View() == p
      modifies this
      ensures i == q && Indexed() && Clean(course) && index < |course|
      ensures index < |p.recs| && View() == AddGroups(p, index, groups)
      ensures courseInput == old(courseInput) && creditRemaining == old(creditRemaining)
    {
      ghost var target := AddGroups(p, index, groups);
      i := i0;
      while line[i] != NUL && line[i] != BAR
        invariant PrereqField(line, i, q) && Indexed() && Clean(course) && index < |course|
        invariant AddGroups(View(), index, FieldGroups(line, i, q)) == target
        invariant courseInput == old(courseInput) && creditRemaining == old(creditRemaining)
        decreases q - i
      {
        var ge := ReadOneGroup(line, index, i, q);
        if line[ge] == BAR {
          assert GroupsAfter(line, ge, q) == [];
          i := ge;
          break;
        }
        i := ge + 1;
        assert GroupsAfter(line, ge, q) == FieldGroups(line, i, q);
      }
    }

    /**
     * One pass of the group loop: the members up to the next `;` or `|` are
     * added to the group numbered by `cnt`, and the count is bumped.
     */
    method ReadOneGroup(line: seq<int>, index: nat, i: nat, ghost q: nat) returns (ge: nat)
      requires PrereqField(line, i, q) && line[i] != NUL && line[i] != BAR
      requires Indexed() && Clean(course) && index < |course|
      modifies this
      ensures ge == Scan(line, SEMI, i, q) && ge <= q && (ge < q <==> line[ge] != BAR)
      ensures ge < q ==> PrereqField(line, ge + 1, q)
      ensures Indexed() && Clean(course) && index < |course|
      ensures index < |old(View()).recs|
      ensures AddGroups(View(), index, GroupsAfter(line, ge, q)) == AddGroups(old(View()), index, FieldGroups(line, i, q))
      ensures courseInput == old(courseInput) && creditRemaining == old(creditRemaining)
    {
      ghost var v0 := View();
      ghost var g := Scan(line, SEMI, i, q);
      FirstGroup(line, i, q, g);
      GroupBeforeEnd(line, i, g, q);
      assert v0.recs[index].cnt == Get(a, index).cnt;
      GroupsAt(v0, index, line, i, q, g);
      ge := ReadGroup(line, index, i, g);
      BumpAt(index);
    }

    /**
     * The member loop of `Prework` (task3.cpp lines 58-70), over one group
     * from `i0` to `ge`: each name is interned and its index appended to
     * the group being filled, the one numbered by the current `cnt`.
     */
    method ReadGroup(line: seq<int>, index: nat, i0: nat, ghost ge: nat) returns (i: nat)
      requires GroupField(line, i0, ge) && NUL in line && ge < Len(line) && Indexed() && Clean(course) && index < |course|
      modifies this
      ensures i == ge && Indexed() && Clean(course) && index < |course|
      ensures View() == AddMembers(old(View()), index, Get(old(a), index).cnt, Pieces(line, COMMA, i0, ge))
      ensures Get(a, index).cnt == Get(old(a), index).cnt
      ensures courseInput == old(courseInput) && creditRemaining == old(creditRemaining)
    {
      ghost var count := Get(a, index).cnt;
      ghost var target := AddMembers(View(), index, count, Pieces(line, COMMA, i0, ge));
      i := i0;
      while line[i] != NUL && line[i] != SEMI && line[i] != BAR
        invariant i0 <= i && GroupField(line, i, ge) && Indexed() && Clean(course) && index < |course|
        invariant Get(a, index).cnt == count
        invariant AddMembers(View(), index, count, Pieces(line, COMMA, i, ge)) == target
        invariant courseInput == old(courseInput) && creditRemaining == old(creditRemaining)
        decreases ge - i
      {
        var j := ReadMember(line, index, i, ge);
        if line[j] == SEMI || line[j] == BAR {
          i := j;
          break;
        }
        i := j + 1;
      }
    }

    /** One pass of the member loop: the name up to the next stop is interned and joins the group. */
    method ReadMember(line: seq<int>, index: nat, i: nat, ghost ge: nat) returns (j: nat)
      requires GroupField(line, i, ge) && NUL in line && ge < Len(line) && line[i] != NUL && line[i] != SEMI && line[i] != BAR
      requires Indexed() && Clean(course) && index < |course|
      modifies this
      ensures i <= j <= ge && (j < ge <==> line[j] != SEMI && line[j] != BAR)
      ensures j < ge ==> GroupField(line, j + 1, ge)
      ensures Indexed() && Clean(course) && index < |course|
      ensures index < |old(View()).recs|
      ensures j < ge ==> AddMembers(View(), index, Get(a, index).cnt, Pieces(line, COMMA, j + 1, ge))
                         == AddMembers(old(View()), index, Get(old(a), index).cnt, Pieces(line, COMMA, i, ge))
      ensures j == ge ==> View() == AddMembers(old(View()), index, Get(old(a), index).cnt, Pieces(line, COMMA, i, ge))
      ensures Get(a, index).cnt == Get(old(a), index).cnt
      ensures courseInput == old(courseInput) && creditRemaining == old(creditRemaining)
    {
      var name;
      name, j := ReadName(line, i);
      NameStep(line, i, ge, j);
      BeforeEnd(line, i, j);
      MembersAt(View(), index, Get(a, index).cnt, line, i, ge, j);
      AddMember(name, index);
      if j < ge {
        assert PiecesAfter(line, COMMA, j, ge) == Pieces(line, COMMA, j + 1, ge);
      } else {
        assert PiecesAfter(line, COMMA, j, ge) == [];
      }
    }

    /**
     * The `for` loop of `PrintAttemped`, `PrintCompleted` and
     * `PrintRemaining`: the credits of the interned courses whose grade
     * the filter keeps.
     */
    method SumCredits(f: Filter) returns (sum: int)
      ensures sum == CreditSum(View().recs, |course|, f)
    {
      sum := 0;
      for i := 0 to |course|
        invariant sum == CreditSum(View().recs, i, f)
      {
        if !Keeps(f, Get(a, i).grade) {
          continue;
        }
        sum := sum + Get(a, i).credit;
      }
    }

    /** `PrintAttemped`: `printf("Hours Attempted: %d\n", ...)` of the graded credits. */
    method PrintAttempted() returns (out: string)
      ensures out == "Hours Attempted: " + IntToString(CreditSum(View().recs, |course|, Graded)) + "\n"
    {
      var sum := SumCredits(Graded);
      out := "Hours Attempted: " + IntToString(sum) + "\n";
    }

    /** `PrintCompleted`: the credits of the passed courses. */
    method PrintCompleted() returns (out: string)
      ensures out == "Hours Completed: " + IntToString(CreditSum(View().recs, |course|, Passed)) + "\n"
    {
      var sum := SumCredits(Passed);
      out := "Hours Completed: " + IntToString(sum) + "\n";
    }

    /** `PrintRemaining`: the credits of the courses not passed, also kept in `credit_remaining`. */
    method PrintRemaining() returns (out: string)
      modifies this
      ensures a == old(a) && course == old(course) && courseInput == old(courseInput)
      ensures creditRemaining == CreditSum(View().recs, |course|, NotPassed)
      ensures out == "Credits Remaining: " + IntToString(creditRemaining) + "\n"
    {
      var sum := SumCredits(NotPassed);
      creditRemaining := sum;
      out := "Credits Remaining: " + IntToString(sum) + "\n";
    }

    /**
     * `NeedToLearn`: true exactly when the course is not passed and has no
     * groups or a group whose every member is passed.
     */
    method NeedToLearn(index: int) returns (r: bool)
      requires Indexed() && 0 <= index < |course|
      ensures r <==> CanTake(View().recs, index)
    {
      ghost var recs := View().recs;
      var c := Get(a, index);
      if c.grade > 0 {
        return false;
      }
      if c.cnt == 0 {
        return true;
      }
      var i := 0;
      while i < c.cnt
        invariant 0 <= i && (i <= c.cnt || i == 0)
        invariant forall g :: 0 <= g < i ==> !GroupDone(recs, NeedAt(c.need, g))
      {
        var members := NeedAt(c.need, i);
        var canLearn := true;
        for j := 1 to |members| + 1
          invariant canLearn <==> forall t :: 0 <= t < j - 1 ==> GradeAt(recs, members[t]) > 0
        {
          var needCourse := members[j - 1];
          assert Get(a, needCourse).grade == GradeAt(recs, needCourse);
          if Get(a, needCourse).grade <= 0 {
            canLearn := false;
          }
        }
        if canLearn {
          return true;
        }
        i := i + 1;
      }
      return false;
    }
  }
}
