/**
 * Character-level input and output of `task1` and `task3`: reading a signed
 * decimal (`ReadInt`), printing one (`PrintInt`, the same text in both
 * programs), printing a ratio to one decimal (`Print1FDiv`) and reading a
 * line into an integer buffer (`ReadLine`).
 *
 * The standard input is a character sequence and a position in it; reading
 * at the end yields `EOF` (-1), as `getchar` does.  Output is returned as
 * the text written.
 */
module DecimalIo {
  import opened Common

  const EOF: int := -1

  /** `getchar()` at position `i`: the character code, or `EOF` at the end. */
  function CharCode(input: seq<char>, i: nat): int {
    if i < |input| then input[i] as int else EOF
  }

  /** A character that ends the skipping phase of `ReadInt`. */
  predicate StartsNumber(c: char) {
    IsDigit(c) || c == '-'
  }

  /** Some digit or `-` lies ahead; otherwise `ReadInt` waits for one forever. */
  predicate HasNumberAhead(input: seq<char>, pos: nat) {
    exists k :: pos <= k < |input| && StartsNumber(input[k])
  }

  /** The first position at or after `pos` holding a digit or `-`. */
  function NumberStart(input: seq<char>, pos: nat): (k: nat)
    requires HasNumberAhead(input, pos)
    ensures pos <= k < |input| && StartsNumber(input[k])
    ensures forall m :: pos <= m < k ==> !StartsNumber(input[m])
    decreases |input| - pos
  {
    if StartsNumber(input[pos]) then pos
    else
      assert HasNumberAhead(input, pos + 1) by {
        var k :| pos <= k < |input| && StartsNumber(input[k]);
        assert k != pos;
      }
      NumberStart(input, pos + 1)
  }

  /** Every character in `[k, e)` is a digit. */
  predicate DigitRun(input: seq<char>, k: nat, e: nat) {
    forall t :: k <= t < e && t < |input| ==> IsDigit(input[t])
  }

  /** The end of the run of digits starting at `k`. */
  function DigitsEnd(input: seq<char>, k: nat): (e: nat)
    requires k <= |input|
    ensures k <= e <= |input| && DigitRun(input, k, e)
    ensures e < |input| ==> !IsDigit(input[e])
    decreases |input| - k
  {
    if k < |input| && IsDigit(input[k]) then DigitsEnd(input, k + 1) else k
  }

  /** The value of the digits in `[k, e)`, most significant first, read in place. */
  function RunValue(input: seq<char>, k: nat, e: nat): nat
    requires k <= e <= |input| && DigitRun(input, k, e)
    decreases e - k
  {
    if k == e then 0 else RunValue(input, k, e - 1) * 10 + (input[e - 1] as int - '0' as int)
  }

  /** Reading in place is `DigitsValue` of the slice. */
  lemma {:induction false} RunValueSlice(input: seq<char>, k: nat, e: nat)
    requires k <= e <= |input| && DigitRun(input, k, e)
    ensures AllDigits(input[k..e]) && RunValue(input, k, e) == DigitsValue(input[k..e])
    decreases e - k
  {
    if k < e {
      RunValueSlice(input, k, e - 1);
      assert input[k..e][..e - 1 - k] == input[k..e - 1];
    }
  }

  /** Where the digits of the number read from `pos` begin: after its sign, if any. */
  function DigitsStart(input: seq<char>, pos: nat): nat
    requires HasNumberAhead(input, pos)
  {
    var k := NumberStart(input, pos);
    if input[k] == '-' then k + 1 else k
  }

  /**
   * The number `ReadInt` reads from `pos`: the digit run after the first
   * digit or `-`, negated when a `-` came first (`-` alone reads 0).
   */
  function ReadIntValue(input: seq<char>, pos: nat): int
    requires HasNumberAhead(input, pos)
  {
    var k := NumberStart(input, pos);
    var d := DigitsStart(input, pos);
    var v: int := RunValue(input, d, DigitsEnd(input, d));
    if input[k] == '-' then -v else v
  }

  /** Where `ReadInt` leaves the input: just past the character that ended the digits. */
  function ReadIntNext(input: seq<char>, pos: nat): nat
    requires HasNumberAhead(input, pos)
  {
    var e := DigitsEnd(input, DigitsStart(input, pos));
    if e < |input| then e + 1 else e
  }

  /** `ReadInt`: reads the next signed decimal of the input starting at `pos`. */
  method ReadInt(input: seq<char>, pos: nat) returns (v: int, next: nat)
    requires HasNumberAhead(input, pos)
    ensures v == ReadIntValue(input, pos) && next == ReadIntNext(input, pos)
  {
    var k := NumberStart(input, pos);
    var i := pos;
    var ch := CharCode(input, i);
    while (ch > '9' as int || ch < '0' as int) && ch != '-' as int
      invariant pos <= i <= k && ch == CharCode(input, i)
      decreases k - i
    {
      i := i + 1;
      ch := CharCode(input, i);
    }
    assert i == k;
    var ans := 0;
    var flag := 1;
    if ch == '-' as int {
      flag := -1;
      i := i + 1;
      ch := CharCode(input, i);
    }
    var d := i;
    assert d == DigitsStart(input, pos);
    var e := DigitsEnd(input, d);
    while ch >= '0' as int && ch <= '9' as int
      invariant d <= i <= e && ch == CharCode(input, i)
      invariant ans == RunValue(input, d, i)
      decreases e - i
    {
      ans := ans * 10 + ch - '0' as int;
      i := i + 1;
      ch := CharCode(input, i);
    }
    assert i == e;
    v := ans * flag;
    next := if i < |input| then i + 1 else i;
  }

  /** `PrintInt`: a `-` for negatives, then the digits, most significant first. */
  function PrintInt(x: int): (s: string)
    requires IsI32(x) && x != I32_MIN
    ensures s == IntToString(x)
    decreases Abs(x)
  {
    var y := Abs(x);
    (if x < 0 then "-" else "") + (if y >= 10 then PrintInt(y / 10) else "") + [DigitChar(y % 10)]
  }

  /**
   * `ReadInt` reads back what `PrintInt` wrote, when the number is followed
   * by the end of the input or a non-digit, and stops just past that
   * character.
   */
  lemma ReadPrinted(x: int, rest: seq<char>)
    requires IsI32(x) && x != I32_MIN
    requires rest == [] || !IsDigit(rest[0])
    ensures HasNumberAhead(PrintInt(x) + rest, 0)
    ensures ReadIntValue(PrintInt(x) + rest, 0) == x
    ensures ReadIntNext(PrintInt(x) + rest, 0) == |PrintInt(x)| + (if rest == [] then 0 else 1)
  {
    var input := PrintInt(x) + rest;
    var n := Abs(x);
    var digits := NatToString(n);
    var d := if x < 0 then 1 else 0;
    assert input[d..d + |digits|] == digits;
    forall t | d <= t < d + |digits|
      ensures IsDigit(input[t])
    {
      assert input[t] == digits[t - d];
    }
    assert StartsNumber(input[0]);
    assert NumberStart(input, 0) == 0;
    DigitsRun(input, d, d + |digits|);
    RunValueSlice(input, d, d + |digits|);
    NatToStringValue(n);
    ReadIntAt(input, 0, 0, d, d + |digits|, n);
  }

  /** A run of digits from `k` to `e` that is followed by a non-digit or the end. */
  lemma {:induction false} DigitsRun(input: seq<char>, k: nat, e: nat)
    requires k <= e <= |input| && DigitRun(input, k, e)
    requires e < |input| ==> !IsDigit(input[e])
    ensures DigitsEnd(input, k) == e
    decreases e - k
  {
    if k < e {
      DigitsRun(input, k + 1, e);
    }
  }

  /** Characters that are neither digits nor `-` are skipped without effect. */
  lemma {:induction false} ReadSkipsOthers(junk: seq<char>, input: seq<char>)
    requires forall i :: 0 <= i < |junk| ==> !StartsNumber(junk[i])
    requires HasNumberAhead(input, 0)
    ensures HasNumberAhead(junk + input, 0)
    ensures ReadIntValue(junk + input, 0) == ReadIntValue(input, 0)
    ensures ReadIntNext(junk + input, 0) == |junk| + ReadIntNext(input, 0)
  {
    JunkStart(junk, input);
    ShiftedRead(junk, input);
  }

  /** Once the number starts `|junk|` later, it is read the same and ends `|junk|` later. */
  lemma ShiftedRead(junk: seq<char>, input: seq<char>)
    requires HasNumberAhead(input, 0) && HasNumberAhead(junk + input, 0)
    requires NumberStart(junk + input, 0) == |junk| + NumberStart(input, 0)
    ensures ReadIntValue(junk + input, 0) == ReadIntValue(input, 0)
    ensures ReadIntNext(junk + input, 0) == |junk| + ReadIntNext(input, 0)
  {
    var whole := junk + input;
    var j := |junk|;
    var k := NumberStart(input, 0);
    var d := DigitsStart(input, 0);
    var e := DigitsEnd(input, d);
    var v := RunValue(input, d, e);
    ShiftedDigits(junk, input, k, d, e);
    ReadIntAt(input, 0, k, d, e, v);
    ReadIntAt(whole, 0, j + k, j + d, j + e, v);
  }

  /** The sign and the digit run of `input`, seen `|junk|` further on. */
  lemma ShiftedDigits(junk: seq<char>, input: seq<char>, k: nat, d: nat, e: nat)
    requires k < |input| && d == (if input[k] == '-' then k + 1 else k) && e == DigitsEnd(input, d)
    ensures (junk + input)[|junk| + k] == input[k]
    ensures DigitsEnd(junk + input, |junk| + d) == |junk| + e
    ensures RunValue(junk + input, |junk| + d, |junk| + e) == RunValue(input, d, e)
  {
    var whole := junk + input;
    var j := |junk|;
    assert whole[j + k] == input[k];
    RunAfter(junk, input, d, e);
    assert e < |input| ==> whole[j + e] == input[e];
    DigitsRun(whole, j + d, j + e);
  }

  /** A digit run after `junk`, read in the whole, has the same value. */
  lemma {:induction false} RunAfter(junk: seq<char>, input: seq<char>, d: nat, e: nat)
    requires d <= e <= |input| && DigitRun(input, d, e)
    ensures DigitRun(junk + input, |junk| + d, |junk| + e)
    ensures RunValue(junk + input, |junk| + d, |junk| + e) == RunValue(input, d, e)
    decreases e - d
  {
    var whole := junk + input;
    forall t | |junk| + d <= t < |junk| + e
      ensures IsDigit(whole[t])
    {
      assert whole[t] == input[t - |junk|];
    }
    if d < e {
      RunAfter(junk, input, d, e - 1);
      assert whole[|junk| + e - 1] == input[e - 1];
    }
  }

  /** `ReadIntValue` and `ReadIntNext` from the sign position `k` and the digit run `[d, e)`. */
  lemma ReadIntAt(input: seq<char>, pos: nat, k: nat, d: nat, e: nat, v: int)
    requires HasNumberAhead(input, pos) && k == NumberStart(input, pos)
    requires d == (if input[k] == '-' then k + 1 else k) && e == DigitsEnd(input, d) && v == RunValue(input, d, e)
    ensures ReadIntValue(input, pos) == if input[k] == '-' then -v else v
    ensures ReadIntNext(input, pos) == if e < |input| then e + 1 else e
  {
  }

  /** Skipped characters in front move the start of the number by their count. */
  lemma JunkStart(junk: seq<char>, input: seq<char>)
    requires forall i :: 0 <= i < |junk| ==> !StartsNumber(junk[i])
    requires HasNumberAhead(input, 0)
    ensures HasNumberAhead(junk + input, 0)
    ensures NumberStart(junk + input, 0) == |junk| + NumberStart(input, 0)
    ensures (junk + input)[|junk| + NumberStart(input, 0)] == input[NumberStart(input, 0)]
  {
    var whole := junk + input;
    var j := |junk|;
    var k := NumberStart(input, 0);
    assert whole[j + k] == input[k];
    forall m | 0 <= m < j + k
      ensures !StartsNumber(whole[m])
    {
      if m < j {
        assert whole[m] == junk[m];
      } else {
        assert whole[m] == input[m - j];
      }
    }
    StartAfter(whole, 0, j + k);
  }

  /** `NumberStart` finds the first digit or `-` of the input. */
  lemma {:induction false} StartAfter(input: seq<char>, pos: nat, k: nat)
    requires pos <= k < |input| && StartsNumber(input[k])
    requires forall m :: pos <= m < k ==> !StartsNumber(input[m])
    ensures HasNumberAhead(input, pos) && NumberStart(input, pos) == k
    decreases k - pos
  {
    if pos < k {
      StartAfter(input, pos + 1, k);
    }
  }

  // ---------------------------------------------------------------------
  // One decimal place
  // ---------------------------------------------------------------------

  /** `Print1FDiv` is defined when its arithmetic stays within `int`. */
  predicate Print1FDivDefined(x: int, y: int) {
    y != 0 && IsI32(x * 100) && IsI32(CDiv(x * 100, y) + 5)
  }

  /**
   * `Print1FDiv`: `ans = x * 100 / y`, then `(ans + 5) / 100`, a point, and
   * the tens digit of `(ans + 5) % 100`; all divisions truncate.
   */
  function Print1FDiv(x: int, y: int): (s: string)
    requires Print1FDivDefined(x, y)
  {
    var ans := CDiv(x * 100, y);
    var up := CDiv(ans + 5, 100);
    var down := CMod(ans + 5, 100);
    var up', down' := if down >= 100 then up + 1 else up, if down >= 100 then down - 100 else down;
    assert IsI32(up') by { UpInRange(ans); }
    PrintInt(up') + "." + [(CDiv(down', 10) + '0' as int) as char]
  }

  lemma UpInRange(ans: int)
    requires IsI32(ans + 5)
    ensures IsI32(CDiv(ans + 5, 100) + 1) && CDiv(ans + 5, 100) != I32_MIN
    ensures IsI32(CDiv(ans + 5, 100))
  {
  }

  /** `Down` is a remainder by 100, so the branch for `Down >= 100` never runs. */
  lemma CarryBranchDead(x: int, y: int)
    requires Print1FDivDefined(x, y)
    ensures CMod(CDiv(x * 100, y) + 5, 100) < 100
  {
  }

  /**
   * For a non-negative ratio: the text is the integer part, a point and one
   * digit, and the ten-fold value it denotes is `(ans + 5) / 10` with
   * `ans` the ratio in hundredths, truncated: at most half a tenth above
   * the hundredths and never below them.
   */
  lemma Print1FDivRounds(x: int, y: int)
    requires Print1FDivDefined(x, y) && x >= 0 && y > 0
    ensures var ans := (x * 100) / y; var up := (ans + 5) / 100; var digit := (ans + 5) % 100 / 10;
            Print1FDiv(x, y) == IntToString(up) + "." + [DigitChar(digit)]
            && 10 * up + digit == (ans + 5) / 10
            && 10 * ans <= 100 * (10 * up + digit) + 50 && 100 * (10 * up + digit) <= 10 * ans + 50
  {
    var ans := (x * 100) / y;
    Print1FDivText(x, y, ans);
    TenthsDigits(ans);
  }

  /** With non-negative operands every truncation is Dafny's division. */
  lemma Print1FDivText(x: int, y: int, ans: int)
    requires Print1FDivDefined(x, y) && x >= 0 && y > 0 && ans == (x * 100) / y
    ensures ans >= 0 && Print1FDiv(x, y) == IntToString((ans + 5) / 100) + "." + [DigitChar((ans + 5) % 100 / 10)]
  {
    assert CDiv(x * 100, y) == ans by { NonNegDiv(x * 100, y); }
    assert ans >= 0;
    NonNegDiv(ans + 5, 100);
    var down := (ans + 5) % 100;
    NonNegDiv(down, 10);
    assert CMod(ans + 5, 100) == down;
    assert (CDiv(down, 10) + '0' as int) as char == DigitChar(down / 10);
  }

  /** The tenths `(ans + 5) / 10` split into `up` and the digit, and their distance from `ans`. */
  lemma TenthsDigits(ans: int)
    requires ans >= 0
    ensures var up := (ans + 5) / 100; var digit := (ans + 5) % 100 / 10;
            10 * up + digit == (ans + 5) / 10
            && 10 * ans <= 100 * (10 * up + digit) + 50 && 100 * (10 * up + digit) <= 10 * ans + 50
  {
    var t := ans + 5;
    var up, r := t / 100, t % 100;
    assert t == 100 * up + r && 0 <= r < 100;
    var digit, r' := r / 10, r % 10;
    assert r == 10 * digit + r' && 0 <= r' < 10;
    assert t == 10 * (10 * up + digit) + r';
    assert t / 10 == 10 * up + digit;
  }

  /** C's truncating division agrees with Dafny's on non-negative operands. */
  lemma NonNegDiv(a: int, b: int)
    requires a >= 0 && b > 0
    ensures CDiv(a, b) == a / b && CMod(a, b) == a % b
  {
  }

  // ---------------------------------------------------------------------
  // Lines
  // ---------------------------------------------------------------------

  /** The first position at or after `pos` that ends a line: `\n`, a NUL, or the end. */
  function LineEnd(input: seq<char>, pos: nat): (e: nat)
    requires pos <= |input|
    ensures pos <= e <= |input|
    ensures forall k :: pos <= k < e ==> input[k] != '\n' && input[k] as int > 0
    ensures e < |input| ==> input[e] == '\n' || input[e] as int <= 0
    decreases |input| - pos
  {
    if pos == |input| || input[pos] == '\n' || input[pos] as int <= 0 then pos
    else LineEnd(input, pos + 1)
  }

  /**
   * `ReadLine`: -1 at the end of the input (a NUL counts as the end);
   * otherwise the characters up to the next line break or the end are
   * stored in `s`, followed by a 0, and their number is returned.
   */
  method ReadLine(s: array<int>, input: seq<char>, pos: nat) returns (len: int, next: nat)
    requires pos <= |input|
    requires pos < |input| ==> LineEnd(input, pos) - pos < s.Length
    modifies s
    ensures CharCode(input, pos) <= 0 ==> len == -1 && s[..] == old(s[..]) && next == (if pos < |input| then pos + 1 else pos)
    ensures CharCode(input, pos) > 0 ==>
              var e := LineEnd(input, pos);
              && len == e - pos && len < s.Length && s[len] == 0
              && (forall k :: 0 <= k < len ==> s[k] == input[pos + k] as int)
              && (forall k :: len < k < s.Length ==> s[k] == old(s[k]))
              && next == (if e < |input| then e + 1 else e)
  {
    var i := pos;
    var ch := CharCode(input, i);
    if ch <= 0 {
      return -1, if pos < |input| then pos + 1 else pos;
    }
    var e := LineEnd(input, pos);
    len := 0;
    while ch != '\n' as int && ch > 0
      invariant pos <= i <= e && len == i - pos && ch == CharCode(input, i)
      invariant forall k :: 0 <= k < len ==> s[k] == input[pos + k] as int
      invariant forall k :: len <= k < s.Length ==> s[k] == old(s[k])
      decreases e - i
    {
      s[len] := ch;
      i := i + 1;
      ch := CharCode(input, i);
      len := len + 1;
    }
    s[len] := 0;
    next := if i < |input| then i + 1 else i;
  }
}
