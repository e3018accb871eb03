/** ft_itoa and ft_atoi: the printer fills a buffer of exactly the computed length from its end, and
    the parser undoes it. */
module Numbers {
  import opened CStrings

  const INT_MIN := -0x8000_0000
  const INT_MAX := 0x7FFF_FFFF

  // Assigning to a variable of this type checks that no signed overflow happens.
  type int32 = x: int | INT_MIN <= x <= INT_MAX

  function Abs(n: int): nat { if n < 0 then -n else n }

  // The C division by 10, which truncates toward zero.
  function Tenth(n: int32): (q: int32) { if n >= 0 then n / 10 else -((-(n as int)) / 10) }

  // ---- decimal notation ----

  function Digit(d: nat): char
    requires d < 10
  {
    '0' + d as char
  }

  function Digits(m: nat): string {
    if m == 0 then "" else Digits(m / 10) + [Digit(m % 10)]
  }

  function Decimal(n: int): string {
    if n == 0 then "0" else if n < 0 then "-" + Digits(-n) else Digits(n)
  }

  function DigitCount(m: nat): nat {
    if m == 0 then 0 else 1 + DigitCount(m / 10)
  }

  lemma {:induction false} DigitsLength(m: nat)
    ensures |Digits(m)| == DigitCount(m)
  {
    if m != 0 { DigitsLength(m / 10); }
  }

  lemma LastDigit(m: nat)
    ensures m == 0 ==> Digits(m) == "" && DigitCount(m) == 0
    ensures m > 0 ==> Digits(m) == Digits(m / 10) + [Digit(m % 10)] && DigitCount(m) == 1 + DigitCount(m / 10)
  {}

  // ---- ft_itoa ----

  // ft_numlen in base 10
  method Numlen(n: int32) returns (count: nat)
    ensures count == (if n <= 0 then 1 else 0) + DigitCount(Abs(n))
  {
    var m := n;
    count := 0;
    if m <= 0 {
      count := count + 1;
    }
    while m != 0
      invariant count + DigitCount(Abs(m)) == (if n <= 0 then 1 else 0) + DigitCount(Abs(n))
      decreases Abs(m)
    {
      count := count + 1;
      m := Tenth(m);
    }
  }

  // The digits of num end up just before position len.
  method Numstorage(len: nat, num: int32, a: array<char>)
    requires num >= 0 && DigitCount(num) <= len <= a.Length
    modifies a
    ensures var start := len - DigitCount(num);
            && a[start..len] == Digits(num)
            && a[..start] == old(a[..start]) && a[len..] == old(a[len..])
  {
    DigitsLength(num);
    var i: int, n := len, num;
    i := i - 1;
    while n > 0
      invariant 0 <= n <= num && 0 <= DigitCount(n) == i + 1 - (len - DigitCount(num))
      invariant i < len && Digits(num) == Digits(n) + a[i + 1..len]
      invariant a[..i + 1] == old(a[..i + 1]) && a[len..] == old(a[len..])
      decreases n
    {
      a[i] := Digit(n % 10);
      assert a[i..len] == [a[i]] + a[i + 1..len];
      n := n / 10;
      i := i - 1;
    }
  }

  lemma InThree(s: string, i: nat, j: nat)
    requires i <= j <= |s|
    ensures s == s[..i] + s[i..j] + s[j..]
  {}

  // ft_itoa; granted says whether malloc gives the buffer.  All its cells are determined by the
  // contract, so all were written.
  method Itoa(n: int32, granted: bool) returns (r: array?<char>)
    ensures r == null <==> !granted
    ensures r != null ==> fresh(r) && r[..] == Decimal(n) + ['\0']
  {
    hide Digits, DigitCount;
    LastDigit(Abs(n));
    var len := Numlen(n);
    if !granted {
      return null;
    }
    var a := new char[len + 1];
    a[len] := '\0';
    var m: int32 := n;
    if m < 0 {
      a[0] := '-';
      if m == INT_MIN {
        len := len - 1;
        a[len] := '8';
        m := Tenth(m);
      }
      m := m * -1;
    }
    if m == 0 {
      a[0] := '0';
    }
    ghost var start := len - DigitCount(m);
    assert a[..start] == if n < 0 then "-" else if n == 0 then "0" else "";
    assert a[len..] == if n == INT_MIN then ['8', '\0'] else ['\0'];
    Numstorage(len, m, a);
    InThree(a[..], start, len);
    return a;
  }

  // ---- ft_atoi ----

  // Signed arithmetic that wraps around, which is what INT_MIN and longer numbers would need.
  function Wrap(x: int): int32 {
    (x - INT_MIN) % 0x1_0000_0000 + INT_MIN
  }

  predicate IsSpace(c: char) {
    c == ' ' || c == '\t' || c == '\n' || c == 12 as char || c == 11 as char || c == '\r'
  }

  predicate IsDigit(c: char) { '0' <= c <= '9' }

  // A letter or the escape character.
  predicate StopsParse(c: char) { 'A' <= c <= 'Z' || 'a' <= c <= 'z' || c == 27 as char }

  function SkipSpaces(s: string, i: nat): (j: nat)
    requires i <= |s|
    ensures i <= j <= |s|
    ensures forall k :: i <= k < j ==> IsSpace(s[k])
    ensures j < |s| ==> !IsSpace(s[j])
    decreases |s| - i
  {
    if i < |s| && IsSpace(s[i]) then SkipSpaces(s, i + 1) else i
  }

  // The value read from the digits that start at i, on top of what was read before.
  function ReadDigits(s: string, i: nat, value: int): int
    requires i <= |s|
    decreases |s| - i
  {
    if i < |s| && IsDigit(s[i]) then ReadDigits(s, i + 1, 10 * value + (s[i] as int - '0' as int)) else value
  }

  // Nothing but white space: the step over the sign then runs past the end of the string.
  predicate Blank(s: string) { SkipSpaces(s, 0) == |s| }

  // At most one character that is no digit is skipped after the white space.
  function Parsed(s: string): int32
    requires !Blank(s)
  {
    var i := SkipSpaces(s, 0);
    if StopsParse(s[i]) then 0
    else
      var sign := if s[i] == '-' then -1 else 1;
      var j := if IsDigit(s[i]) then i else i + 1;
      Wrap(Wrap(ReadDigits(s, j, 0)) * sign)
  }

  lemma WrapStep(x: int, d: int)
    ensures Wrap(10 * Wrap(x) + d) == Wrap(10 * x + d)
  {
    var k := (x - INT_MIN) / 0x1_0000_0000;
    assert Wrap(x) == x - 0x1_0000_0000 * k;
    WrapShift(10 * x + d, 10 * k);
  }

  lemma WrapShift(x: int, k: int)
    ensures Wrap(x - 0x1_0000_0000 * k) == Wrap(x)
  {
    var m := 0x1_0000_0000;
    var y := x - INT_MIN;
    assert y == (y / m) * m + y % m;
    ModUnique(y - m * k, m, y / m - k, y % m);
  }

  lemma ModUnique(y: int, m: int, q: int, r: int)
    requires m > 0 && y == q * m + r && 0 <= r < m
    ensures y % m == r
  {
    var q', r' := y / m, y % m;
    assert y == q' * m + r';
    assert (q - q') * m == r' - r;
    if q > q' { assert (q - q') * m >= m by { MulAtLeast(q - q', m); } }
    if q < q' { assert (q' - q) * m >= m by { MulAtLeast(q' - q, m); } }
  }

  lemma MulAtLeast(a: int, m: int)
    requires a >= 1 && m > 0
    ensures a * m >= m
  {
    assert (a - 1) * m >= 0;
  }

  // ft_atoi; overrun says that a character after the terminating NUL would be read.
  method Atoi(s: string) returns (overrun: bool, r: int32)
    requires '\0' !in s
    ensures overrun <==> Blank(s)
    ensures !overrun ==> r == Parsed(s)
  {
    var i, sign, temp: int32 := 0, 1, 0;
    while IsSpace(At(s, i))
      invariant 0 <= i <= |s| && SkipSpaces(s, 0) == SkipSpaces(s, i)
      decreases |s| - i
    {
      i := i + 1;
    }
    if StopsParse(At(s, i)) {
      return false, 0;
    }
    if At(s, i) == '-' {
      sign := -1;
    }
    if At(s, i) < '0' || At(s, i) > '9' {
      i := i + 1;
    }
    if i > |s| {
      return true, 0;
    }
    // The early return of line 33 asks for a character both below '0' and above '9'.
    ghost var j, value := i, 0;
    while IsDigit(At(s, i))
      invariant j <= i <= |s| && ReadDigits(s, j, 0) == ReadDigits(s, i, value) && temp == Wrap(value)
      decreases |s| - i
    {
      var d := At(s, i) as int - '0' as int;
      WrapStep(value, d);
      value := 10 * value + d;
      temp := Wrap(temp * 10 + d);
      i := i + 1;
    }
    return false, Wrap(temp * sign);
  }

  lemma {:induction false} DigitsAreDigits(m: nat)
    ensures m > 0 ==> |Digits(m)| > 0
    ensures forall k :: 0 <= k < |Digits(m)| ==> IsDigit(Digits(m)[k])
  {
    if m > 0 { DigitsAreDigits(m / 10); }
  }

  // ft_atoi reads past exactly the strings of white space alone, such as the empty one.
  lemma BlankIsOnlySpaces(s: string)
    ensures Blank(s) <==> forall k :: 0 <= k < |s| ==> IsSpace(s[k])
    ensures Blank("")
  {
    var j := SkipSpaces(s, 0);
    if j < |s| { assert !IsSpace(s[j]); }
  }

  // ---- what the printer writes and what the parser reads ----

  // The number a string of digits stands for.
  function NumberOf(d: string): nat
    requires forall k :: 0 <= k < |d| ==> IsDigit(d[k])
  {
    if d == "" then 0
    else
      assert IsDigit(d[|d| - 1]);
      10 * NumberOf(d[..|d| - 1]) + (d[|d| - 1] as nat - '0' as nat)
  }

  // The notation is digits of the absolute value with a minus sign for a negative number and no other
  // sign, and only 0 starts with a 0.
  lemma DecimalIsCanonical(n: int)
    ensures Decimal(n) != ""
    ensures var digits := if n < 0 then Decimal(n)[1..] else Decimal(n);
            && (n < 0 ==> Decimal(n)[0] == '-')
            && digits != "" && (forall k :: 0 <= k < |digits| ==> IsDigit(digits[k]))
            && NumberOf(digits) == Abs(n) && (digits[0] == '0' <==> n == 0)
  {
    hide Digits;
    DigitsAreDigits(Abs(n));
    if n != 0 {
      DigitsMean(Abs(n));
      if n < 0 { assert Decimal(n)[1..] == Digits(-n); }
    } else {
      assert "0"[..0] == "";
    }
  }

  lemma {:induction false} DigitsMean(m: nat)
    requires m > 0
    ensures Digits(m) != "" && (forall k :: 0 <= k < |Digits(m)| ==> IsDigit(Digits(m)[k]))
    ensures NumberOf(Digits(m)) == m && Digits(m)[0] != '0'
  {
    DigitsAreDigits(m);
    LastDigit(m);
    assert Digits(m)[..|Digits(m)| - 1] == Digits(m / 10);
    if m >= 10 { DigitsMean(m / 10); } else { LastDigit(0); }
  }

  // Reading a run of digits from left to right makes the number they stand for of the value before.
  lemma {:induction false} ReadsDigits(s: string, i: nat, d: string, tail: string)
    requires i <= |s| && s[i..] == d + tail && forall k :: 0 <= k < |d| ==> IsDigit(d[k])
    ensures ReadDigits(s, i, 0) == ReadDigits(s, i + |d|, NumberOf(d))
  {
    if d != "" {
      var front, last := d[..|d| - 1], d[|d| - 1];
      assert d + tail == front + ([last] + tail);
      ReadsDigits(s, i, front, [last] + tail);
      assert s[i + |front|] == (d + tail)[|front|] == last;
    }
  }

  lemma WrapTwice(x: int, sign: int)
    requires sign == 1 || sign == -1
    ensures Wrap(Wrap(x) * sign) == Wrap(x * sign)
    ensures INT_MIN <= x <= INT_MAX ==> Wrap(x) == x
  {
    var k := (x - INT_MIN) / 0x1_0000_0000;
    assert Wrap(x) == x - 0x1_0000_0000 * k;
    WrapShift(x * sign, k * sign);
    assert (x - 0x1_0000_0000 * k) * sign == x * sign - 0x1_0000_0000 * (k * sign);
  }

  // White space, then a letter or the escape character: 0, whatever follows.
  lemma ParsesStop(spaces: string, c: char, tail: string)
    requires (forall k :: 0 <= k < |spaces| ==> IsSpace(spaces[k])) && StopsParse(c)
    ensures !Blank(spaces + [c] + tail) && Parsed(spaces + [c] + tail) == 0
  {
    SkipsTo(spaces + [c] + tail, |spaces|, 0);
  }

  lemma ParsedFrom(s: string, i: nat, value: int)
    requires i < |s| && SkipSpaces(s, 0) == i && !StopsParse(s[i])
    requires ReadDigits(s, if IsDigit(s[i]) then i else i + 1, 0) == value
    ensures var n: int := if s[i] == '-' then -value else value;
            !Blank(s) && Parsed(s) == Wrap(n) && (INT_MIN <= n <= INT_MAX ==> Parsed(s) == n)
  {
    hide ReadDigits, SkipSpaces;
    var sign := if s[i] == '-' then -1 else 1;
    WrapTwice(value, sign);
    WrapTwice(value * sign, 1);
  }

  // White space, then at most one character that is neither digit nor letter nor escape, then digits:
  // their number, negated after a minus sign and after no other character, wrapped to 32 bits.  Every
  // string that is not blank is of this form or of the one above.
  lemma ParsesNumber(spaces: string, mark: string, d: string, tail: string)
    requires forall k :: 0 <= k < |spaces| ==> IsSpace(spaces[k])
    requires |mark| <= 1 && (mark != "" ==> !IsSpace(mark[0]) && !StopsParse(mark[0]) && !IsDigit(mark[0])) && mark + d != ""
    requires (forall k :: 0 <= k < |d| ==> IsDigit(d[k])) && (tail != "" ==> !IsDigit(tail[0]))
    ensures var s := spaces + mark + d + tail;
            var n: int := if mark == "-" then -(NumberOf(d) as int) else NumberOf(d);
            !Blank(s) && Parsed(s) == Wrap(n) && (INT_MIN <= n <= INT_MAX ==> Parsed(s) == n)
  {
    hide ReadDigits, NumberOf, SkipSpaces, Parsed, Blank, Wrap;
    var s, i, j := spaces + mark + d + tail, |spaces|, |spaces| + |mark|;
    FirstAfter(mark, d);
    assert s[i] == (mark + d)[0];
    assert forall k :: 0 <= k < i ==> s[k] == spaces[k];
    SkipsTo(s, i, 0);
    assert s[j..] == d + tail;
    ReadsDigits(s, j, d, tail);
    ReadsNoMore(s, j + |d|, NumberOf(d));
    ParsedFrom(s, i, NumberOf(d));
  }

  lemma FirstAfter(mark: string, d: string)
    requires |mark| <= 1 && (mark != "" ==> !IsSpace(mark[0]) && !StopsParse(mark[0]) && !IsDigit(mark[0])) && mark + d != ""
    requires forall k :: 0 <= k < |d| ==> IsDigit(d[k])
    ensures var c := (mark + d)[0]; !IsSpace(c) && !StopsParse(c) && (IsDigit(c) <==> mark == "") && (c == '-' <==> mark == "-")
  {
    if mark != "" { assert mark == [mark[0]]; } else { assert mark + d == d; }
  }

  lemma ReadsNoMore(s: string, i: nat, value: int)
    requires i <= |s| && (i < |s| ==> !IsDigit(s[i]))
    ensures ReadDigits(s, i, value) == value
  {}

  lemma {:induction false} SkipsTo(s: string, j: nat, i: nat)
    requires i <= j < |s| && (forall k :: i <= k < j ==> IsSpace(s[k])) && !IsSpace(s[j])
    ensures SkipSpaces(s, i) == j
    decreases j - i
  {
    if i < j { SkipsTo(s, j, i + 1); }
  }

  // The two forms are all there is besides white space.
  lemma NothingElse(s: string) returns (spaces: string, mark: string, d: string, tail: string)
    requires !Blank(s)
    ensures forall k :: 0 <= k < |spaces| ==> IsSpace(spaces[k])
    ensures s == spaces + mark + d + tail && |mark| <= 1 && mark + d != ""
    ensures forall k :: 0 <= k < |d| ==> IsDigit(d[k])
    ensures tail != "" && !(mark != "" && StopsParse(mark[0])) ==> !IsDigit(tail[0])
    ensures mark != "" ==> !IsSpace(mark[0]) && !IsDigit(mark[0])
    ensures mark != "" && StopsParse(mark[0]) ==> d == ""
  {
    hide SkipSpaces, DigitsEnd, IsSpace, IsDigit, StopsParse;
    var i := SkipSpaces(s, 0);
    var j := if IsDigit(s[i]) then i else i + 1;
    var k := if j > i && StopsParse(s[i]) then j else DigitsEnd(s, j);
    spaces, mark, d, tail := s[..i], s[i..j], s[j..k], s[k..];
    assert mark != "" ==> mark[0] == s[i];
    assert tail != "" ==> tail[0] == s[k];
    assert j == i ==> d != "" by { if j == i { assert k > i; } }
    assert forall x :: 0 <= x < |d| ==> d[x] == s[j + x];
    assert forall x :: 0 <= x < |spaces| ==> spaces[x] == s[x];
  }

  function DigitsEnd(s: string, i: nat): (k: nat)
    requires i <= |s|
    ensures i <= k <= |s| && (forall x :: i <= x < k ==> IsDigit(s[x])) && (k < |s| ==> !IsDigit(s[k]))
    decreases |s| - i
  {
    if i < |s| && IsDigit(s[i]) then DigitsEnd(s, i + 1) else i
  }

  // ---- they undo each other ----

  // ft_atoi of ft_itoa is the identity, down to and including INT_MIN.
  lemma RoundTrip(n: int32)
    ensures !Blank(Decimal(n)) && Parsed(Decimal(n)) == n
  {
    hide Digits, Decimal, NumberOf, Blank, Parsed, Wrap;
    DecimalIsCanonical(n);
    var mark, digits := if n < 0 then "-" else "", if n < 0 then Decimal(n)[1..] else Decimal(n);
    ParsesNumber("", mark, digits, "");
    assert "" + mark + digits + "" == Decimal(n);
  }

  // Two numbers never print alike.
  lemma DecimalInjective(m: int32, n: int32)
    ensures Decimal(m) == Decimal(n) <==> m == n
  {
    RoundTrip(m);
    RoundTrip(n);
  }
}
