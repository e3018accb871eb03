/** The number path of ft_printf: digits, padding, pointers, the format loop and the byte count.
    What write(2) sends to standard output is kept as a string; writes are taken to succeed. */
module Printf {
  import opened CStrings

  const LONG_LIMIT := 0x8000_0000_0000_0000
  const LONG_MIN := -LONG_LIMIT
  const INT_LIMIT := 0x8000_0000

  type long = x: int | LONG_MIN <= x < LONG_LIMIT
  type ulong = x: int | 0 <= x < 2 * LONG_LIMIT

  // C converts between the two without being asked.
  function ToLong(n: ulong): long { if n < LONG_LIMIT then n else n - 2 * LONG_LIMIT }
  function ToInt(n: ulong): long { var m := n % (2 * INT_LIMIT); if m < INT_LIMIT then m else m - 2 * INT_LIMIT }
  function ToUnsigned(n: ulong): ulong { n % (2 * INT_LIMIT) }

  // ---- notation in a base ----

  // The digit strings and the number that goes with each.
  datatype Base = Ten | Lower | Upper {
    function Symbols(): string {
      match this
      case Ten => "0123456789"
      case Lower => "0123456789abcdef"
      case Upper => "0123456789ABCDEF"
    }

    function Radix(): nat { if Ten? then 10 else 16 }

    function Over(n: nat): nat { if Ten? then n / 10 else n / 16 }

    function Last(n: nat): nat { if Ten? then n % 10 else n % 16 }

    function Symbol(n: nat): char { Symbols()[Last(n)] }
  }

  function Notation(n: nat, base: Base): (s: string)
    ensures |s| > 0
  {
    if n < base.Radix() then [base.Symbol(n)] else Notation(base.Over(n), base) + [base.Symbol(n)]
  }

  function Signed(n: int, base: Base): string {
    if n < 0 then "-" + Notation(-n, base) else Notation(n, base)
  }

  function ValueOf(c: char): nat {
    if '0' <= c <= '9' then c as nat - '0' as nat
    else if 'a' <= c <= 'f' then c as nat - 'a' as nat + 10
    else if 'A' <= c <= 'F' then c as nat - 'A' as nat + 10
    else 0
  }

  // The number a string of digits stands for.
  function Value(s: string, base: Base): nat {
    if s == "" then 0
    else (if base.Ten? then 10 * Value(s[..|s| - 1], base) else 16 * Value(s[..|s| - 1], base)) + ValueOf(s[|s| - 1])
  }

  lemma SymbolMeans(n: nat, base: Base)
    ensures ValueOf(base.Symbol(n)) == base.Last(n)
  {}

  lemma {:induction false} NotationMeans(n: nat, base: Base)
    ensures Value(Notation(n, base), base) == n
  {
    hide Value, Notation, ValueOf;
    SymbolMeans(n, base);
    NotationStep(n, base);
    OverAndLastMake(n, base);
    if base.Over(n) > 0 { NotationMeans(base.Over(n), base); }
    ValueOfAppend(if base.Over(n) == 0 then "" else Notation(base.Over(n), base), base.Symbol(n), base);
  }

  lemma NotationStep(n: nat, base: Base)
    ensures Notation(n, base) == (if base.Over(n) == 0 then "" else Notation(base.Over(n), base)) + [base.Symbol(n)]
  {}

  lemma OverAndLastMake(n: nat, base: Base)
    ensures n == (if base.Ten? then 10 * base.Over(n) else 16 * base.Over(n)) + base.Last(n)
    ensures base.Over(n) < n || n == 0
  {}

  lemma ValueOfAppend(s: string, c: char, base: Base)
    ensures Value("", base) == 0
    ensures Value(s + [c], base) == (if base.Ten? then 10 * Value(s, base) else 16 * Value(s, base)) + ValueOf(c)
  {
    assert (s + [c])[..|s|] == s;
  }

  // Canonical: only 0 is written with a 0 in front.
  lemma {:induction false} NotationIsCanonical(n: nat, base: Base)
    ensures Notation(n, base)[0] == '0' <==> n == 0
    ensures n == 0 ==> Notation(n, base) == "0"
  {
    SymbolMeans(n, base);
    if n >= base.Radix() { NotationIsCanonical(base.Over(n), base); }
  }

  lemma {:induction false} LeadingZeros(k: nat, s: string, base: Base)
    requires |s| > 0
    ensures Value(Zeros(k) + s, base) == Value(s, base)
    decreases |s|
  {
    assert (Zeros(k) + s)[..|Zeros(k) + s| - 1] == Zeros(k) + s[..|s| - 1];
    if |s| > 1 {
      LeadingZeros(k, s[..|s| - 1], base);
    } else {
      assert Zeros(k) + s[..0] == Zeros(k) && s[..0] == "";
      ZerosAreZero(k, base);
    }
  }

  function Zeros(k: nat): (s: string)
    ensures |s| == k
  {
    if k == 0 then "" else Zeros(k - 1) + ['0']
  }

  lemma {:induction false} ZerosAreZero(k: nat, base: Base)
    ensures Value(Zeros(k), base) == 0
  {
    if k > 0 {
      ZerosAreZero(k - 1, base);
      assert Zeros(k)[..k - 1] == Zeros(k - 1);
    }
  }

  // The two numbers that ft_putpointer has ready-made strings for.
  lemma LeastLong()
    ensures Notation(0x8000_0000_0000_0000, Lower) == "8000000000000000"
  {
    assert Notation(0x8000, Lower) == "8000";
    assert Notation(0x8000_0000, Lower) == "80000000";
    assert Notation(0x8000_0000_0000, Lower) == "800000000000";
  }

  lemma GreatestLong()
    ensures Notation(0x7fff_ffff_ffff_ffff, Lower) == "7fffffffffffffff"
  {
    assert Notation(0x7fff, Lower) == "7fff";
    assert Notation(0x7fff_ffff, Lower) == "7fffffff";
    assert Notation(0x7fff_ffff_ffff, Lower) == "7fffffffffff";
  }

  // ft_numlen_base
  method NumlenBase(n: ulong, base: Base) returns (i: nat)
    ensures i == |Notation(n, base)|
  {
    var m: ulong := n;
    i := 1;
    while m >= base.Radix()
      invariant i + |Notation(m, base)| == 1 + |Notation(n, base)|
      decreases m
    {
      m := base.Over(m);
      i := i + 1;
    }
  }

  // ---- standard output ----

  datatype Text = Null | Chars(chars: string)

  function Shown(s: Text): string { if s.Null? then "(null)" else s.chars }

  // What ft_putnbr_base sends; for the least long it is one too large, in absolute value.
  function Printed(n: long, base: Base): string {
    if n == LONG_MIN then "-9223372036854775807" else Signed(n, base)
  }

  lemma PrintedParts(n: long, base: Base)
    ensures n == LONG_MIN ==> Printed(n, base) == "-9223372036854775807"
    ensures LONG_MIN < n < 0 ==> Printed(n, base) == "-" + Notation(-n, base)
    ensures n >= 0 ==> Printed(n, base) == Notation(n, base)
    ensures n >= 0 ==> Notation(n, base) == (if n < base.Radix() then "" else Notation(base.Over(n), base)) + [base.Symbol(n)]
  {}

  class Output {
    var written: string

    constructor ()
      ensures written == ""
    {
      written := "";
    }

    // ft_putchar
    method Putchar(c: char) returns (n: nat)
      modifies this
      ensures written == old(written) + [c] && n == 1
    {
      written := written + [c];
      n := 1;
    }

    // ft_putstr; a null pointer prints as (null).
    method Putstr(s: Text) returns (n: nat)
      modifies this
      ensures written == old(written) + Shown(s) && n == |Shown(s)|
    {
      if s.Null? {
        written := written + "(null)";
        return 6;
      }
      n := 0;
      while n < |s.chars|
        invariant n <= |s.chars| && written == old(written) + s.chars[..n]
      {
        assert s.chars[..n + 1] == s.chars[..n] + [s.chars[n]];
        written := written + [s.chars[n]];
        n := n + 1;
      }
      assert s.chars[..n] == s.chars;
    }

    // ft_putnbr_base
    method PutnbrBase(n: long, base: Base) returns (count: nat)
      modifies this
      ensures written == old(written) + Printed(n, base) && count == |Printed(n, base)|
      decreases if n < 0 then -(n as int) else n
    {
      hide Printed, Notation;
      var i, m: long := 0, n;
      PrintedParts(n, base);
      if n == LONG_MIN {
        written := written + "-9223372036854775807";
        return 20;
      }
      if m < 0 {
        i := i + 1;
        m := m * -1;
        written := written + "-";
      }
      PrintedParts(m, base);
      if m >= base.Radix() {
        PrintedParts(base.Over(m), base);
        var ignored := PutnbrBase(base.Over(m), base);
      }
      var len := NumlenBase(m, base);
      i := i + len;
      written := written + [base.Symbol(m)];
      return i;
    }

    // ft_puthex
    method Puthex(n: ulong, base: Base) returns (count: nat)
      requires !base.Ten?
      modifies this
      ensures written == old(written) + Notation(n, base) && count == |Notation(n, base)|
    {
      if n >= 16 {
        var ignored := PutnbrBase(n / 16, base);
      }
      count := NumlenBase(n, base);
      written := written + [base.Symbol(n)];
    }

    // ft_putpointer: two hard-coded cases and the general one.
    method Putpointer(n: ulong) returns (count: nat)
      modifies this
      ensures written == old(written) + "0x" + Notation(n, Lower)
      ensures count == 2 + |Notation(n, Lower)|
    {
      hide Notation;
      if ToLong(n) == LONG_MIN {
        LeastLong();
        written := written + "0x8000000000000000";
        return 18;
      }
      if ToLong(n) == LONG_LIMIT - 1 {
        GreatestLong();
        written := written + "0x7fffffffffffffff";
        return 18;
      }
      var two := Putstr(Chars("0x"));
      var digits := Puthex(n, Lower);
      return digits + two;
    }

    // put_padded_hex
    method PutPaddedHex(f: Format, n: ulong) returns (count: nat)
      requires n < 2 * INT_LIMIT
      modifies this
      ensures written == old(written) + Padded(f, n) && count == |Padded(f, n)|
    {
      hide Notation;
      var base := if f.kind == 'x' then Lower else Upper;
      var len := NumlenBase(n, base);
      var pad := 0;
      while f.zero && len + pad < f.width
        invariant f.zero && len < f.width ==> len + pad <= f.width
        invariant !(f.zero && len < f.width) ==> pad == 0
        invariant written == old(written) + Zeros(pad)
      {
        var one := Putchar('0');
        pad := pad + 1;
      }
      var digits := Puthex(n, base);
      return len + pad;
    }

    // ft_flagcheck; the arguments used up are taken off the front.
    method Flagcheck(f: Format, args: seq<Arg>) returns (count: nat, rest: seq<Arg>)
      requires Ready(f, args)
      modifies this
      ensures written == old(written) + Directive(f, args) && count == |Directive(f, args)|
      ensures Says(f, args, written[|old(written)|..])
      ensures rest == if f.kind in {'d', 'i', 'c', 's', 'u', 'x', 'X', 'p', 'z'} then args[1..] else args
    {
      hide Notation, Padded, Says;
      DirectiveSays(f, args);
      rest := args[Takes(f)..];
      if f.kind == 'd' || f.kind == 'i' {
        count := PutnbrBase(ToInt(args[0].n), Ten);
      } else if f.kind == 'c' {
        count := Putchar((args[0].n % 256) as char);
      } else if f.kind == 's' {
        count := Putstr(args[0].text);
      } else if f.kind == 'u' {
        count := PutnbrBase(ToUnsigned(args[0].n), Ten);
      } else if f.kind == 'x' || f.kind == 'X' {
        count := PutPaddedHex(f, ToUnsigned(args[0].n));
      } else if f.kind == 'p' {
        count := Putpointer(args[0].n);
      } else if f.kind == 'z' {
        count := PutnbrBase(ToLong(args[0].n), Ten);
      } else if f.kind == '%' {
        count := Putchar('%');
      } else {
        count := 0;
      }
    }

    // ft_printf; overrun says that the format would be read beyond its terminating NUL.
    method Print(s: string, args: seq<Arg>) returns (overrun: bool, count: nat)
      requires '\0' !in s && Matches(s, 0, args)
      modifies this
      ensures overrun <==> !WellFormed(s, 0)
      ensures !overrun ==> written == old(written) + Rendered(s, 0, args) && count == |Rendered(s, 0, args)|
    {
      hide Parse, Directive, Ready, WellFormed, Matches, Rendered, Says;
      var i, rest := 0, args;
      count := 0;
      ghost var sent := "";
      while i < |s|
        invariant 0 <= i <= |s| && (WellFormed(s, i) <==> WellFormed(s, 0)) && Matches(s, i, rest)
        invariant written == old(written) + sent && count == |sent|
        invariant WellFormed(s, 0) ==> Rendered(s, 0, args) == sent + Rendered(s, i, rest)
        decreases |s| - i
      {
        OneStep(s, i, rest);
        if s[i] == '%' {
          var f, j := ParseFormat(s, i);
          ghost var piece := Directive(f, rest);
          var n, left := Flagcheck(f, rest);
          count, rest := count + n, left;
          assert written == old(written) + (sent + piece);
          sent := sent + piece;
          i := j + 1;
          if i > |s| {
            return true, count;
          }
        } else {
          var n := Putchar(s[i]);
          assert written == old(written) + (sent + [s[i]]);
          sent := sent + [s[i]];
          count := count + n;
          i := i + 1;
        }
      }
      OneStep(s, i, rest);
      return false, count;
    }
  }

  // ---- formats ----

  // t_format
  datatype Format = Format(zero: bool, width: nat, kind: char)

  // One variadic argument: a machine word, or a string.
  datatype Arg = Word(n: ulong) | Str(text: Text)

  // Reads the digits 1 to 9 that start at i; a later 0 ends the width.
  function Width(s: string, i: nat, width: nat): (r: (nat, nat))
    requires i <= |s|
    ensures i <= r.1 <= |s|
    decreases |s| - i
  {
    if i < |s| && '1' <= s[i] <= '9' then Width(s, i + 1, width * 10 + (s[i] as nat - '0' as nat)) else (width, i)
  }

  // The directive that starts at i, and the position at which its parsing stops.
  function Parse(s: string, i: nat): (r: (Format, nat))
    requires i < |s|
    ensures i < r.1 <= |s|
  {
    var zero := At(s, i + 1) == '0';
    var (width, k) := Width(s, if zero then i + 2 else i + 1, 0);
    var kind := At(s, k);
    (Format(zero, width, kind), if kind == 'z' then k + 1 else k)
  }

  // parse_format
  method ParseFormat(s: string, i: nat) returns (f: Format, j: nat)
    requires i < |s|
    ensures (f, j) == Parse(s, i)
  {
    var zero, width: nat := false, 0;
    j := i + 1;
    if At(s, j) == '0' {
      zero := true;
      j := j + 1;
    }
    ghost var start := j;
    while '1' <= At(s, j) <= '9'
      invariant start <= j <= |s| && Width(s, start, 0) == Width(s, j, width)
      decreases |s| - j
    {
      width := width * 10 + (At(s, j) as nat - '0' as nat);
      j := j + 1;
    }
    f := Format(zero, width, At(s, j));
    if f.kind == 'z' {
      j := j + 1;
    }
  }

  function Takes(f: Format): nat {
    if f.kind in {'d', 'i', 'c', 's', 'u', 'x', 'X', 'p', 'z'} then 1 else 0
  }

  // The argument a directive asks for is there and of its kind.
  predicate Ready(f: Format, args: seq<Arg>) {
    Takes(f) == 1 ==> args != [] && (args[0].Str? <==> f.kind == 's')
  }

  function Padded(f: Format, n: nat): string {
    var digits := Notation(n, if f.kind == 'x' then Lower else Upper);
    if f.zero && |digits| < f.width then Zeros(f.width - |digits|) + digits else digits
  }

  function Directive(f: Format, args: seq<Arg>): string
    requires Ready(f, args)
  {
    if f.kind == 'd' || f.kind == 'i' then Printed(ToInt(args[0].n), Ten)
    else if f.kind == 'c' then [(args[0].n % 256) as char]
    else if f.kind == 's' then Shown(args[0].text)
    else if f.kind == 'u' then Printed(ToUnsigned(args[0].n), Ten)
    else if f.kind == 'x' || f.kind == 'X' then Padded(f, ToUnsigned(args[0].n))
    else if f.kind == 'p' then "0x" + Notation(args[0].n, Lower)
    else if f.kind == 'z' then Printed(ToLong(args[0].n), Ten)
    else if f.kind == '%' then "%"
    else ""
  }

  // No directive runs into the end of the format.
  predicate WellFormed(s: string, i: nat)
    requires i <= |s|
    decreases |s| - i
  {
    if i == |s| then true
    else if s[i] != '%' then WellFormed(s, i + 1)
    else Parse(s, i).1 < |s| && WellFormed(s, Parse(s, i).1 + 1)
  }

  predicate Matches(s: string, i: nat, args: seq<Arg>)
    requires i <= |s|
    decreases |s| - i
  {
    if i == |s| then true
    else if s[i] != '%' then Matches(s, i + 1, args)
    else
      var (f, j) := Parse(s, i);
      Ready(f, args) && (j < |s| ==> Matches(s, j + 1, args[Takes(f)..]))
  }

  function Rendered(s: string, i: nat, args: seq<Arg>): string
    requires i <= |s| && WellFormed(s, i) && Matches(s, i, args)
    decreases |s| - i
  {
    if i == |s| then ""
    else if s[i] != '%' then [s[i]] + Rendered(s, i + 1, args)
    else
      var (f, j) := Parse(s, i);
      Directive(f, args) + Rendered(s, j + 1, args[Takes(f)..])
  }

  // One round of the loop of ft_printf.
  lemma OneStep(s: string, i: nat, args: seq<Arg>)
    requires i <= |s| && Matches(s, i, args)
    ensures i == |s| ==> WellFormed(s, i) && Rendered(s, i, args) == ""
    ensures i < |s| && s[i] != '%' ==>
              && Matches(s, i + 1, args) && (WellFormed(s, i) <==> WellFormed(s, i + 1))
              && (WellFormed(s, i) ==> Rendered(s, i, args) == [s[i]] + Rendered(s, i + 1, args))
    ensures i < |s| && s[i] == '%' ==>
              var (f, j) := Parse(s, i);
              && Ready(f, args)
              && if j == |s| then !WellFormed(s, i)
                 else
                   && Matches(s, j + 1, args[Takes(f)..]) && (WellFormed(s, i) <==> WellFormed(s, j + 1))
                   && (WellFormed(s, i) ==> Rendered(s, i, args) == Directive(f, args) + Rendered(s, j + 1, args[Takes(f)..]))
  {}

  // ---- what the pieces mean ----

  // A digit of the base, in its letter case.
  predicate IsDigit(c: char, base: Base) {
    || '0' <= c <= '9'
    || (base.Lower? && 'a' <= c <= 'f')
    || (base.Upper? && 'A' <= c <= 'F')
  }

  // Canonical digits that stand for n.
  predicate Numeral(s: string, base: Base, n: nat) {
    && s != "" && (forall k :: 0 <= k < |s| ==> IsDigit(s[k], base))
    && Value(s, base) == n && (s[0] == '0' ==> |s| == 1)
  }

  predicate SignedNumeral(s: string, n: int) {
    if n < 0 then s != "" && s[0] == '-' && Numeral(s[1..], Ten, -n) else Numeral(s, Ten, n)
  }

  lemma {:induction false} NotationIsNumeral(n: nat, base: Base)
    ensures Numeral(Notation(n, base), base, n)
  {
    NotationMeans(n, base);
    NotationIsCanonical(n, base);
    NotationHasDigits(n, base);
  }

  lemma {:induction false} NotationHasDigits(n: nat, base: Base)
    ensures forall k :: 0 <= k < |Notation(n, base)| ==> IsDigit(Notation(n, base)[k], base)
  {
    if n >= base.Radix() { NotationHasDigits(base.Over(n), base); }
  }

  // There is one such text for each number.
  lemma {:induction false} NumeralIsNotation(s: string, base: Base, n: nat)
    requires Numeral(s, base, n)
    ensures s == Notation(n, base)
    decreases |s|
  {
    hide Value, Notation, ValueOf, IsDigit;
    var front, c := s[..|s| - 1], s[|s| - 1];
    LastOf(s, base);
    SymbolOf(c, base);
    NotationStep(n, base);
    assert s == front + [c];
    if |s| > 1 {
      assert front[0] == s[0];
      PositiveValue(front, base);
      NumeralIsNotation(front, base, base.Over(n));
    }
  }

  lemma LastOf(s: string, base: Base)
    requires s != "" && forall k :: 0 <= k < |s| ==> IsDigit(s[k], base)
    ensures var n := Value(s, base); base.Last(n) == ValueOf(s[|s| - 1]) && base.Over(n) == Value(s[..|s| - 1], base)
    ensures |s| == 1 ==> Value(s[..|s| - 1], base) == 0
  {
    hide ValueOf, IsDigit;
    SymbolOf(s[|s| - 1], base);
    OverAndLast(Value(s[..|s| - 1], base), ValueOf(s[|s| - 1]), base);
  }

  lemma OverAndLast(v: nat, d: nat, base: Base)
    requires d < base.Radix()
    ensures var n := (if base.Ten? then 10 * v else 16 * v) + d; base.Over(n) == v && base.Last(n) == d
  {}

  lemma SymbolOf(c: char, base: Base)
    requires IsDigit(c, base)
    ensures ValueOf(c) < base.Radix() && forall n: nat :: base.Last(n) == ValueOf(c) ==> base.Symbol(n) == c
  {}

  lemma {:induction false} PositiveValue(s: string, base: Base)
    requires s != "" && s[0] != '0' && forall k :: 0 <= k < |s| ==> IsDigit(s[k], base)
    ensures Value(s, base) > 0
    decreases |s|
  {
    if |s| > 1 { PositiveValue(s[..|s| - 1], base); }
  }

  // What a directive is to send, in terms of its argument.
  ghost predicate Says(f: Format, args: seq<Arg>, text: string)
    requires Ready(f, args)
  {
    match f.kind
    case 'd' => SaysInt(args[0].n, text)
    case 'i' => SaysInt(args[0].n, text)
    case 'u' => Numeral(text, Ten, args[0].n % 0x1_0000_0000)
    case 'x' => SaysHex(f, Lower, args[0].n % 0x1_0000_0000, text)
    case 'X' => SaysHex(f, Upper, args[0].n % 0x1_0000_0000, text)
    case 'p' => |text| > 2 && text[..2] == "0x" && Numeral(text[2..], Lower, args[0].n)
    case 'z' => SaysSize(args[0].n, text)
    case 'c' => |text| == 1 && text[0] as int == args[0].n % 256
    case 's' => text == if args[0].text.Null? then "(null)" else args[0].text.chars
    case '%' => text == "%"
    case _ => text == ""
  }

  // The low 32 bits, read as a signed number.
  ghost predicate SaysInt(n: ulong, text: string) {
    exists v: int :: -0x8000_0000 <= v < 0x8000_0000 && (n - v) % 0x1_0000_0000 == 0 && SignedNumeral(text, v)
  }

  // A size below 2^63 as it is; larger ones come out as the long with the same bits, and 2^63 one off.
  ghost predicate SaysSize(n: ulong, text: string) {
    if n < 0x8000_0000_0000_0000 then Numeral(text, Ten, n)
    else SignedNumeral(text, if n == 0x8000_0000_0000_0000 then -0x7FFF_FFFF_FFFF_FFFF else n - 0x1_0000_0000_0000_0000)
  }

  // Zeros in front up to the width if the flag is set, and the digits.
  ghost predicate SaysHex(f: Format, base: Base, n: nat, text: string) {
    exists k :: 0 <= k <= |text| && Numeral(text[k..], base, n) && (forall i :: 0 <= i < k ==> text[i] == '0')
                && k == if f.zero && |text[k..]| < f.width then f.width - |text[k..]| else 0
  }

  lemma PrintedIsNumeral(n: long)
    ensures n != LONG_MIN ==> SignedNumeral(Printed(n, Ten), n)
    ensures n == LONG_MIN ==> SignedNumeral(Printed(n, Ten), -0x7FFF_FFFF_FFFF_FFFF)
  {
    hide Numeral, Notation;
    PrintedParts(n, Ten);
    if n >= 0 {
      NotationIsNumeral(n, Ten);
    } else if n == LONG_MIN {
      GreatestDecimal();
      NotationIsNumeral(0x7FFF_FFFF_FFFF_FFFF, Ten);
      assert Printed(n, Ten)[1..] == Notation(0x7FFF_FFFF_FFFF_FFFF, Ten);
    } else {
      NotationIsNumeral(-n, Ten);
      assert Printed(n, Ten)[1..] == Notation(-n, Ten);
    }
  }

  lemma IntIsSaid(n: ulong)
    ensures SaysInt(n, Printed(ToInt(n), Ten))
  {
    hide SignedNumeral, Printed;
    PrintedIsNumeral(ToInt(n));
    assert (n - ToInt(n)) % 0x1_0000_0000 == 0;
  }

  lemma HexIsSaid(f: Format, n: nat)
    requires f.kind == 'x' || f.kind == 'X'
    ensures SaysHex(f, if f.kind == 'x' then Lower else Upper, n, Padded(f, n))
  {
    hide Numeral, Notation;
    var base := if f.kind == 'x' then Lower else Upper;
    var digits, text := Notation(n, base), Padded(f, n);
    NotationIsNumeral(n, base);
    var k := |text| - |digits|;
    assert text[k..] == digits;
    AllZeros(k);
  }

  lemma {:induction false} AllZeros(k: nat)
    ensures forall i :: 0 <= i < k ==> Zeros(k)[i] == '0'
  {
    if k > 0 { AllZeros(k - 1); }
  }

  // Every directive says what it should.
  lemma DirectiveSays(f: Format, args: seq<Arg>)
    requires Ready(f, args)
    ensures Says(f, args, Directive(f, args))
  {
    hide Numeral, Notation, SaysInt, SaysHex, SignedNumeral, Printed, Padded;
    if f.kind in {'d', 'i'} {
      IntIsSaid(args[0].n);
    } else if f.kind == 'u' {
      UnsignedIsSaid(args[0].n % 0x1_0000_0000);
    } else if f.kind in {'x', 'X'} {
      HexIsSaid(f, args[0].n % 0x1_0000_0000);
    } else if f.kind == 'p' {
      NotationIsNumeral(args[0].n, Lower);
      assert Directive(f, args)[2..] == Notation(args[0].n, Lower);
    } else if f.kind == 'z' {
      SizeIsSaid(args[0].n);
    }
  }

  lemma UnsignedIsSaid(n: nat)
    requires n < 0x1_0000_0000
    ensures Numeral(Printed(n, Ten), Ten, n)
  {
    hide Numeral;
    PrintedIsNumeral(n);
  }

  lemma SizeIsSaid(n: ulong)
    ensures SaysSize(n, Printed(ToLong(n), Ten))
  {
    hide Numeral, Printed;
    PrintedIsNumeral(ToLong(n));
  }

  // Padding fills up to the width and does not change the number.
  lemma PaddedMeans(f: Format, n: nat)
    ensures var base := if f.kind == 'x' then Lower else Upper;
            && Value(Padded(f, n), base) == n
            && (f.zero ==> |Padded(f, n)| == if |Notation(n, base)| < f.width then f.width else |Notation(n, base)|)
            && (!f.zero ==> Padded(f, n) == Notation(n, base))
  {
    var base := if f.kind == 'x' then Lower else Upper;
    var digits := Notation(n, base);
    NotationMeans(n, base);
    if f.zero && |digits| < f.width { LeadingZeros(f.width - |digits|, digits, base); }
  }

  // The decimal printer is right for every long but the least one.
  lemma PrintedExactly(n: long)
    ensures Printed(n, Ten) == Signed(n, Ten) <==> n != LONG_MIN
  {
    if n == LONG_MIN {
      GreatestDecimal();
      NotationMeans(LONG_LIMIT, Ten);
      NotationMeans(LONG_LIMIT - 1, Ten);
      assert Signed(n, Ten)[1..] == Notation(LONG_LIMIT, Ten);
      assert "-9223372036854775807"[1..] == "9223372036854775807";
    }
  }

  lemma GreatestDecimal()
    ensures Notation(0x7fff_ffff_ffff_ffff, Ten) == "9223372036854775807"
  {
    hide Notation;
    FourDigits();
    FiveMore(9223, 3, 7, 2, 0, 3);
    FiveMore(922337203, 6, 8, 5, 4, 7);
    FiveMore(92233720368547, 7, 5, 8, 0, 7);
  }

  lemma FourDigits()
    ensures Notation(9223, Ten) == "9223"
  {}

  lemma FiveMore(n: nat, a: nat, b: nat, c: nat, d: nat, e: nat)
    requires n > 0 && a < 10 && b < 10 && c < 10 && d < 10 && e < 10
    ensures Notation(100000 * n + 10000 * a + 1000 * b + 100 * c + 10 * d + e, Ten)
            == Notation(n, Ten) + [Ten.Symbol(a), Ten.Symbol(b), Ten.Symbol(c), Ten.Symbol(d), Ten.Symbol(e)]
  {
    hide Notation, Base.Symbols;
    OneMore(n, a);
    OneMore(10 * n + a, b);
    OneMore(100 * n + 10 * a + b, c);
    OneMore(1000 * n + 100 * a + 10 * b + c, d);
    OneMore(10000 * n + 1000 * a + 100 * b + 10 * c + d, e);
  }

  lemma OneMore(n: nat, d: nat)
    requires n > 0 && d < 10
    ensures Notation(10 * n + d, Ten) == Notation(n, Ten) + [Ten.Symbol(d)]
  {
    hide Notation, Base.Symbols;
    NotationStep(10 * n + d, Ten);
  }

  // The z directive sends a size as itself exactly when it is below 2^63; larger ones come out negative.
  lemma SizesPrintExactly(n: ulong, f: Format)
    requires f.kind == 'z'
    ensures Numeral(Directive(f, [Word(n)]), Ten, n) <==> n < LONG_LIMIT
  {
    DirectiveSays(f, [Word(n)]);
    var text := Directive(f, [Word(n)]);
    if n >= LONG_LIMIT { assert text[0] == '-'; }
  }

  // ---- formats, piece by piece ----

  // Characters outside directives are sent as they are, in order.
  lemma {:induction false} LiteralText(s: string, i: nat, j: nat, args: seq<Arg>)
    requires i <= j <= |s| && (forall k :: i <= k < j ==> s[k] != '%') && WellFormed(s, i) && Matches(s, i, args)
    ensures WellFormed(s, j) && Matches(s, j, args)
    ensures Rendered(s, i, args) == s[i..j] + Rendered(s, j, args)
    decreases j - i
  {
    hide WellFormed, Matches, Rendered;
    OneStep(s, i, args);
    if i < j {
      LiteralText(s, i + 1, j, args);
      assert s[i..j] == [s[i]] + s[i + 1..j];
    }
  }

  // The digits 1 to 9 after a percent sign and its flag are the width in decimal.
  lemma {:induction false} WidthMeans(s: string, p: nat, i: nat, k: nat)
    requires p <= i <= k <= |s| && (forall x :: p <= x < k ==> '1' <= s[x] <= '9') && (k < |s| ==> !('1' <= s[k] <= '9'))
    ensures Width(s, i, Value(s[p..i], Ten)) == (Value(s[p..k], Ten), k)
    decreases k - i
  {
    if i < k {
      assert s[p..i + 1][..i - p] == s[p..i];
      WidthMeans(s, p, i + 1, k);
    }
  }

  // A directive: a percent sign, perhaps a 0, a width without zeros, and a letter, which for z takes one
  // more character with it.  It sends what it says, and the rest of the format follows.
  lemma DirectiveText(s: string, i: nat, zero: bool, k: nat, args: seq<Arg>) returns (piece: string)
    requires i < k < |s| && s[i] == '%' && WellFormed(s, i) && Matches(s, i, args)
    requires var p := if zero then i + 2 else i + 1;
             && p <= k && (zero <==> s[i + 1] == '0')
             && (forall x :: p <= x < k ==> '1' <= s[x] <= '9') && !('1' <= s[k] <= '9')
    ensures var f := Format(zero, Value(s[if zero then i + 2 else i + 1..k], Ten), s[k]);
            var j := if s[k] == 'z' then k + 2 else k + 1;
            var rest := if s[k] in {'d', 'i', 'c', 's', 'u', 'x', 'X', 'p', 'z'} && args != [] then args[1..] else args;
            && Ready(f, args) && Says(f, args, piece)
            && j <= |s| && WellFormed(s, j) && Matches(s, j, rest)
            && Rendered(s, i, args) == piece + Rendered(s, j, rest)
  {
    hide WellFormed, Matches, Rendered, Directive, Says;
    var p := if zero then i + 2 else i + 1;
    WidthMeans(s, p, p, k);
    assert s[p..p] == "";
    OneStep(s, i, args);
    var (f, j) := Parse(s, i);
    piece := Directive(f, args);
    DirectiveSays(f, args);
    EndsFormat(s, i);
  }

  lemma EndsFormat(s: string, i: nat)
    requires i < |s| && s[i] == '%' && WellFormed(s, i)
    ensures Parse(s, i).1 < |s|
  {}

  // A format that does not end in what could be part of a directive is never read past its end.
  lemma {:induction false} EndsPlainly(s: string, i: nat)
    requires i <= |s|
    requires s != "" ==> var c := s[|s| - 1]; c != '%' && c != 'z' && !('0' <= c <= '9')
    ensures WellFormed(s, i)
    decreases |s| - i
  {
    if i < |s| {
      if s[i] != '%' {
        EndsPlainly(s, i + 1);
      } else {
        WidthStops(s, if At(s, i + 1) == '0' then i + 2 else i + 1, 0);
        EndsPlainly(s, Parse(s, i).1 + 1);
      }
    }
  }

  lemma {:induction false} WidthStops(s: string, i: nat, width: nat)
    requires i <= |s|
    ensures Width(s, i, width).1 == |s| && i < |s| ==> '1' <= s[|s| - 1] <= '9'
    decreases |s| - i
  {
    if i < |s| && '1' <= s[i] <= '9' { WidthStops(s, i + 1, width * 10 + (s[i] as nat - '0' as nat)); }
  }
}
