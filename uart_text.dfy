/** What the serial console of uart.c prints, as functions of the inputs: the
    newline rule of uart_putc, the numerals of uint_to_str and uint_to_hex, and
    the text that uart_printf produces for a format and its arguments. The
    methods of module Uart are proved against these definitions. */
module UartText {
  import opened Hal

  datatype Option<T> = None | Some(value: T)

  // ---------------------------------------------------------------- newlines

  /** What uart_putc puts on the line for one character: a newline goes out as
      carriage return then newline, anything else as itself. */
  function Wire(c: char): string
  {
    if c == '\n' then "\r\n" else [c]
  }

  /** What uart_putc puts on the line for each character of `s` in turn. */
  function Crlf(s: string): string
  {
    if s == [] then [] else Wire(s[0]) + Crlf(s[1..])
  }

  /** Reads a line-level stream back: a carriage return directly followed by a
      newline stands for that newline. */
  function Strip(s: string): string
  {
    if |s| >= 2 && s[0] == '\r' && s[1] == '\n' then "\n" + Strip(s[2..])
    else if s == [] then []
    else [s[0]] + Strip(s[1..])
  }

  lemma {:induction false} CrlfConcat(a: string, b: string)
    ensures Crlf(a + b) == Crlf(a) + Crlf(b)
  {
    if a == [] {
      assert a + b == b;
    } else {
      assert (a + b)[1..] == a[1..] + b;
      CrlfConcat(a[1..], b);
    }
  }

  lemma CrlfCons(c: char, s: string)
    ensures Crlf([c] + s) == Wire(c) + Crlf(s)
  {
    assert ([c] + s)[1..] == s;
  }

  lemma CrlfSnoc(s: string, c: char)
    ensures Crlf(s + [c]) == Crlf(s) + Wire(c)
  {
    CrlfConcat(s, [c]);
    assert Crlf([c]) == Wire(c) + Crlf([]);
  }

  /** Text without a newline goes out unchanged. */
  lemma {:induction false} CrlfPlain(s: string)
    requires '\n' !in s
    ensures Crlf(s) == s
  {
    if s != [] {
      assert '\n' !in s[1..] by { assert forall k :: 1 <= k < |s| ==> s[1..][k - 1] == s[k]; }
      CrlfPlain(s[1..]);
    }
  }

  /** The line-level stream never starts with a newline. */
  lemma CrlfHead(s: string)
    ensures Crlf(s) == [] || Crlf(s)[0] != '\n'
  {
  }

  /** The newline rule loses nothing: the original text can be read back. */
  lemma {:induction false} StripCrlf(s: string)
    ensures Strip(Crlf(s)) == s
  {
    if s != [] {
      StripCrlf(s[1..]);
      CrlfHead(s[1..]);
      var rest := Crlf(s[1..]);
      if s[0] == '\n' {
        assert Crlf(s) == "\r\n" + rest;
        assert (("\r\n" + rest)[2..]) == rest;
      } else {
        assert Crlf(s) == [s[0]] + rest;
        assert ([s[0]] + rest)[1..] == rest;
      }
    }
  }

  /** Every newline on the line is preceded by a carriage return. */
  lemma {:induction false} CrlfNoBareNewline(s: string, i: nat)
    requires i < |Crlf(s)| && Crlf(s)[i] == '\n'
    ensures i > 0 && Crlf(s)[i - 1] == '\r'
  {
    var head := Wire(s[0]);
    assert Crlf(s) == head + Crlf(s[1..]);
    if i >= |head| {
      CrlfNoBareNewline(s[1..], i - |head|);
    }
  }

  // ---------------------------------------------------------------- numerals

  const DECIMAL: string := "0123456789"
  const LOWER_HEX: string := "0123456789abcdef"
  const UPPER_HEX: string := "0123456789ABCDEF"

  /** The table uint_to_hex picks. */
  function HexDigits(upper: bool): (digits: string)
    ensures |digits| == 16
  {
    if upper then UPPER_HEX else LOWER_HEX
  }

  /** The three digit tables of uart.c; the base is the table's length. */
  predicate Table(digits: string)
  {
    digits == DECIMAL || digits == LOWER_HEX || digits == UPPER_HEX
  }

  function Pow(b: nat, k: nat): nat
  {
    if k == 0 then 1 else b * Pow(b, k - 1)
  }

  /** The numeral of `v` in base |digits|: most significant digit first, no
      leading zero, and "0" for zero. */
  function Numeral(v: nat, digits: string): (r: string)
    requires 2 <= |digits|
    ensures |r| >= 1
    ensures v == 0 ==> r == [digits[0]]
    decreases v
  {
    if v < |digits| then [digits[v]]
    else Numeral(v / |digits|, digits) + [digits[v % |digits|]]
  }

  /** The digits of `v` least significant first, as the conversion loops
      produce them; none for zero. */
  function LowFirst(v: nat, digits: string): string
    requires 2 <= |digits|
    decreases v
  {
    if v == 0 then [] else [digits[v % |digits|]] + LowFirst(v / |digits|, digits)
  }

  /** The number a digit character stands for in any of the tables. */
  function DigitValue(c: char): nat
  {
    if '0' <= c <= '9' then c as int - '0' as int
    else if 'a' <= c <= 'f' then c as int - 'a' as int + 10
    else if 'A' <= c <= 'F' then c as int - 'A' as int + 10
    else 0
  }

  /** Reads a numeral back in the given base. */
  function Value(s: string, base: nat): nat
  {
    if s == [] then 0 else Value(s[..|s| - 1], base) * base + DigitValue(s[|s| - 1])
  }

  /** Euclidean division facts for a base of at least two. */
  lemma DivStep(v: nat, b: nat)
    requires 2 <= b
    ensures v < b ==> v / b == 0 && v % b == v
    ensures v >= b ==> 0 < v / b < v
    ensures v == (v / b) * b + v % b && v % b < b
  {
  }

  lemma DivBound(v: nat, b: nat, p: nat)
    requires 2 <= b && v < b * p
    ensures v / b < p
  {
  }

  lemma TableDigit(digits: string, d: nat)
    requires Table(digits) && d < |digits|
    ensures DigitValue(digits[d]) == d
  {
  }

  /** Round trip: the numeral of `v` read back in the table's base is `v`. */
  lemma {:induction false} NumeralValue(v: nat, digits: string)
    requires Table(digits)
    ensures Value(Numeral(v, digits), |digits|) == v
    decreases v
  {
    var b := |digits|;
    var r := Numeral(v, digits);
    DivStep(v, b);
    if v < b {
      TableDigit(digits, v);
      assert r[..0] == [];
    } else {
      var q := Numeral(v / b, digits);
      assert r[..|r| - 1] == q;
      NumeralValue(v / b, digits);
      TableDigit(digits, v % b);
    }
  }

  /** Every character of a numeral is a digit of its table, and there is no
      leading zero. */
  lemma {:induction false} NumeralDigits(v: nat, digits: string)
    requires Table(digits)
    ensures forall k :: 0 <= k < |Numeral(v, digits)| ==> Numeral(v, digits)[k] in digits
    ensures v > 0 ==> Numeral(v, digits)[0] != '0'
    decreases v
  {
    var b := |digits|;
    DivStep(v, b);
    if v >= b {
      NumeralDigits(v / b, digits);
      var q := Numeral(v / b, digits);
      assert Numeral(v, digits) == q + [digits[v % b]];
    } else if v > 0 {
      assert digits[v] != '0';
    }
  }

  /** One turn of a conversion loop: digit `r` (the value modulo the base)
      joins the digits already written, and `q` (the value divided by the
      base) is left to convert. */
  lemma LowFirstStep(val: nat, v: nat, digits: string, done: string, q: nat, r: nat)
    requires 2 <= |digits| && v != 0
    requires q == v / |digits| && r == v % |digits|
    requires LowFirst(val, digits) == done + LowFirst(v, digits)
    ensures LowFirst(val, digits) == done + [digits[r]] + LowFirst(q, digits)
    ensures |LowFirst(v, digits)| == 1 + |LowFirst(q, digits)|
  {
    var d, rest := [digits[r]], LowFirst(q, digits);
    assert LowFirst(v, digits) == d + rest;
    assert done + (d + rest) == done + d + rest;
  }

  lemma {:induction false} LowFirstLength(v: nat, digits: string, k: nat)
    requires 2 <= |digits| && v < Pow(|digits|, k)
    ensures |LowFirst(v, digits)| <= k
    decreases v
  {
    var b := |digits|;
    if v > 0 {
      assert k > 0;
      DivStep(v, b);
      DivBound(v, b, Pow(b, k - 1));
      LowFirstLength(v / b, digits, k - 1);
    }
  }

  /** A 16-bit value has at most five decimal digits and at most four
      hexadecimal ones, so either numeral fits the eight-character number buffer
      with its terminator. */
  lemma DecimalLength(v: uint16)
    ensures |LowFirst(v, DECIMAL)| <= 5
  {
    assert Pow(10, 5) == 100000;
    LowFirstLength(v, DECIMAL, 5);
  }

  lemma HexLength(v: uint16, upper: bool)
    ensures |LowFirst(v, HexDigits(upper))| <= 4
  {
    assert Pow(16, 4) == 0x1_0000;
    LowFirstLength(v, HexDigits(upper), 4);
  }

  /** The characters of `s` in the opposite order. */
  function Reverse(s: string): string
  {
    if s == [] then [] else [s[|s| - 1]] + Reverse(s[..|s| - 1])
  }

  lemma {:induction false} ReverseAt(s: string)
    ensures |Reverse(s)| == |s|
    ensures forall k :: 0 <= k < |s| ==> Reverse(s)[k] == s[|s| - 1 - k]
  {
    if s != [] {
      ReverseAt(s[..|s| - 1]);
    }
  }

  lemma {:induction false} ReverseCons(c: char, s: string)
    ensures Reverse([c] + s) == Reverse(s) + [c]
  {
    if s != [] {
      var t := [c] + s;
      assert t[..|t| - 1] == [c] + s[..|s| - 1];
      ReverseCons(c, s[..|s| - 1]);
    } else {
      assert ([c] + s)[..0] == [];
    }
  }

  /** The conversion loops' output, reversed, is the numeral of a non-zero value. */
  lemma {:induction false} NumeralReversed(v: nat, digits: string)
    requires 2 <= |digits| && v > 0
    ensures Reverse(LowFirst(v, digits)) == Numeral(v, digits)
    decreases v
  {
    var b := |digits|;
    DivStep(v, b);
    ReverseCons(digits[v % b], LowFirst(v / b, digits));
    if v >= b {
      NumeralReversed(v / b, digits);
    } else {
      assert LowFirst(v / b, digits) == [];
    }
  }

  /** What the conversion loops leave in the buffer, reversed, is the numeral. */
  lemma Converted(val: nat, digits: string, lowFirst: string)
    requires 2 <= |digits|
    requires val == 0 ==> lowFirst == [digits[0]]
    requires val != 0 ==> lowFirst == LowFirst(val, digits)
    ensures Reverse(lowFirst) == Numeral(val, digits)
  {
    if val != 0 {
      NumeralReversed(val, digits);
    } else {
      assert lowFirst[..0] == [];
    }
  }

  lemma ReverseReverse(s: string)
    ensures Reverse(Reverse(s)) == s
  {
    ReverseAt(s);
    ReverseAt(Reverse(s));
  }

  // ---------------------------------------------------------------- printf

  /** A variadic argument of uart_printf: a 16-bit int word (for %c, %d, %u, %x,
      %X) or the characters at a string pointer (for %s). */
  datatype Arg = Word(w: uint16) | Str(s: string)

  /** The text of a NUL-terminated string: the characters before its first NUL. */
  function UntilNul(s: string): string
  {
    if s == [] || s[0] == '\0' then [] else [s[0]] + UntilNul(s[1..])
  }

  /** Where the terminating NUL of a C string is. */
  function NulAt(s: string): (n: nat)
    requires '\0' in s
    ensures n < |s| && s[n] == '\0'
    ensures forall k :: 0 <= k < n ==> s[k] != '\0'
  {
    if s[0] == '\0' then 0
    else
      assert '\0' in s[1..] by {
        var k :| 0 <= k < |s| && s[k] == '\0';
        assert s[1..][k - 1] == '\0';
      }
      1 + NulAt(s[1..])
  }

  /** The text of a C string is everything before its NUL. */
  lemma {:induction false} UntilNulAt(s: string)
    requires '\0' in s
    ensures UntilNul(s) == s[..NulAt(s)]
  {
    if s[0] != '\0' {
      var t := s[1..];
      assert '\0' in t by {
        var k :| 0 <= k < |s| && s[k] == '\0';
        assert t[k - 1] == '\0';
      }
      UntilNulAt(t);
      assert s[..NulAt(s)] == [s[0]] + t[..NulAt(t)];
    }
  }

  /** `n` zero characters. */
  function Zeros(n: nat): string
  {
    seq(n, _ => '0')
  }

  lemma ZerosSnoc(n: nat)
    ensures Zeros(n + 1) == Zeros(n) + ['0']
  {
  }

  /** `s` preceded by as many zeros as it falls short of `width`. */
  function ZeroPad(width: nat, s: string): string
  {
    (if width > |s| then Zeros(width - |s|) else []) + s
  }

  /** The value of a 16-bit word read as int16_t. */
  function Int16(w: uint16): int
  {
    if w < 0x8000 then w else w - 0x1_0000
  }

  /** %d: a minus sign for a negative value, then the padded magnitude. */
  function SignedDecimal(width: uint8, w: uint16): string
  {
    if Int16(w) < 0 then "-" + ZeroPad(width, Numeral(-Int16(w), DECIMAL))
    else ZeroPad(width, Numeral(w, DECIMAL))
  }

  /** The magnitude %d converts: the value, negated when it is negative
      (0x8000 stays 32768, the one value whose negation overflows int16_t). */
  function Magnitude(w: uint16): (m: uint16)
    ensures Int16(w) < 0 ==> m == 0x1_0000 - w
    ensures Int16(w) >= 0 ==> m == w
  {
    if Int16(w) < 0 then -Int16(w) else w
  }

  /** %d on the line: the minus sign, if any, then the padded magnitude. */
  lemma SignedWire(width: uint8, w: uint16)
    ensures Crlf(SignedDecimal(width, w))
         == (if Int16(w) < 0 then Wire('-') else []) + Crlf(ZeroPad(width, Numeral(Magnitude(w), DECIMAL)))
  {
    var z := ZeroPad(width, Numeral(Magnitude(w), DECIMAL));
    if Int16(w) < 0 {
      CrlfCons('-', z);
    } else {
      assert [] + Crlf(z) == Crlf(z);
    }
  }

  /** The head `%[0w]c` of a format that starts with '%': its pad width, its
      conversion character and its length; None when the format ends inside it. */
  function Directive(fmt: string): (r: Option<(uint8, char, nat)>)
    requires |fmt| > 0 && fmt[0] == '%'
    ensures r.Some? ==> 2 <= r.value.2 <= |fmt|
  {
    if |fmt| < 2 then None
    else if fmt[1] != '0' then Some((0, fmt[1], 2))
    else if |fmt| < 4 then None
    else Some(((fmt[2] as int - '0' as int) % 0x100, fmt[3], 4))
  }
  /** A directive is `%c` (2 characters, no padding) or `%0wc` (4 characters);
      it is missing exactly when the format ends inside it. */
  lemma DirectiveShape(fmt: string)
    requires |fmt| > 0 && fmt[0] == '%'
    ensures Directive(fmt).None? <==> |fmt| < 2 || (fmt[1] == '0' && |fmt| < 4)
    ensures Directive(fmt).Some? && fmt[1] != '0' ==> Directive(fmt).value == (0, fmt[1], 2)
    ensures Directive(fmt).Some? && fmt[1] == '0' ==> Directive(fmt).value.1 == fmt[3] && Directive(fmt).value.2 == 4
  {
  }

  /** What one conversion puts out and how many arguments it takes; None when
      the arguments do not supply what it reads. */
  function Conversion(width: uint8, c: char, args: seq<Arg>): (r: Option<(string, nat)>)
    ensures r.Some? ==> r.value.1 <= |args|
  {
    var word := |args| > 0 && args[0].Word?;
    match c
    case 'c' => if word then Some(([(args[0].w % 0x100) as char], 1)) else None
    case 's' =>
      if |args| > 0 && args[0].Str? && '\0' in args[0].s then Some((UntilNul(args[0].s), 1))
      else None
    case 'd' => if word then Some((SignedDecimal(width, args[0].w), 1)) else None
    case 'u' => if word then Some((ZeroPad(width, Numeral(args[0].w, DECIMAL)), 1)) else None
    case 'x' => if word then Some((ZeroPad(width, Numeral(args[0].w, HexDigits(false))), 1)) else None
    case 'X' => if word then Some((ZeroPad(width, Numeral(args[0].w, HexDigits(true))), 1)) else None
    case '%' => Some(("%", 0))
    case _ => Some((['%', c], 0))
  }

  function Prepend(s: string, o: Option<string>): Option<string>
  {
    if o.Some? then Some(s + o.value) else None
  }

  /** The text uart_printf hands to uart_putc for the format `fmt` (the
      characters before its NUL) and the arguments `args`; None when a directive
      is cut off by the end of the format or an argument is missing or of the
      wrong kind, where the C function reads past what it was given. */
  function Format(fmt: string, args: seq<Arg>): Option<string>
    decreases |fmt|
  {
    if fmt == [] then Some([])
    else if fmt[0] != '%' then Prepend([fmt[0]], Format(fmt[1..], args))
    else match Directive(fmt)
      case None => None
      case Some((width, c, n)) =>
        match Conversion(width, c, args)
        case None => None
        case Some((out, used)) => Prepend(out, Format(fmt[n..], args[used..]))
  }

  /** A plain character at position `pos` of a format is sent as itself. */
  lemma FormatPlainAt(fmt: string, pos: nat, args: seq<Arg>)
    requires pos < |fmt| && fmt[pos] != '%'
    requires Format(fmt[pos..], args).Some?
    ensures Format(fmt[pos + 1..], args).Some?
    ensures Format(fmt[pos..], args).value == [fmt[pos]] + Format(fmt[pos + 1..], args).value
  {
    assert fmt[pos..][1..] == fmt[pos + 1..];
  }

  /** Where a directive at position `pos` of a format ends, and what it reads;
      a format with a text has no directive cut off by its end. */
  lemma DirectiveAt(fmt: string, pos: nat, args: seq<Arg>)
    requires pos < |fmt| && fmt[pos] == '%'
    requires Format(fmt[pos..], args).Some?
    ensures pos + 2 <= |fmt|
    ensures fmt[pos + 1] != '0' ==> Directive(fmt[pos..]) == Some((0, fmt[pos + 1], 2))
    ensures fmt[pos + 1] == '0' ==>
      pos + 4 <= |fmt| && Directive(fmt[pos..]).Some? &&
      Directive(fmt[pos..]).value.0 as int == (fmt[pos + 2] as int - '0' as int) % 0x100 &&
      Directive(fmt[pos..]).value.1 == fmt[pos + 3] && Directive(fmt[pos..]).value.2 == 4
  {
    var rest := fmt[pos..];
    assert Directive(rest).Some?;
    assert rest[1] == fmt[pos + 1];
    if fmt[pos + 1] == '0' {
      assert rest[2] == fmt[pos + 2] && rest[3] == fmt[pos + 3];
    }
  }

  /** A directive at position `pos` of a format sends its conversion, and the
      rest of the format goes on after it with the arguments it did not take. */
  lemma FormatDirectiveAt(fmt: string, pos: nat, args: seq<Arg>, width: uint8, c: char, n: nat)
    requires pos < |fmt| && fmt[pos] == '%'
    requires Directive(fmt[pos..]) == Some((width, c, n))
    requires Format(fmt[pos..], args).Some?
    ensures Conversion(width, c, args).Some?
    ensures pos + n <= |fmt|
    ensures Format(fmt[pos + n..], args[Conversion(width, c, args).value.1..]).Some?
    ensures Format(fmt[pos..], args).value
         == Conversion(width, c, args).value.0
          + Format(fmt[pos + n..], args[Conversion(width, c, args).value.1..]).value
  {
    assert fmt[pos..][n..] == fmt[pos + n..];
  }

  /** A format without directives prints itself and takes no argument. */
  lemma {:induction false} FormatPlain(a: string, b: string, args: seq<Arg>)
    requires '%' !in a
    ensures Format(a + b, args) == Prepend(a, Format(b, args))
  {
    if a != [] {
      assert (a + b)[0] == a[0] && (a + b)[1..] == a[1..] + b;
      assert '%' !in a[1..] by { assert forall k :: 1 <= k < |a| ==> a[1..][k - 1] == a[k]; }
      FormatPlain(a[1..], b, args);
      var rest := Format(b, args);
      if rest.Some? {
        assert [a[0]] + (a[1..] + rest.value) == a + rest.value;
      }
    } else {
      assert a + b == b;
      if Format(b, args).Some? {
        assert [] + Format(b, args).value == Format(b, args).value;
      }
    }
  }

  /** A padded numeral holds no newline, so uart_putc sends it unchanged. */
  lemma PaddedPlain(width: nat, v: nat, digits: string)
    requires Table(digits)
    ensures '\n' !in Numeral(v, digits)
    ensures Crlf(ZeroPad(width, Numeral(v, digits))) == ZeroPad(width, Numeral(v, digits))
  {
    var r := Numeral(v, digits);
    NumeralDigits(v, digits);
    forall k | 0 <= k < |r|
      ensures r[k] != '\n'
    {
      assert r[k] in digits;
    }
    var z := ZeroPad(width, r);
    forall k | 0 <= k < |z|
      ensures z[k] != '\n'
    {
      if k >= |z| - |r| {
        assert z[k] == r[k - (|z| - |r|)];
      }
    }
    CrlfPlain(z);
  }

  /** Zero padding adds exactly max(0, width - |s|) leading zeros. */
  lemma ZeroPadShape(width: nat, s: string)
    ensures |ZeroPad(width, s)| == if width > |s| then width else |s|
    ensures ZeroPad(width, s)[|ZeroPad(width, s)| - |s|..] == s
    ensures forall k :: 0 <= k < |ZeroPad(width, s)| - |s| ==> ZeroPad(width, s)[k] == '0'
  {
  }

  /** %d of a word with the sign bit set prints '-' and then the padded
      magnitude 65536 - w (32768 for 0x8000); otherwise it prints as %u. */
  lemma SignedDecimalSign(width: uint8, w: uint16)
    ensures w >= 0x8000 <==> SignedDecimal(width, w)[0] == '-'
    ensures w >= 0x8000 ==>
      SignedDecimal(width, w) == "-" + ZeroPad(width, Numeral(0x1_0000 - w, DECIMAL))
    ensures w < 0x8000 ==> SignedDecimal(width, w) == ZeroPad(width, Numeral(w, DECIMAL))
  {
    var m := if w >= 0x8000 then 0x1_0000 - w else w;
    assert m == if Int16(w) < 0 then -Int16(w) else w;
    NumeralDigits(m, DECIMAL);
    var z := ZeroPad(width, Numeral(m, DECIMAL));
    assert z[0] in DECIMAL;
  }

  /** "%%" prints one '%'; an unknown conversion character prints '%' and itself;
      neither takes an argument. */
  lemma PercentDirectives(c: char, rest: string, args: seq<Arg>)
    requires c !in "csduxX%0"
    ensures Format("%%" + rest, args) == Prepend("%", Format(rest, args))
    ensures Format(['%', c] + rest, args) == Prepend(['%', c], Format(rest, args))
  {
    assert ("%%" + rest)[2..] == rest;
    assert (['%', c] + rest)[2..] == rest;
  }
}
