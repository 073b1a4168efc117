/** The transmit side of the serial console (uart.c): uart_putc with its newline
    rule, uart_puts, the in-place reversal and the two number-to-text
    conversions, and the small uart_printf interpreter. Each method is proved
    against the text functions of module UartText. */
module Uart {
  import opened Hal
  import opened UartText

  /** uart_putc: a newline first sends a carriage return (by calling itself),
      then the character goes out through U1DBUF. */
  method PutC(u: Usart1, c: char)
    modifies u
    ensures u.tx == old(u.tx) + Wire(c)
    ensures u.rx == old(u.rx)
    decreases if c == '\n' then 1 else 0
  {
    if c == '\n' {
      PutC(u, '\r');
    }
    u.tx := u.tx + [c];
  }

  /** uart_puts: sends the characters of a NUL-terminated string, up to and not
      including the NUL. */
  method PutS(u: Usart1, s: string)
    requires '\0' in s
    modifies u
    ensures u.tx == old(u.tx) + Crlf(UntilNul(s))
    ensures u.rx == old(u.rx)
  {
    ghost var n := NulAt(s);
    var i := 0;
    while s[i] != '\0'
      invariant 0 <= i <= n
      invariant u.tx == old(u.tx) + Crlf(s[..i])
      invariant u.rx == old(u.rx)
      decreases n - i
    {
      ghost var done := s[..i];
      PutC(u, s[i]);
      CrlfSnoc(done, s[i]);
      assert s[..i + 1] == done + [s[i]];
      i := i + 1;
    }
    UntilNulAt(s);
  }

  /** strrev_local: reverses s[0..len) in place by swapping from both ends. The
      length must be at least one: for zero the upper index would wrap to 255. */
  method StrRev(s: array<char>, len: uint8)
    requires 1 <= len <= s.Length
    modifies s
    ensures s[..len] == Reverse(old(s[..len]))
    ensures s[len..] == old(s[len..])
  {
    var i, j := 0, len - 1;
    while i < j
      invariant 0 <= i <= len && -1 <= j < len && i + j == len - 1
      invariant forall k :: 0 <= k < i ==> s[k] == old(s[len - 1 - k])
      invariant forall k :: j < k < len ==> s[k] == old(s[len - 1 - k])
      invariant forall k :: i <= k <= j ==> s[k] == old(s[k])
      invariant s[len..] == old(s[len..])
    {
      s[i], s[j] := s[j], s[i];
      i, j := i + 1, j - 1;
    }
    ReverseAt(old(s[..len]));
    assert forall k :: 0 <= k < len ==> s[..len][k] == Reverse(old(s[..len]))[k];
  }

  /** Writing `c` just past a prefix `s` of the buffer's contents. */
  lemma WriteAt(s: string, tail: string, c: char)
    requires |tail| > 0
    ensures (s + tail)[|s| := c] == s + [c] + tail[1..]
  {
  }

  /** Writing at index `i` leaves the cells beyond it as they were. */
  lemma UpdateBeyond(a: string, b: string, i: nat, c: char)
    requires i < |a| == |b| && a[i..] == b[i..]
    ensures a[i := c][i + 1..] == b[i + 1..]
  {
    assert a[i + 1..] == a[i..][1..];
  }

  /** One pass of uint_to_str's digit loop: `'0' + v % 10` is the next decimal
      digit, least significant first, and one digit fewer is left to produce. */
  lemma DecimalStep(val: nat, v: nat, done: string)
    requires v != 0
    requires LowFirst(val, DECIMAL) == done + LowFirst(v, DECIMAL)
    ensures LowFirst(val, DECIMAL) == done + [('0' as int + v % 10) as char] + LowFirst(v / 10, DECIMAL)
    ensures |LowFirst(v, DECIMAL)| == 1 + |LowFirst(v / 10, DECIMAL)|
  {
    LowFirstStep(val, v, DECIMAL, done, v / 10, v % 10);
    assert DECIMAL[v % 10] == ('0' as int + v % 10) as char;
  }

  /** uint_to_str: writes the decimal numeral of `val` (most significant digit
      first, "0" for zero) and a NUL after it, and returns its length. */
  method UintToStr(val: uint16, buf: array<char>) returns (len: uint8)
    requires buf.Length >= 6
    modifies buf
    ensures 1 <= len <= 5
    ensures buf[..len] == Numeral(val, DECIMAL)
    ensures buf[len] == '\0'
    ensures buf[len + 1..] == old(buf[len + 1..])
  {
    ghost var b0 := buf[..];
    ghost var digits: string := [];
    len := 0;
    var v: nat := val;
    if v == 0 {
      WriteAt(digits, b0, '0');
      buf[len] := '0';
      len := len + 1;
      digits := ['0'];
    }
    DecimalLength(val);
    while v != 0
      invariant 0 <= len <= 5 && |digits| == len as int
      invariant buf[..len] == digits && buf[len..] == b0[len..]
      invariant val == 0 ==> digits == ['0'] && v == 0
      invariant val != 0 ==> LowFirst(val, DECIMAL) == digits + LowFirst(v, DECIMAL)
      invariant len + |LowFirst(v, DECIMAL)| <= 5
    {
      DecimalStep(val, v, digits);
      WriteAt(digits, b0[len..], ('0' as int + v % 10) as char);
      buf[len] := ('0' as int + v % 10) as char;
      digits := digits + [('0' as int + v % 10) as char];
      len := len + 1;
      v := v / 10;
    }
    assert buf[..len] == digits && buf[len..] == b0[len..];
    Converted(val, DECIMAL, digits);
    StrRev(buf, len);
    ghost var reversed := buf[..];
    assert reversed[len..] == b0[len..];
    buf[len] := '\0';
    assert buf[..] == reversed[len as int := '\0'];
    UpdateBeyond(reversed, b0, len as int, '\0');
  }

  /** uint_to_hex: the hexadecimal numeral of `val`, with the lower-case digit
      table when `upper` is zero and the upper-case one otherwise. The digit is
      `val & 0xF` and the shift `val >>= 4`, which on a non-negative value are
      `val % 16` and `val / 16`. */
  method UintToHex(val: uint16, buf: array<char>, upper: uint8) returns (len: uint8)
    requires buf.Length >= 5
    modifies buf
    ensures 1 <= len <= 4
    ensures buf[..len] == Numeral(val, HexDigits(upper != 0))
    ensures buf[len] == '\0'
    ensures buf[len + 1..] == old(buf[len + 1..])
  {
    var digits := HexDigits(upper != 0);
    ghost var b0 := buf[..];
    ghost var out: string := [];
    len := 0;
    var v: nat := val;
    if v == 0 {
      WriteAt(out, b0, '0');
      buf[len] := '0';
      len := len + 1;
      out := ['0'];
    }
    HexLength(val, upper != 0);
    while v != 0
      invariant 0 <= len <= 4 && |out| == len as int
      invariant buf[..len] == out && buf[len..] == b0[len..]
      invariant val == 0 ==> out == ['0'] && v == 0
      invariant val != 0 ==> LowFirst(val, digits) == out + LowFirst(v, digits)
      invariant len + |LowFirst(v, digits)| <= 4
    {
      LowFirstStep(val, v, digits, out, v / 16, v % 16);
      WriteAt(out, b0[len..], digits[v % 16]);
      buf[len] := digits[v % 16];
      out := out + [digits[v % 16]];
      len := len + 1;
      v := v / 16;
    }
    assert buf[..len] == out && buf[len..] == b0[len..];
    Converted(val, digits, out);
    StrRev(buf, len);
    ghost var reversed := buf[..];
    assert reversed[len..] == b0[len..];
    buf[len] := '\0';
    assert buf[..] == reversed[len as int := '\0'];
    UpdateBeyond(reversed, b0, len as int, '\0');
  }

  /** The two loops each numeric case of uart_printf ends with: `pad - len`
      zeros when the numeral is shorter than the width, then the numeral. The
      numeral holds no newline, so each character goes out as itself. */
  method PutPadded(u: Usart1, buf: array<char>, len: uint8, pad: uint8)
    requires len <= buf.Length
    requires '\n' !in buf[..len]
    modifies u
    ensures u.tx == old(u.tx) + ZeroPad(pad, buf[..len])
    ensures u.rx == old(u.rx)
  {
    var i := len;
    while i < pad
      invariant if pad > len then len <= i <= pad else i == len
      invariant u.tx == old(u.tx) + Zeros(i - len)
      invariant u.rx == old(u.rx)
    {
      PutC(u, '0');
      ZerosSnoc(i - len);
      i := i + 1;
    }
    ghost var zeros := Zeros(i - len);
    assert zeros == if pad > len then Zeros(pad - len) else [];
    ghost var mid := u.tx;
    i := 0;
    while i < len
      invariant 0 <= i <= len
      invariant u.tx == mid + buf[..i]
      invariant u.rx == old(u.rx)
    {
      assert buf[..len][i] == buf[i];
      PutC(u, buf[i]);
      assert buf[..i + 1] == buf[..i] + [buf[i]];
      i := i + 1;
    }
    assert buf[..len] == buf[..i];
  }

  /** The %u case of uart_printf: the decimal numeral of `v`, zero-padded to
      `pad` characters. */
  method PutDecimal(u: Usart1, numbuf: array<char>, pad: uint8, v: uint16)
    requires numbuf.Length == 8
    modifies u, numbuf
    ensures u.tx == old(u.tx) + Crlf(ZeroPad(pad, Numeral(v, DECIMAL)))
    ensures u.rx == old(u.rx)
  {
    var len := UintToStr(v, numbuf);
    PaddedPlain(pad, v, DECIMAL);
    PutPadded(u, numbuf, len, pad);
  }

  /** The %x and %X cases of uart_printf: the hexadecimal numeral of `v` with
      the digit table `upper` selects, zero-padded to `pad` characters. */
  method PutHex(u: Usart1, numbuf: array<char>, pad: uint8, v: uint16, upper: uint8)
    requires numbuf.Length == 8
    modifies u, numbuf
    ensures u.tx == old(u.tx) + Crlf(ZeroPad(pad, Numeral(v, HexDigits(upper != 0))))
    ensures u.rx == old(u.rx)
  {
    var len := UintToHex(v, numbuf, upper);
    PaddedPlain(pad, v, HexDigits(upper != 0));
    PutPadded(u, numbuf, len, pad);
  }

  /** The %d case of uart_printf: the word is read as int16_t; a negative value
      sends '-' and is negated before the conversion, so the padding counts
      the digits only. */
  method PutSigned(u: Usart1, numbuf: array<char>, pad: uint8, w: uint16)
    requires numbuf.Length == 8
    modifies u, numbuf
    ensures u.tx == old(u.tx) + Crlf(SignedDecimal(pad, w))
    ensures u.rx == old(u.rx)
  {
    var v := Int16(w);
    SignedWire(pad, w);
    ghost var sign: string := if v < 0 then Wire('-') else [];
    ghost var digits := Crlf(ZeroPad(pad, Numeral(Magnitude(w), DECIMAL)));
    if v < 0 {
      PutC(u, '-');
      v := -v;
    }
    assert u.tx == old(u.tx) + sign && v == Magnitude(w);
    ghost var signed := u.tx;
    PutDecimal(u, numbuf, pad, v);
    assert u.tx == signed + digits;
    assert old(u.tx) + sign + digits == old(u.tx) + (sign + digits);
  }

  /** The `switch` of uart_printf for one conversion character `c` with pad
      width `pad`; `args` are the variadic arguments not yet taken, and `used`
      is how many of them this conversion takes. */
  method PutConversion(u: Usart1, numbuf: array<char>, pad: uint8, c: char, args: seq<Arg>)
    returns (used: nat)
    requires numbuf.Length == 8
    requires Conversion(pad, c, args).Some?
    modifies u, numbuf
    ensures used == Conversion(pad, c, args).value.1
    ensures u.tx == old(u.tx) + Crlf(Conversion(pad, c, args).value.0)
    ensures u.rx == old(u.rx)
  {
    match c {
      case 'c' =>
        var ch := (args[0].w % 0x100) as char;
        PutC(u, ch);
        CrlfSnoc([], ch);
        used := 1;
      case 's' =>
        PutS(u, args[0].s);
        used := 1;
      case 'd' =>
        PutSigned(u, numbuf, pad, args[0].w);
        used := 1;
      case 'u' =>
        PutDecimal(u, numbuf, pad, args[0].w);
        used := 1;
      case 'x' =>
        PutHex(u, numbuf, pad, args[0].w, 0);
        used := 1;
      case 'X' =>
        PutHex(u, numbuf, pad, args[0].w, 1);
        used := 1;
      case '%' =>
        PutC(u, '%');
        CrlfSnoc([], '%');
        used := 0;
      case _ =>
        PutC(u, '%');
        PutC(u, c);
        CrlfSnoc([], '%');
        CrlfSnoc(['%'], c);
        used := 0;
    }
  }

  /** One step of uart_printf: once `out` has gone out, what remains to send
      is the rest of the formatted text. */
  lemma Advance(total: string, before: string, after: string, out: string, tail: string)
    requires total == before + Crlf(out + tail)
    requires after == before + Crlf(out)
    ensures total == after + Crlf(tail)
  {
    CrlfConcat(out, tail);
    assert before + (Crlf(out) + Crlf(tail)) == before + Crlf(out) + Crlf(tail);
  }

  /** A plain character of the format at `pos`: it goes out through uart_putc
      and the walk moves on by one. */
  method PutPlain(u: Usart1, fmt: string, pos: nat, args: seq<Arg>, next: nat)
    returns (pos': nat)
    requires pos < |fmt| && fmt[pos] != '%' && next <= |args|
    requires Format(fmt[pos..], args[next..]).Some?
    modifies u
    ensures pos' == pos + 1
    ensures Format(fmt[pos'..], args[next..]).Some?
    ensures old(u.tx) + Crlf(Format(fmt[pos..], args[next..]).value)
         == u.tx + Crlf(Format(fmt[pos'..], args[next..]).value)
    ensures u.rx == old(u.rx)
  {
    FormatPlainAt(fmt, pos, args[next..]);
    PutC(u, fmt[pos]);
    CrlfCons(fmt[pos], Format(fmt[pos + 1..], args[next..]).value);
    pos' := pos + 1;
  }

  /** One `%` directive of uart_printf, at position `pos` of the format, with
      the arguments from `next` on not yet taken: the optional `0w` pad width
      is read, then the conversion is sent. The new position and argument index
      are returned, and what went out is the head of the formatted text. */
  method PutDirective(u: Usart1, numbuf: array<char>, fmt: string, pos: nat, args: seq<Arg>, next: nat)
    returns (pos': nat, next': nat)
    requires numbuf.Length == 8
    requires pos < |fmt| && fmt[pos] == '%' && next <= |args|
    requires Format(fmt[pos..], args[next..]).Some?
    modifies u, numbuf
    ensures pos + 2 <= pos' <= |fmt| && next <= next' <= |args|
    ensures Format(fmt[pos'..], args[next'..]).Some?
    ensures old(u.tx) + Crlf(Format(fmt[pos..], args[next..]).value)
         == u.tx + Crlf(Format(fmt[pos'..], args[next'..]).value)
    ensures u.rx == old(u.rx)
  {
    DirectiveAt(fmt, pos, args[next..]);
    var pad: uint8 := 0;
    var c := fmt[pos + 1];
    pos' := pos + 2;
    if c == '0' {
      c := fmt[pos + 2];
      pad := (c as int - '0' as int) % 0x100;
      c := fmt[pos + 3];
      pos' := pos + 4;
    }
    FormatDirectiveAt(fmt, pos, args[next..], pad, c, pos' - pos);
    ghost var before := u.tx;
    var used := PutConversion(u, numbuf, pad, c, args[next..]);
    next' := next + used;
    assert args[next..][used..] == args[next'..];
    Advance(old(u.tx) + Crlf(Format(fmt[pos..], args[next..]).value), before, u.tx,
            Conversion(pad, c, args[next..]).value.0, Format(fmt[pos'..], args[next'..]).value);
  }

  /** uart_printf: walks the format, sending plain characters through uart_putc
      and expanding each `%[0w]c` directive; what reaches the line is the
      formatted text under the newline rule. The format is the text before its
      NUL, and every directive in it must be complete and find its argument
      (otherwise the C function reads past the terminator or the arguments). */
  method Printf(u: Usart1, numbuf: array<char>, fmt: string, args: seq<Arg>)
    requires numbuf.Length == 8
    requires '\0' !in fmt
    requires Format(fmt, args).Some?
    modifies u, numbuf
    ensures u.tx == old(u.tx) + Crlf(Format(fmt, args).value)
    ensures u.rx == old(u.rx)
  {
    ghost var pending := Format(fmt, args).value;
    ghost var total := old(u.tx) + Crlf(pending);
    var pos, next := 0, 0;
    while pos < |fmt|
      invariant 0 <= pos <= |fmt| && 0 <= next <= |args|
      invariant Format(fmt[pos..], args[next..]) == Some(pending)
      invariant total == u.tx + Crlf(pending)
      invariant u.rx == old(u.rx)
      decreases |fmt| - pos
    {
      var c := fmt[pos];
      if c != '%' {
        pos := PutPlain(u, fmt, pos, args, next);
        pending := Format(fmt[pos..], args[next..]).value;
      } else {
        pos, next := PutDirective(u, numbuf, fmt, pos, args, next);
        pending := Format(fmt[pos..], args[next..]).value;
      }
    }
  }
}
