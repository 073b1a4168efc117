/** The command receiver of uart_rx.c: a blocking byte read, a read of a run of
    bytes into a buffer, and uart_process_command, which reads one command byte
    and then either takes in a whole framebuffer, clears the panel, or reports
    an unknown command. The bytes a host sends are described by `Encode`, what
    the receiver makes of them by `Receive`, and the console line it answers
    with by `Report`. */
module UartRx {
  import opened Hal
  import opened UartText
  import opened Uc8151
  import Uart
  import GxGdew0213z16

  /** FRAMEBUFFER_SIZE of uart_rx.h: one bit per pixel of one 104 x 212 plane. */
  const FRAMEBUFFER_SIZE: nat := 2756

  const CMD_WRITE_SCREEN: uint8 := 0x13
  const CMD_CLEAR_SCREEN: uint8 := 0x31

  /** One command of the serial protocol, as the host means it. */
  datatype Request = WriteScreen(frame: seq<uint8>) | ClearScreen | Unknown(cmd: uint8)

  /** A request the receiver can tell apart from the others: a frame is a whole
      framebuffer, and an unknown command byte is neither of the two opcodes. */
  predicate WellFormed(r: Request)
  {
    match r
    case WriteScreen(frame) => |frame| == FRAMEBUFFER_SIZE
    case ClearScreen => true
    case Unknown(cmd) => cmd != CMD_WRITE_SCREEN && cmd != CMD_CLEAR_SCREEN
  }

  /** The bytes a host sends for a request: the opcode, then for a frame its bytes. */
  function Encode(r: Request): (bytes: seq<uint8>)
    ensures |bytes| == if r.WriteScreen? then 1 + |r.frame| else 1
    ensures bytes[0] == match r
      case WriteScreen(_) => CMD_WRITE_SCREEN
      case ClearScreen => CMD_CLEAR_SCREEN
      case Unknown(cmd) => cmd
  {
    match r
    case WriteScreen(frame) => [CMD_WRITE_SCREEN] + frame
    case ClearScreen => [CMD_CLEAR_SCREEN]
    case Unknown(cmd) => [cmd]
  }

  /** What uart_process_command reads from the bytes waiting on the line; None
      when the line runs dry first, where the blocking uart_getc never returns. */
  function Receive(input: seq<uint8>): Option<Request>
  {
    if input == [] then None
    else if input[0] == CMD_WRITE_SCREEN then
      if |input| < 1 + FRAMEBUFFER_SIZE then None
      else Some(WriteScreen(input[1..1 + FRAMEBUFFER_SIZE]))
    else if input[0] == CMD_CLEAR_SCREEN then Some(ClearScreen)
    else Some(Unknown(input[0]))
  }

  /** The receiver reads back every request the host can send, whatever follows it. */
  lemma ReceiveEncode(r: Request, rest: seq<uint8>)
    requires WellFormed(r)
    ensures Receive(Encode(r) + rest) == Some(r)
  {
    if r.WriteScreen? {
      assert (Encode(r) + rest)[1..1 + FRAMEBUFFER_SIZE] == r.frame;
    }
  }

  /** Whatever the receiver reads is a request the host could have sent, and it
      reads exactly that request's bytes from the head of the line. */
  lemma ReceiveSplit(input: seq<uint8>)
    requires Receive(input).Some?
    ensures WellFormed(Receive(input).value)
    ensures |Encode(Receive(input).value)| <= |input|
    ensures input == Encode(Receive(input).value) + input[|Encode(Receive(input).value)|..]
  {
    var r := Receive(input).value;
    if r.WriteScreen? {
      assert input == [input[0]] + input[1..1 + FRAMEBUFFER_SIZE] + input[1 + FRAMEBUFFER_SIZE..];
    } else {
      assert input == [input[0]] + input[1..];
    }
  }

  /** The receiver waits for more input exactly when the line is empty or holds
      a write-screen opcode with less than a whole framebuffer after it. */
  lemma ReceiveBlocks(input: seq<uint8>)
    ensures Receive(input).None?
        <==> input == [] || (input[0] == CMD_WRITE_SCREEN && |input| <= FRAMEBUFFER_SIZE)
  {
  }

  // ------------------------------------------------------------ the console

  const RECEIVED_FMT: string := "Received framebuffer (%u bytes)\n"
  const CLEARED_FMT: string := "Framebuffer cleared\n"
  const UNKNOWN_FMT: string := "Unknown command 0x%02X\n"

  /** The uart_printf call that reports a request: its format and its arguments. */
  function ReportFormat(r: Request): string
  {
    match r
    case WriteScreen(_) => RECEIVED_FMT
    case ClearScreen => CLEARED_FMT
    case Unknown(_) => UNKNOWN_FMT
  }

  function ReportArgs(r: Request): seq<Arg>
  {
    match r
    case WriteScreen(_) => [Word(FRAMEBUFFER_SIZE as uint16)]
    case ClearScreen => []
    case Unknown(cmd) => [Word(cmd as uint16)]
  }

  /** The console line that answers a request, written out: the frame size in
      decimal (digits "2756", see FrameSizeNumeral), or the unknown opcode as
      two upper-case hex digits. */
  function Report(r: Request): string
  {
    match r
    case WriteScreen(_) => "Received framebuffer (" + Numeral(FRAMEBUFFER_SIZE, DECIMAL) + " bytes)\n"
    case ClearScreen => "Framebuffer cleared\n"
    case Unknown(cmd) => "Unknown command 0x" + ZeroPad(2, Numeral(cmd, UPPER_HEX)) + "\n"
  }

  /** The digits of 2756, as uint_to_str produces them. */
  lemma FrameSizeNumeral()
    ensures Numeral(FRAMEBUFFER_SIZE, DECIMAL) == "2756"
  {
    assert Numeral(2, DECIMAL) == "2";
    assert 27 / 10 == 2 && 27 % 10 == 7;
    assert Numeral(27, DECIMAL) == "2" + "7";
    assert 275 / 10 == 27 && 275 % 10 == 5;
    assert Numeral(275, DECIMAL) == "27" + "5";
    assert 2756 / 10 == 275 && 2756 % 10 == 6;
    assert Numeral(2756, DECIMAL) == "275" + "6";
  }

  /** A format that starts with a directive taking all the arguments, followed
      by plain text: the conversion, then the text. */
  lemma FormatDirectiveHead(d: string, tail: string, args: seq<Arg>, width: uint8, c: char, out: string)
    requires |d| >= 1 && d[0] == '%' && '%' !in tail
    requires Directive(d + tail) == Some((width, c, |d|))
    requires Conversion(width, c, args) == Some((out, |args|))
    ensures Format(d + tail, args) == Some(out + tail)
  {
    var fmt := d + tail;
    assert fmt[0] == '%';
    assert fmt[|d|..] == tail;
    assert args[|args|..] == [];
    FormatPlain(tail, [], []);
    assert tail + [] == tail;
    assert Format(fmt, args) == Prepend(out, Format(tail, []));
  }

  /** Plain text, one directive taking all the arguments, plain text. */
  lemma FormatOneDirective(head: string, d: string, tail: string, args: seq<Arg>, width: uint8, c: char, out: string)
    requires '%' !in head && '%' !in tail
    requires |d| >= 1 && d[0] == '%'
    requires Directive(d + tail) == Some((width, c, |d|))
    requires Conversion(width, c, args) == Some((out, |args|))
    ensures Format(head + d + tail, args) == Some(head + out + tail)
  {
    FormatDirectiveHead(d, tail, args, width, c, out);
    FormatPlain(head, d + tail, args);
    assert head + d + tail == head + (d + tail);
    assert head + (out + tail) == head + out + tail;
  }

  /** The frame report with any size: the size in decimal, unpadded. */
  lemma SizeFormatted(size: uint16)
    ensures Format(RECEIVED_FMT, [Word(size)]) == Some("Received framebuffer (" + Numeral(size, DECIMAL) + " bytes)\n")
  {
    var args := [Word(size)];
    var head, d, tail := "Received framebuffer (", "%u", " bytes)\n";
    var out := Numeral(size, DECIMAL);
    assert ZeroPad(0, out) == out;
    assert Conversion(0, 'u', args) == Some((out, 1));
    assert Directive(d + tail) == Some((0, 'u', 2));
    FormatOneDirective(head, d, tail, args, 0, 'u', out);
    assert RECEIVED_FMT == head + d + tail;
  }

  lemma ReceivedFormatted(size: uint16)
    requires size as nat == FRAMEBUFFER_SIZE
    ensures Format(RECEIVED_FMT, [Word(size)]) == Some(Report(WriteScreen([])))
  {
    SizeFormatted(size);
  }

  lemma ClearedFormatted()
    ensures Format(CLEARED_FMT, []) == Some(Report(ClearScreen))
  {
    FormatPlain(CLEARED_FMT, [], []);
    assert CLEARED_FMT + [] == CLEARED_FMT;
  }

  lemma UnknownFormatted(cmd: uint8)
    ensures Format(UNKNOWN_FMT, [Word(cmd as uint16)]) == Some(Report(Unknown(cmd)))
  {
    var args := [Word(cmd as uint16)];
    var head, d, tail := "Unknown command 0x", "%02X", "\n";
    var out := ZeroPad(2, Numeral(cmd, UPPER_HEX));
    assert Conversion(2, 'X', args) == Some((out, 1));
    assert Directive(d + tail) == Some((2, 'X', 4));
    FormatOneDirective(head, d, tail, args, 2, 'X', out);
    assert UNKNOWN_FMT == head + d + tail;
  }

  /** The report formats are C strings with nothing hidden behind a NUL. */
  lemma FormatsWithoutNul()
    ensures '\0' !in RECEIVED_FMT && '\0' !in CLEARED_FMT && '\0' !in UNKNOWN_FMT
  {
  }

  /** uart_printf with the format and arguments of each report prints exactly
      that report. */
  lemma ReportFormatted(r: Request)
    ensures Format(ReportFormat(r), ReportArgs(r)) == Some(Report(r))
    ensures '\0' !in ReportFormat(r)
  {
    FormatsWithoutNul();
    match r
    case WriteScreen(_) => ReceivedFormatted(FRAMEBUFFER_SIZE as uint16);
    case ClearScreen => ClearedFormatted();
    case Unknown(cmd) => UnknownFormatted(cmd);
  }

  /** Every report is one console line: its only newline is its last character,
      and on the line that newline goes out as CR LF. */
  lemma ReportLine(r: Request)
    ensures |Report(r)| >= 1 && Report(r)[|Report(r)| - 1] == '\n'
    ensures '\n' !in Report(r)[..|Report(r)| - 1]
    ensures Crlf(Report(r)) == Report(r)[..|Report(r)| - 1] + "\r\n"
  {
    match r
    case WriteScreen(_) => ReceivedLine(r);
    case ClearScreen => ClearedLine();
    case Unknown(cmd) => UnknownLine(cmd);
  }

  lemma ReceivedLine(r: Request)
    requires r.WriteScreen?
    ensures var s := Report(r); Crlf(s) == s[..|s| - 1] + "\r\n" && s[|s| - 1] == '\n' && '\n' !in s[..|s| - 1]
  {
    SizeLine(FRAMEBUFFER_SIZE);
  }

  lemma SizeLine(size: nat)
    ensures var s := "Received framebuffer (" + Numeral(size, DECIMAL) + " bytes)\n";
      Crlf(s) == s[..|s| - 1] + "\r\n" && s[|s| - 1] == '\n' && '\n' !in s[..|s| - 1]
  {
    var n := Numeral(size, DECIMAL);
    PaddedPlain(0, size, DECIMAL);
    OneLine("Received framebuffer (", n, " bytes)");
    assert "Received framebuffer (" + n + " bytes)" + "\n" == "Received framebuffer (" + n + " bytes)\n";
  }

  lemma ClearedLine()
    ensures var s := Report(ClearScreen); Crlf(s) == s[..|s| - 1] + "\r\n" && s[|s| - 1] == '\n' && '\n' !in s[..|s| - 1]
  {
    OneLine("Framebuffer cleared", [], []);
    assert "Framebuffer cleared" + [] + [] + "\n" == Report(ClearScreen);
  }

  lemma UnknownLine(cmd: uint8)
    ensures var s := Report(Unknown(cmd)); Crlf(s) == s[..|s| - 1] + "\r\n" && s[|s| - 1] == '\n' && '\n' !in s[..|s| - 1]
  {
    var h := ZeroPad(2, Numeral(cmd, UPPER_HEX));
    PaddedPlain(2, cmd as nat, UPPER_HEX);
    OneLine("Unknown command 0x", h, []);
    assert "Unknown command 0x" + h + [] + "\n" == Report(Unknown(cmd));
  }

  /** Text without a newline, then one newline: the newline goes out as CR LF. */
  lemma OneLine(a: string, b: string, c: string)
    requires '\n' !in a && '\n' !in b && '\n' !in c
    ensures var s := a + b + c + "\n";
      && s[|s| - 1] == '\n' && s[..|s| - 1] == a + b + c
      && '\n' !in s[..|s| - 1]
      && Crlf(s) == s[..|s| - 1] + "\r\n"
  {
    var body := a + b + c;
    var s := body + "\n";
    assert s[..|s| - 1] == body;
    assert '\n' !in body by {
      forall k | 0 <= k < |body|
        ensures body[k] != '\n'
      {
        if k < |a| { assert body[k] == a[k]; }
        else if k < |a| + |b| { assert body[k] == b[k - |a|]; }
        else { assert body[k] == c[k - |a| - |b|]; }
      }
    }
    CrlfPlain(body);
    CrlfSnoc(body, '\n');
  }

  /** The reply to an unknown command echoes it: two hex digits that read back
      as the command byte. */
  lemma UnknownEcho(cmd: uint8)
    ensures exists h: string ::
      |h| == 2 && Report(Unknown(cmd)) == "Unknown command 0x" + h + "\n" && Value(h, 16) == cmd as nat
  {
    var n := Numeral(cmd, UPPER_HEX);
    var h := ZeroPad(2, n);
    NumeralValue(cmd, UPPER_HEX);
    HexLength(cmd as uint16, true);
    if |n| == 1 {
      assert h == "0" + n;
      assert h[..1] == "0";
      assert Value(h, 16) == Value("0", 16) * 16 + DigitValue(n[0]);
      assert Value(n, 16) == DigitValue(n[0]) by { assert n[..0] == []; }
    } else {
      assert h == n;
    }
    assert Value(h, 16) == cmd as nat;
    assert |h| == 2;
  }

  // ------------------------------------------------------------ the receiver

  /** The receiver's state: the framebuffer the frame bytes are read into, and
      the frames handed to EPD_SendFrame so far (that routine is not part of
      this model, so its calls are recorded rather than carried out). */
  class Receiver {
    const framebuffer: array<uint8>
    var shown: seq<seq<uint8>>

    constructor ()
      ensures framebuffer.Length == FRAMEBUFFER_SIZE && fresh(framebuffer)
      ensures shown == []
    {
      framebuffer := new uint8[FRAMEBUFFER_SIZE];
      shown := [];
    }
  }

  /** uart_getc: the next byte the host sent. It blocks until one arrives, so
      it is only called with a byte waiting. */
  method GetC(u: Usart1) returns (b: uint8)
    requires |u.rx| > 0
    modifies u
    ensures b == old(u.rx[0])
    ensures u.rx == old(u.rx[1..]) && u.tx == old(u.tx)
  {
    b := u.rx[0];
    u.rx := u.rx[1..];
  }

  /** uart_read_bytes: the next `len` bytes of the line, stored at the front of
      `buf`; the rest of the buffer keeps its contents. */
  method ReadBytes(u: Usart1, buf: array<uint8>, len: uint16)
    requires len as int <= buf.Length && len as int <= |u.rx|
    modifies u, buf
    ensures buf[..len] == old(u.rx[..len])
    ensures buf[len..] == old(buf[len..])
    ensures u.rx == old(u.rx[len..]) && u.tx == old(u.tx)
  {
    var i: uint16 := 0;
    while i < len
      invariant i <= len
      invariant buf[..i] == old(u.rx[..i])
      invariant buf[len..] == old(buf[len..])
      invariant u.rx == old(u.rx[i..]) && u.tx == old(u.tx)
    {
      var b := GetC(u);
      buf[i] := b;
      assert old(u.rx[..i + 1]) == old(u.rx[..i]) + [b];
      i := i + 1;
    }
  }

  /** uart_process_command: one request read off the line and carried out. A
      frame is stored in the framebuffer and handed to EPD_SendFrame; a clear
      runs EPD_Clear of the GxGDEW0213Z16 driver; an unknown opcode changes
      nothing. Each is answered with its report on the console. */
  method ProcessCommand(u: Usart1, hw: Board, rcv: Receiver, numbuf: array<char>) returns (ghost r: Request)
    requires rcv.framebuffer.Length == FRAMEBUFFER_SIZE && numbuf.Length == 8
    requires Receive(u.rx).Some?
    modifies u, hw, rcv, rcv.framebuffer, numbuf
    ensures r == Receive(old(u.rx)).value
    ensures u.rx == old(u.rx)[|Encode(r)|..]
    ensures u.tx == old(u.tx) + Crlf(Report(r))
    ensures r.WriteScreen? ==> rcv.framebuffer[..] == r.frame && rcv.shown == old(rcv.shown) + [r.frame]
    ensures !r.WriteScreen? ==> rcv.framebuffer[..] == old(rcv.framebuffer[..]) && rcv.shown == old(rcv.shown)
    ensures r.ClearScreen? ==>
      hw.trace == old(hw.trace) + GxGdew0213z16.ClearTrace(hw.busyHigh, old(hw.polls)) &&
      hw.polls == GxGdew0213z16.ClearPolls(hw.busyHigh, old(hw.polls))
    ensures !r.ClearScreen? ==> hw.trace == old(hw.trace) && hw.polls == old(hw.polls)
  {
    ghost var input := u.rx;
    r := Receive(input).value;
    ReceiveSplit(input);
    FormatsWithoutNul();
    var cmd := GetC(u);
    if cmd == CMD_WRITE_SCREEN {
      ReadBytes(u, rcv.framebuffer, FRAMEBUFFER_SIZE as uint16);
      assert rcv.framebuffer[..] == rcv.framebuffer[..FRAMEBUFFER_SIZE] == input[1..][..FRAMEBUFFER_SIZE];
      assert input[1..][..FRAMEBUFFER_SIZE] == r.frame;
      ReceivedFormatted(FRAMEBUFFER_SIZE as uint16);
      Uart.Printf(u, numbuf, RECEIVED_FMT, [Word(FRAMEBUFFER_SIZE as uint16)]);
      rcv.shown := rcv.shown + [rcv.framebuffer[..]];
    } else if cmd == CMD_CLEAR_SCREEN {
      GxGdew0213z16.EPD_Clear(hw);
      ClearedFormatted();
      Uart.Printf(u, numbuf, CLEARED_FMT, []);
    } else {
      UnknownFormatted(cmd);
      Uart.Printf(u, numbuf, UNKNOWN_FMT, [Word(cmd as uint16)]);
    }
  }
}
