/** The Waveshare 2.13" b V3 driver (UC8151/IL0373, 104 x 212, black and red
    planes), as adapted for the CC2530: reset, command and data framing, the busy
    wait with watchdog feeds, refresh, init (reset only), clear, display and sleep.
    Each operation's whole event trace is stated exactly; the lemmas say what the
    controller receives and that the watchdog is fed. */
module Epd2in13bV3 {
  import opened Hal
  import opened Uc8151

  /** Panel geometry; the driver header giving these is not part of this model,
      the values are those of the panel (104 x 212). */
  const WIDTH: nat := 104
  const HEIGHT: nat := 212

  /** Bytes per row of a panel `width` pixels wide: the width over 8, rounded up. */
  function RowBytes(width: nat): (w: nat)
    ensures w * 8 >= width > (w - 1) * 8
  {
    if width % 8 == 0 then width / 8 else width / 8 + 1
  }

  const ROW_BYTES: nat := RowBytes(WIDTH)

  /** Bytes per plane. */
  const PLANE_BYTES: nat := ROW_BYTES * HEIGHT

  lemma Geometry()
    ensures ROW_BYTES == 13 && PLANE_BYTES == 2756
  {
  }

  /** A plane streamed byte by byte, each byte framed as data and followed by a
      watchdog feed, in index order. */
  function Stream(p: seq<uint8>): seq<Event>
  {
    if p == [] then [] else Stream(p[..|p| - 1]) + DataFrame(p[|p| - 1]) + [Feed]
  }

  /** A plane of `PLANE_BYTES` bytes of 0xFF. */
  function Blank(): seq<uint8>
  {
    seq(PLANE_BYTES, _ => 0xFF)
  }

  /** EPD_2IN13B_V3_Reset: CS high, then a high-low-high pulse on RST with delays. */
  function ResetTrace(): seq<Event>
  {
    [CsHigh, RstHigh] + DelayTrace(100) + [RstLow] + DelayTrace(2) + [RstHigh] + DelayTrace(10)
  }

  /** EPD_2IN13B_V3_Init: the reset and a 10 ms delay; no command is sent. */
  function InitTrace(): seq<Event>
  {
    ResetTrace() + DelayTrace(10)
  }

  /** EPD_2IN13B_V3_TurnOnDisplay with the busy wait starting at poll `start`. */
  function RefreshTrace(high: iset<nat>, start: nat): seq<Event>
  {
    CommandFrame(0x12) + DelayTrace(100) + WaitFrom(high, start)
  }

  /** EPD_2IN13B_V3_Display of planes `black` and `ry` (their first PLANE_BYTES bytes). */
  function DisplayTrace(black: seq<uint8>, ry: seq<uint8>, high: iset<nat>, start: nat): seq<Event>
    requires |black| >= PLANE_BYTES && |ry| >= PLANE_BYTES
  {
    CommandFrame(0x10) + Stream(black[..PLANE_BYTES])
      + CommandFrame(0x13) + Stream(ry[..PLANE_BYTES])
      + RefreshTrace(high, start)
  }

  /** EPD_2IN13B_V3_Sleep with the busy wait starting at poll `start`. */
  function SleepTrace(high: iset<nat>, start: nat): seq<Event>
  {
    CommandFrame(0x50) + DataFrame(0xF7) + CommandFrame(0x02)
      + WaitFrom(high, start) + CommandFrame(0x07) + DataFrame(0xA5)
  }

  // ---------------------------------------------------------------------
  // The driver

  method Reset(hw: Board)
    modifies hw
    ensures hw.trace == old(hw.trace) + ResetTrace()
    ensures hw.polls == old(hw.polls)
  {
    hw.SpiCsHigh();
    hw.SpiRstHigh();  Delay(hw, 100);
    hw.SpiRstLow();   Delay(hw, 2);
    hw.SpiRstHigh();  Delay(hw, 10);
  }

  method SendCommand(hw: Board, reg: uint8)
    modifies hw
    ensures hw.trace == old(hw.trace) + CommandFrame(reg)
    ensures hw.polls == old(hw.polls)
  {
    hw.SpiDcLow();
    hw.SpiCsLow();
    hw.SpiWriteByte(reg);
    hw.SpiCsHigh();
  }

  method SendData(hw: Board, data: uint8)
    modifies hw
    ensures hw.trace == old(hw.trace) + DataFrame(data)
    ensures hw.polls == old(hw.polls)
  {
    hw.SpiDcHigh();
    hw.SpiCsLow();
    hw.SpiWriteByte(data);
    hw.SpiCsHigh();
  }

  /** EPD_2IN13B_V3_ReadBusy: command 0x71, then poll while the pin reads high,
      feeding the watchdog and waiting 10 ms per poll, giving up after 1000 polls;
      finally a 200 ms settle delay. */
  method ReadBusy(hw: Board)
    modifies hw
    ensures hw.trace == old(hw.trace) + WaitFrom(hw.busyHigh, old(hw.polls))
    ensures hw.polls == PollsAfterWait(hw.busyHigh, old(hw.polls))
  {
    var timeout := 0;
    SendCommand(hw, 0x71);
    ghost var t0, p0 := hw.trace, hw.polls;
    ghost var n := WaitIterations(hw.busyHigh, p0);
    while true
      invariant 0 <= timeout < BUSY_LIMIT
      invariant hw.polls == p0 + timeout
      invariant HighRun(hw.busyHigh, p0, timeout) == n
      invariant hw.trace == t0 + Rounds(timeout)
      decreases BUSY_LIMIT - timeout
    {
      var busy := hw.EpdBusy();
      assert busy == (p0 + timeout in hw.busyHigh);
      if !busy {
        HighRunEnd(hw.busyHigh, p0, timeout);
        break;
      }
      hw.WdtFeed();
      Delay(hw, 10);
      RoundsStep(t0, timeout);
      HighRunStep(hw.busyHigh, p0, timeout);
      timeout := timeout + 1;
      if timeout >= 1000 {
        HighRunEnd(hw.busyHigh, p0, timeout);
        assert hw.trace + LastPoll(timeout) == hw.trace;
        break;
      }
    }
    assert timeout == n && hw.trace == t0 + Rounds(n) + LastPoll(n);
    Delay(hw, 200);
    WaitAssembled(old(hw.trace), n);
  }

  method TurnOnDisplay(hw: Board)
    modifies hw
    ensures hw.trace == old(hw.trace) + RefreshTrace(hw.busyHigh, old(hw.polls))
    ensures hw.polls == PollsAfterWait(hw.busyHigh, old(hw.polls))
  {
    SendCommand(hw, 0x12);
    Delay(hw, 100);
    ReadBusy(hw);
    SeqAssoc3(old(hw.trace), CommandFrame(0x12), DelayTrace(100), WaitFrom(hw.busyHigh, old(hw.polls)));
  }

  method Init(hw: Board)
    modifies hw
    ensures hw.trace == old(hw.trace) + InitTrace()
    ensures hw.polls == old(hw.polls)
  {
    Reset(hw);
    Delay(hw, 10);
  }

  /** Streams the first PLANE_BYTES bytes of `plane` row by row, as the nested
      loops of Clear and Display do. */
  method SendPlane(hw: Board, plane: seq<uint8>)
    requires |plane| >= PLANE_BYTES
    modifies hw
    ensures hw.trace == old(hw.trace) + Stream(plane[..PLANE_BYTES])
    ensures hw.polls == old(hw.polls)
  {
    var w, h := ROW_BYTES, HEIGHT;
    var j := 0;
    while j < h
      invariant 0 <= j <= h
      invariant hw.trace == old(hw.trace) + Stream(plane[..j * w])
      invariant hw.polls == old(hw.polls)
    {
      var i := 0;
      while i < w
        invariant 0 <= i <= w
        invariant hw.trace == old(hw.trace) + Stream(plane[..i + j * w])
        invariant hw.polls == old(hw.polls)
      {
        SendData(hw, plane[i + j * w]);
        hw.WdtFeed();
        assert plane[..i + j * w + 1][..i + j * w] == plane[..i + j * w];
        i := i + 1;
      }
      j := j + 1;
    }
  }

  method Clear(hw: Board)
    modifies hw
    ensures hw.trace == old(hw.trace) + DisplayTrace(Blank(), Blank(), hw.busyHigh, old(hw.polls))
    ensures hw.polls == PollsAfterWait(hw.busyHigh, old(hw.polls))
  {
    SendCommand(hw, 0x10);
    SendPlane(hw, Blank());
    SendCommand(hw, 0x13);
    SendPlane(hw, Blank());
    TurnOnDisplay(hw);
    SeqAssoc5(old(hw.trace), CommandFrame(0x10), Stream(Blank()[..PLANE_BYTES]), CommandFrame(0x13),
              Stream(Blank()[..PLANE_BYTES]), RefreshTrace(hw.busyHigh, old(hw.polls)));
  }

  method Display(hw: Board, blackimage: seq<uint8>, ryimage: seq<uint8>)
    requires |blackimage| >= PLANE_BYTES && |ryimage| >= PLANE_BYTES
    modifies hw
    ensures hw.trace == old(hw.trace) + DisplayTrace(blackimage, ryimage, hw.busyHigh, old(hw.polls))
    ensures hw.polls == PollsAfterWait(hw.busyHigh, old(hw.polls))
  {
    SendCommand(hw, 0x10);
    SendPlane(hw, blackimage);
    SendCommand(hw, 0x13);
    SendPlane(hw, ryimage);
    TurnOnDisplay(hw);
    SeqAssoc5(old(hw.trace), CommandFrame(0x10), Stream(blackimage[..PLANE_BYTES]), CommandFrame(0x13),
              Stream(ryimage[..PLANE_BYTES]), RefreshTrace(hw.busyHigh, old(hw.polls)));
  }

  method Sleep(hw: Board)
    modifies hw
    ensures hw.trace == old(hw.trace) + SleepTrace(hw.busyHigh, old(hw.polls))
    ensures hw.polls == PollsAfterWait(hw.busyHigh, old(hw.polls))
  {
    SendCommand(hw, 0x50);
    SendData(hw, 0xF7);
    SendCommand(hw, 0x02);
    ReadBusy(hw);
    SendCommand(hw, 0x07);
    SendData(hw, 0xA5);
    SeqAssoc6(old(hw.trace), CommandFrame(0x50), DataFrame(0xF7), CommandFrame(0x02),
              WaitFrom(hw.busyHigh, old(hw.polls)), CommandFrame(0x07), DataFrame(0xA5));
  }

  // ---------------------------------------------------------------------
  // What the controller receives, and the watchdog

  /** A streamed plane reaches the controller as its bytes, as data, in order. */
  lemma {:induction false} ObserveStream(s: Lines, p: seq<uint8>)
    ensures Observe(s, Stream(p)) == Dats(p)
    ensures Settle(s, Stream(p)) == if p == [] then s else Lines(true, true)
    decreases |p|
  {
    if p != [] {
      var q, b := p[..|p| - 1], p[|p| - 1];
      ObserveStream(s, q);
      ObserveConcat(s, Stream(q) + DataFrame(b), [Feed]);
      ObserveConcat(s, Stream(q), DataFrame(b));
      ObserveData(Settle(s, Stream(q)), b);
      ObserveCons(Lines(true, true), Feed, []);
      DatsSnoc(p);
    }
  }

  /** Byte `k` of a streamed plane occupies events 5k .. 5k+4: its data frame
      and the watchdog feed after it. */
  lemma {:induction false} StreamAt(p: seq<uint8>, k: nat)
    requires k < |p|
    ensures |Stream(p)| == 5 * |p|
    ensures Stream(p)[5 * k .. 5 * k + 5] == DataFrame(p[k]) + [Feed]
    decreases |p|
  {
    var q := p[..|p| - 1];
    if k < |q| {
      StreamAt(q, k);
      assert Stream(p)[5 * k .. 5 * k + 5] == Stream(q)[5 * k .. 5 * k + 5];
    } else if q != [] {
      StreamAt(q, 0);
    }
  }

  /** A streamed plane never reads the busy pin. */
  lemma {:induction false} StreamNoPolls(p: seq<uint8>)
    ensures forall k :: 0 <= k < |Stream(p)| ==> !Stream(p)[k].Poll?
    decreases |p|
  {
    if p != [] {
      var q := p[..|p| - 1];
      var f: seq<Event> := DataFrame(p[|p| - 1]) + [Feed];
      StreamNoPolls(q);
      assert Stream(p) == Stream(q) + f;
      forall k | 0 <= k < |Stream(p)| ensures !Stream(p)[k].Poll? {
        if k >= |Stream(q)| {
          assert Stream(p)[k] == f[k - |Stream(q)|];
        } else {
          assert Stream(p)[k] == Stream(q)[k];
        }
      }
    }
  }

  /** A streamed plane feeds the watchdog once per byte. */
  lemma {:induction false} StreamFeedCount(p: seq<uint8>)
    ensures Count(Stream(p), Feed) == |p|
    decreases |p|
  {
    if p != [] {
      var q, b := p[..|p| - 1], p[|p| - 1];
      StreamFeedCount(q);
      var f: seq<Event> := DataFrame(b) + [Feed];
      assert Stream(p) == Stream(q) + f;
      CountConcat(Stream(q), f, Feed);
      assert f[..4] == DataFrame(b);
      FrameCounts(b, Feed);
      assert Count(f, Feed) == 1;
    }
  }

  /** Init only pulses reset: nothing reaches the controller. */
  lemma InitSendsNothing(s: Lines)
    ensures Observe(s, InitTrace()) == []
    ensures Settle(s, InitTrace()) == s.(cs := true)
  {
    var rest := [RstHigh] + DelayTrace(100) + [RstLow] + DelayTrace(2) + [RstHigh] + DelayTrace(10) + DelayTrace(10);
    assert InitTrace() == [CsHigh] + rest;
    assert Quiet(rest) by {
      forall k | 0 <= k < |rest| ensures QuietEvent(rest[k]) { }
    }
    ObserveCons(s, CsHigh, rest);
    ObserveQuiet(s.(cs := true), rest);
  }

  /** A refresh is the command 0x12 followed by the read-status command of its wait. */
  lemma ObserveRefresh(s: Lines, high: iset<nat>, start: nat)
    ensures Observe(s, RefreshTrace(high, start)) == [Cmd(0x12), Cmd(0x71)]
    ensures Settle(s, RefreshTrace(high, start)) == Lines(false, true)
  {
    var c, d, w := CommandFrame(0x12), DelayTrace(100), WaitFrom(high, start);
    ObserveConcat(s, c + d, w);
    ObserveConcat(s, c, d);
    ObserveCommand(s, 0x12);
    ObserveDelay(Lines(false, true), 100);
    ObserveWait(Lines(false, true), WaitIterations(high, start));
  }

  /** Display (and Clear, with two blank planes) sends command 0x10, the black plane
      as data, command 0x13, the red plane as data, then refreshes. */
  lemma DisplayProtocol(s: Lines, black: seq<uint8>, ry: seq<uint8>, high: iset<nat>, start: nat)
    requires |black| >= PLANE_BYTES && |ry| >= PLANE_BYTES
    ensures Observe(s, DisplayTrace(black, ry, high, start))
         == [Cmd(0x10)] + Dats(black[..PLANE_BYTES]) + [Cmd(0x13)] + Dats(ry[..PLANE_BYTES]) + [Cmd(0x12), Cmd(0x71)]
  {
    var c1, p1, c2, p2, r := CommandFrame(0x10), Stream(black[..PLANE_BYTES]), CommandFrame(0x13),
                             Stream(ry[..PLANE_BYTES]), RefreshTrace(high, start);
    Geometry();
    ObserveConcat(s, c1 + p1 + c2 + p2, r);
    ObserveConcat(s, c1 + p1 + c2, p2);
    ObserveConcat(s, c1 + p1, c2);
    ObserveConcat(s, c1, p1);
    ObserveCommand(s, 0x10);
    ObserveStream(Lines(false, true), black[..PLANE_BYTES]);
    ObserveCommand(Lines(true, true), 0x13);
    ObserveStream(Lines(false, true), ry[..PLANE_BYTES]);
    ObserveRefresh(Lines(true, true), high, start);
  }

  /** Row-major layout: the byte at column `i` of row `j` of each plane is the data
      byte in position `i + j * ROW_BYTES` after that plane's command. */
  lemma DisplayRowMajor(s: Lines, black: seq<uint8>, ry: seq<uint8>, high: iset<nat>, start: nat, i: nat, j: nat)
    requires |black| >= PLANE_BYTES && |ry| >= PLANE_BYTES
    requires i < ROW_BYTES && j < HEIGHT
    ensures i + j * ROW_BYTES < PLANE_BYTES
    ensures |Observe(s, DisplayTrace(black, ry, high, start))| == 2 * PLANE_BYTES + 4
    ensures Observe(s, DisplayTrace(black, ry, high, start))[1 + i + j * ROW_BYTES] == Dat(black[i + j * ROW_BYTES])
    ensures Observe(s, DisplayTrace(black, ry, high, start))[2 + PLANE_BYTES + i + j * ROW_BYTES] == Dat(ry[i + j * ROW_BYTES])
  {
    Geometry();
    DisplayProtocol(s, black, ry, high, start);
  }

  /** Clear sends 0xFF for every byte of both planes. */
  lemma ClearProtocol(s: Lines, high: iset<nat>, start: nat)
    ensures Observe(s, DisplayTrace(Blank(), Blank(), high, start))
         == [Cmd(0x10)] + Dats(Blank()) + [Cmd(0x13)] + Dats(Blank()) + [Cmd(0x12), Cmd(0x71)]
    ensures forall k :: 0 <= k < PLANE_BYTES ==> Dats(Blank())[k] == Dat(0xFF)
  {
    DisplayProtocol(s, Blank(), Blank(), high, start);
    assert Blank()[..PLANE_BYTES] == Blank();
  }

  /** The part of Sleep before its wait: VCOM and data interval 0x50 0xF7, power off 0x02. */
  lemma SleepHead(s: Lines)
    ensures Observe(s, CommandFrame(0x50) + DataFrame(0xF7) + CommandFrame(0x02)) == [Cmd(0x50), Dat(0xF7), Cmd(0x02)]
    ensures Settle(s, CommandFrame(0x50) + DataFrame(0xF7) + CommandFrame(0x02)) == Lines(false, true)
  {
    var a, b, c := CommandFrame(0x50), DataFrame(0xF7), CommandFrame(0x02);
    var cmd, dat := Lines(false, true), Lines(true, true);
    ObserveCommand(s, 0x50);
    ObserveData(cmd, 0xF7);
    ObserveAppend(s, a, b, [Cmd(0x50)], cmd, [Dat(0xF7)], dat);
    ObserveCommand(dat, 0x02);
    ObserveAppend(s, a + b, c, [Cmd(0x50), Dat(0xF7)], dat, [Cmd(0x02)], cmd);
  }

  /** The part of Sleep from its wait on: the read-status of the wait, deep sleep 0x07 0xA5. */
  lemma SleepTail(high: iset<nat>, start: nat)
    ensures Observe(Lines(false, true), WaitFrom(high, start) + CommandFrame(0x07) + DataFrame(0xA5))
         == [Cmd(0x71), Cmd(0x07), Dat(0xA5)]
    ensures Settle(Lines(false, true), WaitFrom(high, start) + CommandFrame(0x07) + DataFrame(0xA5)) == Lines(true, true)
  {
    var w, d, e := WaitFrom(high, start), CommandFrame(0x07), DataFrame(0xA5);
    var cmd, dat := Lines(false, true), Lines(true, true);
    ObserveWait(cmd, WaitIterations(high, start));
    ObserveCommand(cmd, 0x07);
    ObserveAppend(cmd, w, d, [Cmd(0x71)], cmd, [Cmd(0x07)], cmd);
    ObserveData(cmd, 0xA5);
    ObserveAppend(cmd, w + d, e, [Cmd(0x71), Cmd(0x07)], cmd, [Dat(0xA5)], dat);
  }

  /** Sleep: VCOM/data interval 0xF7, power off (0x02) and its wait, deep sleep 0xA5. */
  lemma SleepProtocol(s: Lines, high: iset<nat>, start: nat)
    ensures Observe(s, SleepTrace(high, start))
         == [Cmd(0x50), Dat(0xF7), Cmd(0x02), Cmd(0x71), Cmd(0x07), Dat(0xA5)]
    ensures Settle(s, SleepTrace(high, start)) == Lines(true, true)
  {
    var head := CommandFrame(0x50) + DataFrame(0xF7) + CommandFrame(0x02);
    var tail := WaitFrom(high, start) + CommandFrame(0x07) + DataFrame(0xA5);
    SleepHead(s);
    SleepTail(high, start);
    SeqAssoc3(head, WaitFrom(high, start), CommandFrame(0x07), DataFrame(0xA5));
    assert SleepTrace(high, start) == head + tail;
    ObserveAppend(s, head, tail, [Cmd(0x50), Dat(0xF7), Cmd(0x02)], Lines(false, true),
                  [Cmd(0x71), Cmd(0x07), Dat(0xA5)], Lines(true, true));
  }

  /** During Display and Clear every busy reading is followed at once by a feed. */
  lemma DisplayFed(black: seq<uint8>, ry: seq<uint8>, high: iset<nat>, start: nat)
    requires |black| >= PLANE_BYTES && |ry| >= PLANE_BYTES
    ensures PollsFed(DisplayTrace(black, ry, high, start))
  {
    var c1, p1, c2, p2 := CommandFrame(0x10), Stream(black[..PLANE_BYTES]), CommandFrame(0x13), Stream(ry[..PLANE_BYTES]);
    var c3, d, w := CommandFrame(0x12), DelayTrace(100), WaitFrom(high, start);
    assert DisplayTrace(black, ry, high, start) == c1 + p1 + c2 + p2 + (c3 + d + w);
    assert PollsFed(c1 + p1 + c2 + p2) by {
      StreamNoPolls(black[..PLANE_BYTES]);
      StreamNoPolls(ry[..PLANE_BYTES]);
      assert PollsFed(c1) && PollsFed(p1) && PollsFed(c2) && PollsFed(p2);
      PollsFedConcat(c1, p1);
      PollsFedConcat(c1 + p1, c2);
      PollsFedConcat(c1 + p1 + c2, p2);
    }
    assert PollsFed(c3 + d + w) by {
      WaitFed(WaitIterations(high, start));
      assert PollsFed(c3) && PollsFed(d);
      PollsFedConcat(c3, d);
      PollsFedConcat(c3 + d, w);
    }
    PollsFedConcat(c1 + p1 + c2 + p2, c3 + d + w);
  }

  /** Display and Clear feed the watchdog once for every byte of both planes, 200
      times in the 100 ms delay, and as the busy wait says. */
  lemma DisplayFeedCount(black: seq<uint8>, ry: seq<uint8>, high: iset<nat>, start: nat)
    requires |black| >= PLANE_BYTES && |ry| >= PLANE_BYTES
    ensures Count(DisplayTrace(black, ry, high, start), Feed)
         == 2 * PLANE_BYTES + 200 + 21 * WaitIterations(high, start) + 400
  {
    var planes := CommandFrame(0x10) + Stream(black[..PLANE_BYTES]) + CommandFrame(0x13) + Stream(ry[..PLANE_BYTES]);
    PlanesFeedCount(black[..PLANE_BYTES], ry[..PLANE_BYTES]);
    RefreshFeedCount(high, start);
    CountConcat(planes, RefreshTrace(high, start), Feed);
  }

  lemma PlanesFeedCount(black: seq<uint8>, ry: seq<uint8>)
    ensures Count(CommandFrame(0x10) + Stream(black) + CommandFrame(0x13) + Stream(ry), Feed) == |black| + |ry|
  {
    var c1, p1, c2, p2 := CommandFrame(0x10), Stream(black), CommandFrame(0x13), Stream(ry);
    StreamFeedCount(black);
    StreamFeedCount(ry);
    FrameCounts(0x10, Feed);
    FrameCounts(0x13, Feed);
    CountConcat4(c1, p1, c2, p2, Feed);
  }

  lemma RefreshFeedCount(high: iset<nat>, start: nat)
    ensures Count(RefreshTrace(high, start), Feed) == 200 + 21 * WaitIterations(high, start) + 400
  {
    var c3, d, w := CommandFrame(0x12), DelayTrace(100), WaitFrom(high, start);
    FrameCounts(0x12, Feed);
    FeedsCount(200);
    WaitCounts(WaitIterations(high, start));
    CountConcat(c3, d, Feed);
    CountConcat(c3 + d, w, Feed);
  }

  /** During Sleep every busy reading is followed at once by a feed. */
  lemma SleepFed(high: iset<nat>, start: nat)
    ensures PollsFed(SleepTrace(high, start))
  {
    var a, b, c, w, d, e := CommandFrame(0x50), DataFrame(0xF7), CommandFrame(0x02),
                            WaitFrom(high, start), CommandFrame(0x07), DataFrame(0xA5);
    WaitFed(WaitIterations(high, start));
    assert PollsFed(a) && PollsFed(b) && PollsFed(c) && PollsFed(d) && PollsFed(e);
    PollsFedConcat(a, b);
    PollsFedConcat(a + b, c);
    PollsFedConcat(a + b + c, w);
    PollsFedConcat(a + b + c + w, d);
    PollsFedConcat(a + b + c + w + d, e);
  }
}
