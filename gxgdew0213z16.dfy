/** The GxEPD-style driver for the GDEW0213Z16 panel (UC8151/IL0373, 104 x 212,
    black and red planes): its own command and data framing and busy wait, the
    full init sequence (reset pulse, booster, power on, panel setting, VCOM,
    resolution) and the clear-to-white sequence that ends in deep sleep. */
module GxGdew0213z16 {
  import opened Hal
  import opened Uc8151

  /** Bytes in one plane: 104 * 212 / 8. */
  const BUFFER_SIZE: nat := 2756

  /** The panel resolution the init sequence programs. */
  const WIDTH: nat := 104
  const HEIGHT: nat := 212

  /** A command byte followed by its parameter bytes as data. */
  function Command(c: uint8, params: seq<uint8>): seq<Event>
  {
    CommandFrame(c) + Frames(params)
  }

  /** The hardware reset of EPD_Init: RST low for 10 ms, then high for 10 ms. */
  function ResetPulse(): seq<Event>
  {
    [RstLow] + DelayTrace(10) + [RstHigh] + DelayTrace(10)
  }

  /** EPD_Init with the busy wait after power-on starting at poll `start`. */
  function InitTrace(high: iset<nat>, start: nat): seq<Event>
  {
    ResetPulse()
      + Command(0x06, [0x17, 0x17, 0x17])
      + CommandFrame(0x04) + WaitFrom(high, start)
      + Command(0x00, [0x8F])
      + Command(0x50, [0x37])
      + Command(0x61, [0x68, 0x00, 0xD4])
  }

  /** EPD_Clear with the first busy wait (inside EPD_Init) starting at poll `start`;
      each later wait starts where the previous one stopped. After init: command 0x10
      and 2 * BUFFER_SIZE bytes of 0xFF, command 0x13 and BUFFER_SIZE bytes of 0xFF,
      refresh (0x12) and its wait, power off (0x02) and its wait, deep sleep (0x07 0xA5). */
  function ClearTrace(high: iset<nat>, start: nat): seq<Event>
  {
    var p1 := PollsAfterWait(high, start);
    var p2 := PollsAfterWait(high, p1);
    InitTrace(high, start)
      + Command(0x10, Fill(0xFF, 2 * BUFFER_SIZE))
      + Command(0x13, Fill(0xFF, BUFFER_SIZE))
      + CommandFrame(0x12) + WaitFrom(high, p1)
      + CommandFrame(0x02) + WaitFrom(high, p2)
      + Command(0x07, [0xA5])
  }

  /** The busy-line reads done by the end of EPD_Clear: three waits, in EPD_Init,
      after the refresh and after power off. */
  function ClearPolls(high: iset<nat>, start: nat): nat
  {
    PollsAfterWait(high, PollsAfterWait(high, PollsAfterWait(high, start)))
  }

  // ---------------------------------------------------------------------
  // The driver

  method SendCommand(hw: Board, reg: uint8)
    modifies hw
    ensures hw.trace == old(hw.trace) + CommandFrame(reg)
    ensures hw.polls == old(hw.polls)
  {
    hw.SpiDcLow();
    hw.SpiCsLow();
    hw.SpiWriteByte(reg);
    hw.SpiCsHigh();
  }

  method SendData(hw: Board, data: uint8)
    modifies hw
    ensures hw.trace == old(hw.trace) + DataFrame(data)
    ensures hw.polls == old(hw.polls)
  {
    hw.SpiDcHigh();
    hw.SpiCsLow();
    hw.SpiWriteByte(data);
    hw.SpiCsHigh();
  }

  /** Sends `c` as a command, then each byte of `params` as data. */
  lemma CommandBytes(c: uint8, a: uint8, b: uint8, d: uint8)
    ensures Command(c, [a]) == CommandFrame(c) + DataFrame(a)
    ensures Command(c, [a, b, d]) == CommandFrame(c) + DataFrame(a) + DataFrame(b) + DataFrame(d)
  {
    assert [a, b, d][..2] == [a, b];
    assert [a, b][..1] == [a];
    assert [a][..0] == [];
    assert Frames([a]) == DataFrame(a);
    assert Frames([a, b]) == DataFrame(a) + DataFrame(b);
    assert Frames([a, b, d]) == DataFrame(a) + DataFrame(b) + DataFrame(d);
  }

  /** WaitBusy: command 0x71, then poll while the pin reads high, feeding the
      watchdog and waiting 10 ms per poll, giving up after 1000 polls; finally a
      200 ms settle delay. */
  method WaitBusy(hw: Board)
    modifies hw
    ensures hw.trace == old(hw.trace) + WaitFrom(hw.busyHigh, old(hw.polls))
    ensures hw.polls == PollsAfterWait(hw.busyHigh, old(hw.polls))
  {
    var timeout := 0;
    SendCommand(hw, 0x71);
    ghost var t0, p0 := hw.trace, hw.polls;
    ghost var n := WaitIterations(hw.busyHigh, p0);
    while true
      invariant 0 <= timeout < BUSY_LIMIT
      invariant hw.polls == p0 + timeout
      invariant HighRun(hw.busyHigh, p0, timeout) == n
      invariant hw.trace == t0 + Rounds(timeout)
      decreases BUSY_LIMIT - timeout
    {
      var busy := hw.EpdBusy();
      assert busy == (p0 + timeout in hw.busyHigh);
      if !busy {
        HighRunEnd(hw.busyHigh, p0, timeout);
        break;
      }
      hw.WdtFeed();
      Delay(hw, 10);
      RoundsStep(t0, timeout);
      HighRunStep(hw.busyHigh, p0, timeout);
      timeout := timeout + 1;
      if timeout >= 1000 {
        HighRunEnd(hw.busyHigh, p0, timeout);
        assert hw.trace + LastPoll(timeout) == hw.trace;
        break;
      }
    }
    assert timeout == n && hw.trace == t0 + Rounds(n) + LastPoll(n);
    Delay(hw, 200);
    WaitAssembled(old(hw.trace), n);
  }

  /** EPD_Init: reset pulse, booster soft start, power on and its wait, panel
      setting, VCOM and data interval, resolution 104 x 212. */
  method EPD_Init(hw: Board)
    modifies hw
    ensures hw.trace == old(hw.trace) + InitTrace(hw.busyHigh, old(hw.polls))
    ensures hw.polls == PollsAfterWait(hw.busyHigh, old(hw.polls))
  {
    ghost var t0, p0 := hw.trace, hw.polls;
    hw.SpiRstLow();
    Delay(hw, 10);
    hw.SpiRstHigh();
    Delay(hw, 10);
    SeqAssoc4(t0, [RstLow], DelayTrace(10), [RstHigh], DelayTrace(10));
    ghost var sent := ResetPulse();

    ghost var g := hw.trace;
    CommandBytes(0x06, 0x17, 0x17, 0x17);
    SendCommand(hw, 0x06);
    SendData(hw, 0x17);
    SendData(hw, 0x17);
    SendData(hw, 0x17);
    SeqAssoc4(g, CommandFrame(0x06), DataFrame(0x17), DataFrame(0x17), DataFrame(0x17));
    Extend(t0, sent, Command(0x06, [0x17, 0x17, 0x17]));
    sent := sent + Command(0x06, [0x17, 0x17, 0x17]);

    SendCommand(hw, 0x04);
    Extend(t0, sent, CommandFrame(0x04));
    sent := sent + CommandFrame(0x04);
    WaitBusy(hw);
    Extend(t0, sent, WaitFrom(hw.busyHigh, p0));
    sent := sent + WaitFrom(hw.busyHigh, p0);

    g := hw.trace;
    CommandBytes(0x00, 0x8F, 0, 0);
    SendCommand(hw, 0x00);
    SendData(hw, 0x8F);
    Extend(g, CommandFrame(0x00), DataFrame(0x8F));
    Extend(t0, sent, Command(0x00, [0x8F]));
    sent := sent + Command(0x00, [0x8F]);

    g := hw.trace;
    CommandBytes(0x50, 0x37, 0, 0);
    SendCommand(hw, 0x50);
    SendData(hw, 0x37);
    Extend(g, CommandFrame(0x50), DataFrame(0x37));
    Extend(t0, sent, Command(0x50, [0x37]));
    sent := sent + Command(0x50, [0x37]);

    g := hw.trace;
    CommandBytes(0x61, 0x68, 0x00, 0xD4);
    SendCommand(hw, 0x61);
    SendData(hw, 0x68);
    SendData(hw, 0x00);
    SendData(hw, 0xD4);
    SeqAssoc4(g, CommandFrame(0x61), DataFrame(0x68), DataFrame(0x00), DataFrame(0xD4));
    Extend(t0, sent, Command(0x61, [0x68, 0x00, 0xD4]));
    sent := sent + Command(0x61, [0x68, 0x00, 0xD4]);
    assert sent == InitTrace(hw.busyHigh, p0);
  }

  /** EPD_Clear: init, both planes all 0xFF (the first one twice as long), refresh,
      power off, deep sleep. */
  method EPD_Clear(hw: Board)
    modifies hw
    ensures hw.trace == old(hw.trace) + ClearTrace(hw.busyHigh, old(hw.polls))
    ensures hw.polls == ClearPolls(hw.busyHigh, old(hw.polls))
  {
    ghost var t0, p0 := hw.trace, hw.polls;
    EPD_Init(hw);
    ghost var sent := InitTrace(hw.busyHigh, p0);
    ghost var p1 := hw.polls;

    ghost var g := hw.trace;
    SendCommand(hw, 0x10);
    var i := 0;
    while i < BUFFER_SIZE * 2
      invariant 0 <= i <= BUFFER_SIZE * 2
      invariant hw.trace == g + CommandFrame(0x10) + Frames(Fill(0xFF, i))
      invariant hw.polls == p1
    {
      SendData(hw, 0xFF);
      FramesFillStep(0xFF, i);
      Extend(g + CommandFrame(0x10), Frames(Fill(0xFF, i)), DataFrame(0xFF));
      i := i + 1;
    }
    Extend(g, CommandFrame(0x10), Frames(Fill(0xFF, 2 * BUFFER_SIZE)));
    Extend(t0, sent, Command(0x10, Fill(0xFF, 2 * BUFFER_SIZE)));
    sent := sent + Command(0x10, Fill(0xFF, 2 * BUFFER_SIZE));

    g := hw.trace;
    SendCommand(hw, 0x13);
    i := 0;
    while i < BUFFER_SIZE
      invariant 0 <= i <= BUFFER_SIZE
      invariant hw.trace == g + CommandFrame(0x13) + Frames(Fill(0xFF, i))
      invariant hw.polls == p1
    {
      SendData(hw, 0xFF);
      FramesFillStep(0xFF, i);
      Extend(g + CommandFrame(0x13), Frames(Fill(0xFF, i)), DataFrame(0xFF));
      i := i + 1;
    }
    Extend(g, CommandFrame(0x13), Frames(Fill(0xFF, BUFFER_SIZE)));
    Extend(t0, sent, Command(0x13, Fill(0xFF, BUFFER_SIZE)));
    sent := sent + Command(0x13, Fill(0xFF, BUFFER_SIZE));

    SendCommand(hw, 0x12);
    Extend(t0, sent, CommandFrame(0x12));
    sent := sent + CommandFrame(0x12);
    WaitBusy(hw);
    Extend(t0, sent, WaitFrom(hw.busyHigh, p1));
    sent := sent + WaitFrom(hw.busyHigh, p1);
    ghost var p2 := hw.polls;

    SendCommand(hw, 0x02);
    Extend(t0, sent, CommandFrame(0x02));
    sent := sent + CommandFrame(0x02);
    WaitBusy(hw);
    Extend(t0, sent, WaitFrom(hw.busyHigh, p2));
    sent := sent + WaitFrom(hw.busyHigh, p2);

    g := hw.trace;
    CommandBytes(0x07, 0xA5, 0, 0);
    SendCommand(hw, 0x07);
    SendData(hw, 0xA5);
    Extend(g, CommandFrame(0x07), DataFrame(0xA5));
    Extend(t0, sent, Command(0x07, [0xA5]));
    sent := sent + Command(0x07, [0xA5]);
    assert sent == ClearTrace(hw.busyHigh, p0);
  }

  // ---------------------------------------------------------------------
  // What the controller receives, and the watchdog

  /** A command with its parameters reaches the controller as that command and
      those bytes as data. */
  lemma ObserveCommandParams(s: Lines, c: uint8, params: seq<uint8>)
    ensures Observe(s, Command(c, params)) == Sent(c, params)
    ensures Settle(s, Command(c, params)) == if params == [] then Lines(false, true) else Lines(true, true)
  {
    ObserveCommand(s, c);
    ObserveFrames(Lines(false, true), params);
    ObserveConcat(s, CommandFrame(c), Frames(params));
  }

  /** The reset pulse sends nothing. */
  lemma ObserveResetPulse(s: Lines)
    ensures Observe(s, ResetPulse()) == [] && Settle(s, ResetPulse()) == s
  {
    assert Quiet(ResetPulse()) by {
      forall k | 0 <= k < |ResetPulse()| ensures QuietEvent(ResetPulse()[k]) { }
    }
    ObserveQuiet(s, ResetPulse());
  }

  /** The resolution parameters are the panel's width as one byte and its height
      as two bytes, high byte first; a plane of that panel is BUFFER_SIZE bytes. */
  lemma ResolutionBytes()
    ensures [0x68, 0x00, 0xD4] == [WIDTH, HEIGHT / 0x100, HEIGHT % 0x100]
    ensures BUFFER_SIZE * 8 == WIDTH * HEIGHT
  {
  }

  /** The first part of EPD_Init, on the bus: the reset pulse sends nothing, then
      booster soft start 0x06 with 0x17 0x17 0x17, power on 0x04, and the
      read-status command of the wait. */
  lemma InitHead(s: Lines, high: iset<nat>, start: nat)
    ensures Observe(s, ResetPulse() + Command(0x06, [0x17, 0x17, 0x17]) + CommandFrame(0x04) + WaitFrom(high, start))
         == Sent(0x06, [0x17, 0x17, 0x17]) + [Cmd(0x04)] + [Cmd(0x71)]
    ensures Settle(s, ResetPulse() + Command(0x06, [0x17, 0x17, 0x17]) + CommandFrame(0x04) + WaitFrom(high, start))
         == Lines(false, true)
  {
    var cmd, dat := Lines(false, true), Lines(true, true);
    var r, c06, c04, w := ResetPulse(), Command(0x06, [0x17, 0x17, 0x17]), CommandFrame(0x04), WaitFrom(high, start);
    var f1 := Sent(0x06, [0x17, 0x17, 0x17]);
    ObserveResetPulse(s);
    ObserveCommandParams(s, 0x06, [0x17, 0x17, 0x17]);
    ObserveAppend(s, r, c06, [], s, f1, dat);
    ObserveCommand(dat, 0x04);
    ObserveAppend(s, r + c06, c04, f1, dat, [Cmd(0x04)], cmd);
    ObserveWait(cmd, WaitIterations(high, start));
    ObserveAppend(s, r + c06 + c04, w, f1 + [Cmd(0x04)], cmd, [Cmd(0x71)], cmd);
  }

  /** The bytes EPD_Init sends: booster soft start, power on and the read-status of
      its wait, panel setting 0x00 0x8F, VCOM and data interval 0x50 0x37, and
      resolution 0x61 0x68 0x00 0xD4 (see ResolutionBytes). */
  lemma InitProtocol(s: Lines, high: iset<nat>, start: nat)
    ensures Observe(s, InitTrace(high, start))
         == Sent(0x06, [0x17, 0x17, 0x17]) + [Cmd(0x04)] + [Cmd(0x71)]
          + Sent(0x00, [0x8F]) + Sent(0x50, [0x37]) + Sent(0x61, [0x68, 0x00, 0xD4])
    ensures Settle(s, InitTrace(high, start)) == Lines(true, true)
  {
    var cmd, dat := Lines(false, true), Lines(true, true);
    var head := ResetPulse() + Command(0x06, [0x17, 0x17, 0x17]) + CommandFrame(0x04) + WaitFrom(high, start);
    var c00, c50, c61 := Command(0x00, [0x8F]), Command(0x50, [0x37]), Command(0x61, [0x68, 0x00, 0xD4]);
    var f2 := Sent(0x06, [0x17, 0x17, 0x17]) + [Cmd(0x04)] + [Cmd(0x71)];
    InitHead(s, high, start);
    ObserveCommandParams(cmd, 0x00, [0x8F]);
    ObserveAppend(s, head, c00, f2, cmd, Sent(0x00, [0x8F]), dat);
    ObserveCommandParams(dat, 0x50, [0x37]);
    ObserveAppend(s, head + c00, c50, f2 + Sent(0x00, [0x8F]), dat, Sent(0x50, [0x37]), dat);
    ObserveCommandParams(dat, 0x61, [0x68, 0x00, 0xD4]);
    ObserveAppend(s, head + c00 + c50, c61, f2 + Sent(0x00, [0x8F]) + Sent(0x50, [0x37]), dat,
                  Sent(0x61, [0x68, 0x00, 0xD4]), dat);
  }

  /** EPD_Clear on the bus, up to the end of the two planes. */
  lemma ClearPlanes(s: Lines, high: iset<nat>, start: nat)
    ensures Observe(s, InitTrace(high, start) + Command(0x10, Fill(0xFF, 2 * BUFFER_SIZE)) + Command(0x13, Fill(0xFF, BUFFER_SIZE)))
         == Observe(s, InitTrace(high, start)) + Sent(0x10, Fill(0xFF, 2 * BUFFER_SIZE)) + Sent(0x13, Fill(0xFF, BUFFER_SIZE))
    ensures Settle(s, InitTrace(high, start) + Command(0x10, Fill(0xFF, 2 * BUFFER_SIZE)) + Command(0x13, Fill(0xFF, BUFFER_SIZE)))
         == Lines(true, true)
  {
    var dat := Lines(true, true);
    var i, b, r := InitTrace(high, start), Fill(0xFF, 2 * BUFFER_SIZE), Fill(0xFF, BUFFER_SIZE);
    InitProtocol(s, high, start);
    assert b != [] && r != [];
    ObserveCommandParams(dat, 0x10, b);
    ObserveAppend(s, i, Command(0x10, b), Observe(s, i), dat, Sent(0x10, b), dat);
    ObserveCommandParams(dat, 0x13, r);
    ObserveAppend(s, i + Command(0x10, b), Command(0x13, r), Observe(s, i) + Sent(0x10, b), dat, Sent(0x13, r), dat);
  }

  /** EPD_Clear on the bus: the init bytes; command 0x10 and 2 * BUFFER_SIZE bytes of
      0xFF; command 0x13 and BUFFER_SIZE bytes of 0xFF; refresh 0x12 and the
      read-status of its wait; power off 0x02 and the read-status of its wait; deep
      sleep 0x07 0xA5. */
  lemma ClearProtocol(s: Lines, high: iset<nat>, start: nat)
    ensures Observe(s, ClearTrace(high, start))
         == Observe(s, InitTrace(high, start))
          + Sent(0x10, Fill(0xFF, 2 * BUFFER_SIZE)) + Sent(0x13, Fill(0xFF, BUFFER_SIZE))
          + [Cmd(0x12)] + [Cmd(0x71)] + [Cmd(0x02)] + [Cmd(0x71)] + Sent(0x07, [0xA5])
    ensures Settle(s, ClearTrace(high, start)) == Lines(true, true)
  {
    var cmd, dat := Lines(false, true), Lines(true, true);
    var p1 := PollsAfterWait(high, start);
    var p2 := PollsAfterWait(high, p1);
    var planes := InitTrace(high, start) + Command(0x10, Fill(0xFF, 2 * BUFFER_SIZE)) + Command(0x13, Fill(0xFF, BUFFER_SIZE));
    var f := Observe(s, InitTrace(high, start)) + Sent(0x10, Fill(0xFF, 2 * BUFFER_SIZE)) + Sent(0x13, Fill(0xFF, BUFFER_SIZE));
    ClearPlanes(s, high, start);
    ObserveCommand(dat, 0x12);
    ObserveAppend(s, planes, CommandFrame(0x12), f, dat, [Cmd(0x12)], cmd);
    ObserveWait(cmd, WaitIterations(high, p1));
    ObserveAppend(s, planes + CommandFrame(0x12), WaitFrom(high, p1), f + [Cmd(0x12)], cmd, [Cmd(0x71)], cmd);
    ObserveCommand(cmd, 0x02);
    ObserveAppend(s, planes + CommandFrame(0x12) + WaitFrom(high, p1), CommandFrame(0x02),
                  f + [Cmd(0x12)] + [Cmd(0x71)], cmd, [Cmd(0x02)], cmd);
    ObserveWait(cmd, WaitIterations(high, p2));
    ObserveAppend(s, planes + CommandFrame(0x12) + WaitFrom(high, p1) + CommandFrame(0x02), WaitFrom(high, p2),
                  f + [Cmd(0x12)] + [Cmd(0x71)] + [Cmd(0x02)], cmd, [Cmd(0x71)], cmd);
    ObserveCommandParams(cmd, 0x07, [0xA5]);
    ObserveAppend(s, planes + CommandFrame(0x12) + WaitFrom(high, p1) + CommandFrame(0x02) + WaitFrom(high, p2),
                  Command(0x07, [0xA5]), f + [Cmd(0x12)] + [Cmd(0x71)] + [Cmd(0x02)] + [Cmd(0x71)], cmd,
                  Sent(0x07, [0xA5]), dat);
  }

  // The watchdog: every busy reading is followed at once by a feed.

  lemma CommandFed(c: uint8, params: seq<uint8>)
    ensures PollsFed(Command(c, params))
  {
    FramesNoPolls(params);
    assert NoPolls(CommandFrame(c));
    PollsFedConcat(CommandFrame(c), Frames(params));
  }

  lemma InitFed(high: iset<nat>, start: nat)
    ensures PollsFed(InitTrace(high, start))
  {
    var r, c06, c04, w := ResetPulse(), Command(0x06, [0x17, 0x17, 0x17]), CommandFrame(0x04), WaitFrom(high, start);
    var c00, c50, c61 := Command(0x00, [0x8F]), Command(0x50, [0x37]), Command(0x61, [0x68, 0x00, 0xD4]);
    assert PollsFed(r) && PollsFed(c04);
    CommandFed(0x06, [0x17, 0x17, 0x17]);
    CommandFed(0x00, [0x8F]);
    CommandFed(0x50, [0x37]);
    CommandFed(0x61, [0x68, 0x00, 0xD4]);
    WaitFed(WaitIterations(high, start));
    PollsFedConcat(r, c06);
    PollsFedConcat(r + c06, c04);
    PollsFedConcat(r + c06 + c04, w);
    PollsFedConcat(r + c06 + c04 + w, c00);
    PollsFedConcat(r + c06 + c04 + w + c00, c50);
    PollsFedConcat(r + c06 + c04 + w + c00 + c50, c61);
  }

  lemma ClearFed(high: iset<nat>, start: nat)
    ensures PollsFed(ClearTrace(high, start))
  {
    var p1 := PollsAfterWait(high, start);
    var p2 := PollsAfterWait(high, p1);
    var i, c10, c13 := InitTrace(high, start), Command(0x10, Fill(0xFF, 2 * BUFFER_SIZE)), Command(0x13, Fill(0xFF, BUFFER_SIZE));
    var c12, w1, c02, w2, c07 := CommandFrame(0x12), WaitFrom(high, p1), CommandFrame(0x02), WaitFrom(high, p2), Command(0x07, [0xA5]);
    InitFed(high, start);
    CommandFed(0x10, Fill(0xFF, 2 * BUFFER_SIZE));
    CommandFed(0x13, Fill(0xFF, BUFFER_SIZE));
    CommandFed(0x07, [0xA5]);
    assert PollsFed(c12) && PollsFed(c02);
    WaitFed(WaitIterations(high, p1));
    WaitFed(WaitIterations(high, p2));
    PollsFedConcat(i, c10);
    PollsFedConcat(i + c10, c13);
    PollsFedConcat(i + c10 + c13, c12);
    PollsFedConcat(i + c10 + c13 + c12, w1);
    PollsFedConcat(i + c10 + c13 + c12 + w1, c02);
    PollsFedConcat(i + c10 + c13 + c12 + w1 + c02, w2);
    PollsFedConcat(i + c10 + c13 + c12 + w1 + c02 + w2, c07);
  }
}
