/** The UC8151/IL0373 controller's side of the bus, shared by both panel
    drivers: how the controller decodes the event trace into command and data
    bytes, the shape of one framed byte, and the busy-wait policy (read-status
    command, at most 1000 polls, a watchdog feed in every poll, a settle delay). */
module Uc8151 {
  import opened Hal

  /** A byte as the controller latches it: DC low makes it a command, DC high data. */
  datatype Frame = Cmd(b: uint8) | Dat(b: uint8)

  /** Levels of the two select lines; true is high. */
  datatype Lines = Lines(dc: bool, cs: bool)

  /** The four events of SendCommand: DC low, CS low, the byte, CS high. */
  function CommandFrame(b: uint8): seq<Event>
  {
    [DcLow, CsLow, Spi(b), CsHigh]
  }

  /** The four events of SendData: DC high, CS low, the byte, CS high. */
  function DataFrame(b: uint8): seq<Event>
  {
    [DcHigh, CsLow, Spi(b), CsHigh]
  }

  /** The select lines after one event. */
  function After(s: Lines, e: Event): Lines
  {
    match e
    case CsLow => s.(cs := false)
    case CsHigh => s.(cs := true)
    case DcLow => s.(dc := false)
    case DcHigh => s.(dc := true)
    case _ => s
  }

  /** What the controller latches from one event: a byte clocked in while it is selected. */
  function Latched(s: Lines, e: Event): seq<Frame>
  {
    if e.Spi? && !s.cs then [if s.dc then Dat(e.b) else Cmd(e.b)] else []
  }

  /** The bytes the controller receives from trace `t`, starting with lines `s`. */
  function Observe(s: Lines, t: seq<Event>): seq<Frame>
    decreases |t|
  {
    if t == [] then [] else Latched(s, t[0]) + Observe(After(s, t[0]), t[1..])
  }

  /** The select lines after trace `t`, starting with lines `s`. */
  function Settle(s: Lines, t: seq<Event>): Lines
    decreases |t|
  {
    if t == [] then s else Settle(After(s, t[0]), t[1..])
  }

  /** Decoding a trace piecewise gives the same bytes as decoding it whole. */
  lemma {:induction false} ObserveConcat(s: Lines, a: seq<Event>, b: seq<Event>)
    ensures Observe(s, a + b) == Observe(s, a) + Observe(Settle(s, a), b)
    ensures Settle(s, a + b) == Settle(Settle(s, a), b)
    decreases |a|
  {
    if a != [] {
      assert (a + b)[0] == a[0];
      assert (a + b)[1..] == a[1..] + b;
      ObserveConcat(After(s, a[0]), a[1..], b);
    } else {
      assert a + b == b;
    }
  }

  /** Decoding a trace piecewise, given what each piece decodes to. */
  lemma ObserveAppend(s: Lines, a: seq<Event>, b: seq<Event>, fa: seq<Frame>, sa: Lines, fb: seq<Frame>, sb: Lines)
    requires Observe(s, a) == fa && Settle(s, a) == sa
    requires Observe(sa, b) == fb && Settle(sa, b) == sb
    ensures Observe(s, a + b) == fa + fb && Settle(s, a + b) == sb
  {
    ObserveConcat(s, a, b);
  }

  /** Decoding one event in front of a trace. */
  lemma ObserveCons(s: Lines, e: Event, t: seq<Event>)
    ensures Observe(s, [e] + t) == Latched(s, e) + Observe(After(s, e), t)
    ensures Settle(s, [e] + t) == Settle(After(s, e), t)
  {
    assert ([e] + t)[0] == e;
    assert ([e] + t)[1..] == t;
  }

  /** A select-line edge, a byte, and a deselect: the byte is latched with the DC level
      `dc` and the controller is left deselected. */
  lemma ObserveFramed(s: Lines, dcEdge: Event, b: uint8)
    requires dcEdge == DcLow || dcEdge == DcHigh
    ensures Observe(s, [dcEdge, CsLow, Spi(b), CsHigh]) == [if dcEdge == DcHigh then Dat(b) else Cmd(b)]
    ensures Settle(s, [dcEdge, CsLow, Spi(b), CsHigh]) == Lines(dcEdge == DcHigh, true)
  {
    var s1 := After(s, dcEdge);
    var s2 := After(s1, CsLow);
    ObserveCons(s2, Spi(b), [CsHigh]);
    ObserveCons(s2, CsHigh, []);
    ObserveCons(s2.(cs := true), CsHigh, []);
    ObserveCons(s1, CsLow, [Spi(b), CsHigh]);
    ObserveCons(s, dcEdge, [CsLow, Spi(b), CsHigh]);
  }

  /** A framed command reaches the controller as exactly that command, whatever
      the lines were before, and leaves the controller deselected. */
  lemma ObserveCommand(s: Lines, b: uint8)
    ensures Observe(s, CommandFrame(b)) == [Cmd(b)]
    ensures Settle(s, CommandFrame(b)) == Lines(false, true)
  {
    ObserveFramed(s, DcLow, b);
  }

  /** A framed data byte reaches the controller as exactly that data byte. */
  lemma ObserveData(s: Lines, b: uint8)
    ensures Observe(s, DataFrame(b)) == [Dat(b)]
    ensures Settle(s, DataFrame(b)) == Lines(true, true)
  {
    ObserveFramed(s, DcHigh, b);
  }

  /** A trace without SPI bytes and select-line edges delivers nothing and
      changes no line. */
  ghost predicate Quiet(t: seq<Event>)
  {
    forall k :: 0 <= k < |t| ==> QuietEvent(t[k])
  }

  predicate QuietEvent(e: Event)
  {
    e.Feed? || e.Poll? || e.RstLow? || e.RstHigh?
  }

  lemma {:induction false} ObserveQuiet(s: Lines, t: seq<Event>)
    requires Quiet(t)
    ensures Observe(s, t) == [] && Settle(s, t) == s
    decreases |t|
  {
    if t != [] {
      assert Quiet(t[1..]) by {
        forall k | 0 <= k < |t[1..]| ensures t[1..][k] == t[k + 1] { }
      }
      ObserveQuiet(s, t[1..]);
    }
  }

  /** The data frames carrying the bytes of `p`, in order. */
  function Dats(p: seq<uint8>): (r: seq<Frame>)
    ensures |r| == |p|
  {
    seq(|p|, k requires 0 <= k < |p| => Dat(p[k]))
  }

  /** What the controller receives for command `c` with parameter bytes `params`. */
  function Sent(c: uint8, params: seq<uint8>): seq<Frame>
  {
    [Cmd(c)] + Dats(params)
  }

  lemma DatsSnoc(p: seq<uint8>)
    requires p != []
    ensures Dats(p) == Dats(p[..|p| - 1]) + [Dat(p[|p| - 1])]
  {
  }

  /** Bytes sent back to back as data, each framed by SendData, with nothing between. */
  function Frames(p: seq<uint8>): seq<Event>
  {
    if p == [] then [] else Frames(p[..|p| - 1]) + DataFrame(p[|p| - 1])
  }

  /** `n` copies of byte `b`. */
  function Fill(b: uint8, n: nat): seq<uint8>
  {
    seq(n, _ => b)
  }

  /** One more copy of `b` sent as data. */
  lemma FramesFillStep(b: uint8, n: nat)
    ensures Frames(Fill(b, n + 1)) == Frames(Fill(b, n)) + DataFrame(b)
  {
    assert Fill(b, n + 1)[..n] == Fill(b, n);
  }

  /** Back-to-back data frames reach the controller as their bytes, as data, in order. */
  lemma {:induction false} ObserveFrames(s: Lines, p: seq<uint8>)
    ensures Observe(s, Frames(p)) == Dats(p)
    ensures Settle(s, Frames(p)) == if p == [] then s else Lines(true, true)
    decreases |p|
  {
    if p != [] {
      var q := p[..|p| - 1];
      ObserveFrames(s, q);
      ObserveConcat(s, Frames(q), DataFrame(p[|p| - 1]));
      ObserveData(Settle(s, Frames(q)), p[|p| - 1]);
      DatsSnoc(p);
    }
  }

  /** Back-to-back data frames neither feed the watchdog nor read the busy pin. */
  lemma {:induction false} FramesCount(p: seq<uint8>, x: Event)
    requires x == Feed || x.Poll?
    ensures Count(Frames(p), x) == 0
    decreases |p|
  {
    if p != [] {
      FramesCount(p[..|p| - 1], x);
      FrameCounts(p[|p| - 1], x);
      CountConcat(Frames(p[..|p| - 1]), DataFrame(p[|p| - 1]), x);
    }
  }

  /** A delay is silent on the bus. */
  lemma ObserveDelay(s: Lines, ms: uint16)
    ensures Observe(s, DelayTrace(ms)) == [] && Settle(s, DelayTrace(ms)) == s
  {
    assert Quiet(DelayTrace(ms));
    ObserveQuiet(s, DelayTrace(ms));
  }

  // ---------------------------------------------------------------------
  // The busy wait

  /** Hard ceiling on the number of busy polls of one wait. */
  const BUSY_LIMIT: nat := 1000

  /** Polls made from poll `k` on, given that polls `start .. start+k` read high:
      the wait goes on while the pin reads high and stops at the ceiling. */
  function HighRun(high: iset<nat>, start: nat, k: nat): (n: nat)
    requires k <= BUSY_LIMIT
    ensures k <= n <= BUSY_LIMIT
    decreases BUSY_LIMIT - k
  {
    if k == BUSY_LIMIT || start + k !in high then k else HighRun(high, start, k + 1)
  }

  /** The run counted from `k` stops at the first low reading from `k` on, or at
      the ceiling. */
  lemma {:induction false} HighRunSpec(high: iset<nat>, start: nat, k: nat)
    requires k <= BUSY_LIMIT
    ensures forall p :: start + k <= p < start + HighRun(high, start, k) ==> p in high
    ensures HighRun(high, start, k) < BUSY_LIMIT ==> start + HighRun(high, start, k) !in high
    decreases BUSY_LIMIT - k
  {
    if k < BUSY_LIMIT && start + k in high {
      HighRunSpec(high, start, k + 1);
    }
  }

  /** Any count meeting the exit rule from `k` on is the run counted from `k`. */
  lemma {:induction false} HighRunFrom(high: iset<nat>, start: nat, k: nat, n: nat)
    requires k <= n <= BUSY_LIMIT
    requires forall p :: start + k <= p < start + n ==> p in high
    requires n < BUSY_LIMIT ==> start + n !in high
    ensures HighRun(high, start, k) == n
    decreases n - k
  {
    if k < n {
      assert start + k in high;
      HighRunFrom(high, start, k + 1, n);
    }
  }

  /** A high reading below the ceiling lets the wait go on: the run counted from
      `k` is the run counted from `k + 1`. */
  lemma HighRunStep(high: iset<nat>, start: nat, k: nat)
    requires k < BUSY_LIMIT && start + k in high
    ensures HighRun(high, start, k) == HighRun(high, start, k + 1)
  {
  }

  /** A low reading, or the ceiling, ends the run where it is. */
  lemma HighRunEnd(high: iset<nat>, start: nat, k: nat)
    requires k <= BUSY_LIMIT && (k == BUSY_LIMIT || start + k !in high)
    ensures HighRun(high, start, k) == k
  {
  }

  /** Number of loop iterations of one busy wait whose first poll is poll `start`
      of the busy pin: the length of the run of high readings, capped at 1000. */
  function WaitIterations(high: iset<nat>, start: nat): (n: nat)
    ensures n <= BUSY_LIMIT
  {
    HighRun(high, start, 0)
  }

  /** The wait goes on exactly while the pin reads high: every poll before the
      last iteration count read high, and the next one reads low unless the
      ceiling stopped the wait. */
  lemma WaitIterationsSpec(high: iset<nat>, start: nat)
    ensures forall p :: start <= p < start + WaitIterations(high, start) ==> p in high
    ensures WaitIterations(high, start) < BUSY_LIMIT ==> start + WaitIterations(high, start) !in high
  {
    HighRunSpec(high, start, 0);
  }

  /** The iteration count is the only one meeting the loop's exit rule. */
  lemma WaitIterationsUnique(high: iset<nat>, start: nat, n: nat)
    requires n <= BUSY_LIMIT
    requires forall p :: start <= p < start + n ==> p in high
    requires n < BUSY_LIMIT ==> start + n !in high
    ensures WaitIterations(high, start) == n
  {
    HighRunFrom(high, start, 0, n);
  }

  /** Busy-pin reads made by a wait of `n` iterations: one per iteration, plus the
      final low reading unless the ceiling was hit (the loop breaks without reading). */
  function SamplesRead(n: nat): (r: nat)
    requires n <= BUSY_LIMIT
    ensures r <= BUSY_LIMIT
  {
    if n < BUSY_LIMIT then n + 1 else n
  }

  /** One iteration of the wait loop: the pin read high, WDT_FEED, HAL_Delay(10). */
  function PollRound(): seq<Event>
  {
    [Poll(true), Feed] + DelayTrace(10)
  }

  /** `n` iterations of the wait loop. */
  function Rounds(n: nat): seq<Event>
  {
    if n == 0 then [] else Rounds(n - 1) + PollRound()
  }

  /** One more iteration of the wait loop. */
  lemma RoundsStep(t0: seq<Event>, n: nat)
    ensures t0 + Rounds(n) + [Poll(true)] + [Feed] + DelayTrace(10) == t0 + Rounds(n + 1)
  {
    assert Rounds(n + 1) == Rounds(n) + PollRound();
  }

  /** The events of a busy wait of `n` iterations: command 0x71, the iterations,
      the low reading that ends the loop early (absent at the ceiling), HAL_Delay(200). */
  function WaitTrace(n: nat): seq<Event>
    requires n <= BUSY_LIMIT
  {
    CommandFrame(0x71) + Rounds(n) + LastPoll(n) + DelayTrace(200)
  }

  /** The reading that ended the loop: low, unless the ceiling ended it first. */
  function LastPoll(n: nat): seq<Event>
  {
    if n < BUSY_LIMIT then [Poll(false)] else []
  }

  /** The trace of a wait, assembled from the events the loop leaves behind. */
  lemma WaitAssembled(t: seq<Event>, n: nat)
    requires n <= BUSY_LIMIT
    ensures t + CommandFrame(0x71) + Rounds(n) + LastPoll(n) + DelayTrace(200) == t + WaitTrace(n)
  {
    SeqAssoc4(t, CommandFrame(0x71), Rounds(n), LastPoll(n), DelayTrace(200));
  }

  /** The busy wait whose first poll is poll `start` of the busy line. */
  function WaitFrom(high: iset<nat>, start: nat): seq<Event>
  {
    WaitTrace(WaitIterations(high, start))
  }

  /** The poll count after the busy wait whose first poll is poll `start`. */
  function PollsAfterWait(high: iset<nat>, start: nat): (p: nat)
    ensures start < p <= start + BUSY_LIMIT
  {
    start + SamplesRead(WaitIterations(high, start))
  }

  lemma {:induction false} RoundsQuiet(n: nat)
    ensures Quiet(Rounds(n))
  {
    if n > 0 {
      RoundsQuiet(n - 1);
      var a: seq<Event> := Rounds(n - 1);
      var b: seq<Event> := PollRound();
      forall k | 0 <= k < |a + b|
        ensures QuietEvent((a + b)[k])
      {
        if k >= |a| { assert (a + b)[k] == b[k - |a|]; }
      }
    }
  }

  /** On the bus, a busy wait is the read-status command 0x71 and nothing else. */
  lemma ObserveWait(s: Lines, n: nat)
    requires n <= BUSY_LIMIT
    ensures Observe(s, WaitTrace(n)) == [Cmd(0x71)]
    ensures Settle(s, WaitTrace(n)) == Lines(false, true)
  {
    var tail := Rounds(n) + LastPoll(n) + DelayTrace(200);
    RoundsQuiet(n);
    assert Quiet(tail) by {
      var a := Rounds(n) + LastPoll(n);
      forall k | 0 <= k < |tail| ensures QuietEvent(tail[k]) {
        if k < |Rounds(n)| {
          assert tail[k] == Rounds(n)[k];
        } else if k < |a| {
          assert tail[k] == Poll(false);
        } else {
          assert tail[k] == DelayTrace(200)[k - |a|];
        }
      }
    }
    assert WaitTrace(n) == CommandFrame(0x71) + tail;
    ObserveConcat(s, CommandFrame(0x71), tail);
    ObserveCommand(s, 0x71);
    ObserveQuiet(Lines(false, true), tail);
  }

  // ---------------------------------------------------------------------
  // The watchdog during a busy wait

  /** Every reading of the busy pin that finds the panel busy is followed at once
      by a watchdog feed: the loop never spins without feeding. */
  ghost predicate PollsFed(t: seq<Event>)
  {
    forall k :: 0 <= k < |t| && t[k] == Poll(true) ==> k + 1 < |t| && t[k + 1] == Feed
  }

  lemma PollsFedConcat(a: seq<Event>, b: seq<Event>)
    requires PollsFed(a) && PollsFed(b)
    ensures PollsFed(a + b)
  {
    forall k | 0 <= k < |a + b| && (a + b)[k] == Poll(true)
      ensures k + 1 < |a + b| && (a + b)[k + 1] == Feed
    {
      if k < |a| {
        assert a[k] == Poll(true);
      } else {
        assert b[k - |a|] == Poll(true);
      }
    }
  }

  lemma {:induction false} RoundsFed(n: nat)
    ensures PollsFed(Rounds(n))
  {
    if n > 0 {
      RoundsFed(n - 1);
      var r := PollRound();
      assert PollsFed(r);
      PollsFedConcat(Rounds(n - 1), r);
    }
  }

  /** A trace that never reads the busy pin. */
  ghost predicate NoPolls(t: seq<Event>)
  {
    forall k :: 0 <= k < |t| ==> !t[k].Poll?
  }

  /** Back-to-back data frames never read the busy pin. */
  lemma {:induction false} FramesNoPolls(p: seq<uint8>)
    ensures NoPolls(Frames(p))
    decreases |p|
  {
    if p != [] {
      var q := p[..|p| - 1];
      var f := DataFrame(p[|p| - 1]);
      FramesNoPolls(q);
      forall k | 0 <= k < |Frames(p)| ensures !Frames(p)[k].Poll? {
        if k >= |Frames(q)| {
          assert Frames(p)[k] == f[k - |Frames(q)|];
        } else {
          assert Frames(p)[k] == Frames(q)[k];
        }
      }
    }
  }

  /** Every busy iteration of a wait, the one that reaches the ceiling included,
      feeds the watchdog before anything else happens. */
  lemma WaitFed(n: nat)
    requires n <= BUSY_LIMIT
    ensures PollsFed(WaitTrace(n))
  {
    var c, r: seq<Event> := CommandFrame(0x71), Rounds(n);
    var e: seq<Event> := LastPoll(n);
    RoundsFed(n);
    assert PollsFed(c);
    PollsFedConcat(c, r);
    assert PollsFed(e);
    PollsFedConcat(c + r, e);
    assert PollsFed(DelayTrace(200));
    PollsFedConcat(c + r + e, DelayTrace(200));
  }

  /** Occurrences of `x` in `t`. */
  function Count(t: seq<Event>, x: Event): nat
  {
    if t == [] then 0 else Count(t[..|t| - 1], x) + (if t[|t| - 1] == x then 1 else 0)
  }

  lemma {:induction false} CountConcat(a: seq<Event>, b: seq<Event>, x: Event)
    ensures Count(a + b, x) == Count(a, x) + Count(b, x)
    decreases |b|
  {
    if b != [] {
      assert (a + b)[..|a + b| - 1] == a + b[..|b| - 1];
      CountConcat(a, b[..|b| - 1], x);
    } else {
      assert a + b == a;
    }
  }

  /** A trace in which `x` never occurs. */
  lemma {:induction false} CountAbsent(t: seq<Event>, x: Event)
    requires forall k :: 0 <= k < |t| ==> t[k] != x
    ensures Count(t, x) == 0
    decreases |t|
  {
    if t != [] {
      CountAbsent(t[..|t| - 1], x);
    }
  }

  /** A framed byte neither feeds the watchdog nor reads the busy pin. */
  lemma FrameCounts(b: uint8, x: Event)
    requires x == Feed || x.Poll?
    ensures Count(CommandFrame(b), x) == 0 && Count(DataFrame(b), x) == 0
  {
    CountAbsent(CommandFrame(b), x);
    CountAbsent(DataFrame(b), x);
  }

  lemma {:induction false} FeedsCount(n: nat)
    ensures Count(Feeds(n), Feed) == n
  {
    if n > 0 {
      FeedsCount(n - 1);
      assert Feeds(n)[..n - 1] == Feeds(n - 1);
    }
  }

  lemma {:induction false} RoundsCount(n: nat)
    ensures Count(Rounds(n), Poll(true)) == n
    ensures Count(Rounds(n), Poll(false)) == 0
    ensures Count(Rounds(n), Feed) == 21 * n
  {
    if n > 0 {
      RoundsCount(n - 1);
      var r := PollRound();
      FeedsCount(20);
      CountAbsent(DelayTrace(10), Poll(true));
      CountAbsent(DelayTrace(10), Poll(false));
      CountConcat([Poll(true), Feed], DelayTrace(10), Feed);
      CountConcat([Poll(true), Feed], DelayTrace(10), Poll(true));
      CountConcat([Poll(true), Feed], DelayTrace(10), Poll(false));
      assert [Poll(true), Feed][..1] == [Poll(true)];
      CountConcat(Rounds(n - 1), r, Feed);
      CountConcat(Rounds(n - 1), r, Poll(true));
      CountConcat(Rounds(n - 1), r, Poll(false));
    }
  }

  /** A wait of `n` iterations reads the busy pin SamplesRead(n) times, finds it
      busy exactly `n` times, and feeds the watchdog 21 times per iteration (one
      WDT_FEED, twenty in HAL_Delay(10)) plus 400 times in the final HAL_Delay(200). */
  lemma WaitCounts(n: nat)
    requires n <= BUSY_LIMIT
    ensures Count(WaitTrace(n), Poll(true)) == n
    ensures Count(WaitTrace(n), Poll(true)) + Count(WaitTrace(n), Poll(false)) == SamplesRead(n)
    ensures Count(WaitTrace(n), Feed) == 21 * n + 400
  {
    var c, r, e, d: seq<Event> := CommandFrame(0x71), Rounds(n), LastPoll(n), DelayTrace(200);
    CountConcat4(c, r, e, d, Feed);
    CountConcat4(c, r, e, d, Poll(true));
    CountConcat4(c, r, e, d, Poll(false));
    RoundsCount(n);
    FeedsCount(400);
    CountAbsent(d, Poll(true));
    CountAbsent(d, Poll(false));
    CountAbsent(c, Feed);
    CountAbsent(c, Poll(true));
    CountAbsent(c, Poll(false));
    assert Count(e, Poll(false)) == if n < BUSY_LIMIT then 1 else 0;
    assert Count(e, Poll(true)) == 0 && Count(e, Feed) == 0;
  }

  lemma CountConcat4(c: seq<Event>, r: seq<Event>, e: seq<Event>, d: seq<Event>, x: Event)
    ensures Count(c + r + e + d, x) == Count(c, x) + Count(r, x) + Count(e, x) + Count(d, x)
  {
    CountConcat(c, r, x);
    CountConcat(c + r, e, x);
    CountConcat(c + r + e, d, x);
  }
}
