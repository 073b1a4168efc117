/** The board as the drivers see it: the e-paper control lines (chip select,
    data/command select, reset), the SPI byte transmitter, the watchdog and the
    busy input. Every effect is recorded, in order, in a trace of events; the busy
    pin is an input stream sampled once per read. The delay helper of
    hal_delay.h lives here too, since every driver uses it. */
module Hal {

  type uint8 = x: int | 0 <= x < 0x100
  type uint16 = x: int | 0 <= x < 0x1_0000

  /** One observable effect on the board. */
  datatype Event =
    | CsLow | CsHigh          // chip select (P0_4)
    | DcLow | DcHigh          // data/command select (P0_2)
    | RstLow | RstHigh        // panel reset (P1_1)
    | Spi(b: uint8)           // one byte shifted out on USART0 in SPI mode
    | Feed                    // one WDT_FEED() sequence
    | Poll(busy: bool)        // one read of the busy pin (P1_2), true = high = busy

  /** `n` watchdog feeds in a row. */
  function Feeds(n: nat): seq<Event>
  {
    seq(n, _ => Feed)
  }

  class Board {
    /** Everything the firmware has done to the board so far, oldest first. */
    var trace: seq<Event>
    /** The reads of the busy pin (counted from 0) at which it is high; the pin is
        low at every other read. */
    const busyHigh: iset<nat>
    /** How many times the busy pin has been read. */
    var polls: nat

    constructor (high: iset<nat>)
      ensures trace == [] && polls == 0 && busyHigh == high
    {
      trace, polls, busyHigh := [], 0, high;
    }

    /** SPI_CS_LOW */
    method SpiCsLow()
      modifies this
      ensures trace == old(trace) + [CsLow] && polls == old(polls)
    {
      trace := trace + [CsLow];
    }

    /** SPI_CS_HIGH */
    method SpiCsHigh()
      modifies this
      ensures trace == old(trace) + [CsHigh] && polls == old(polls)
    {
      trace := trace + [CsHigh];
    }

    /** SPI_DC_LOW */
    method SpiDcLow()
      modifies this
      ensures trace == old(trace) + [DcLow] && polls == old(polls)
    {
      trace := trace + [DcLow];
    }

    /** SPI_DC_HIGH */
    method SpiDcHigh()
      modifies this
      ensures trace == old(trace) + [DcHigh] && polls == old(polls)
    {
      trace := trace + [DcHigh];
    }

    /** SPI_RST_LOW */
    method SpiRstLow()
      modifies this
      ensures trace == old(trace) + [RstLow] && polls == old(polls)
    {
      trace := trace + [RstLow];
    }

    /** SPI_RST_HIGH */
    method SpiRstHigh()
      modifies this
      ensures trace == old(trace) + [RstHigh] && polls == old(polls)
    {
      trace := trace + [RstHigh];
    }

    /** DEV_SPI_WriteByte: the byte is shifted out; the TX-flag spin is not modelled. */
    method SpiWriteByte(value: uint8)
      modifies this
      ensures trace == old(trace) + [Spi(value)] && polls == old(polls)
    {
      trace := trace + [Spi(value)];
    }

    /** WDT_FEED: the two-write clear sequence on WDCTL, as one event. */
    method WdtFeed()
      modifies this
      ensures trace == old(trace) + [Feed] && polls == old(polls)
    {
      trace := trace + [Feed];
    }

    /** EPD_Busy: reads the busy pin; true when it is high (panel busy). */
    method EpdBusy() returns (busy: bool)
      modifies this
      ensures busy == (old(polls) in busyHigh)
      ensures polls == old(polls) + 1
      ensures trace == old(trace) + [Poll(busy)]
    {
      busy := polls in busyHigh;
      polls := polls + 1;
      trace := trace + [Poll(busy)];
    }
  }

  /** USART1 in UART mode, as the console code sees it: the characters written
      to U1DBUF so far, and the bytes the host has sent that are still waiting to
      be read. */
  class Usart1 {
    var tx: seq<char>
    var rx: seq<uint8>

    constructor (input: seq<uint8>)
      ensures tx == [] && rx == input
    {
      tx, rx := [], input;
    }
  }

  /** Number of outer iterations of HAL_Delay(ms): `ms << 1` stored back into a
      16-bit variable, with no clamp. */
  function DelayIterations(ms: uint16): (n: uint16)
    ensures ms < 0x8000 ==> n == 2 * ms
    ensures ms >= 0x8000 ==> n == 2 * ms - 0x1_0000
    ensures n == 0 <==> ms == 0 || ms == 0x8000
  {
    (ms * 2) % 0x1_0000
  }

  /** The events of HAL_Delay(ms): one watchdog feed per outer iteration. */
  function DelayTrace(ms: uint16): (t: seq<Event>)
  {
    Feeds(DelayIterations(ms))
  }

  /** HAL_Delay: a counting loop that feeds the watchdog once per iteration; the
      inner 535-step spin only burns time and is not modelled. */
  method Delay(hw: Board, ms: uint16)
    modifies hw
    ensures hw.trace == old(hw.trace) + DelayTrace(ms)
    ensures hw.polls == old(hw.polls)
  {
    var n := (ms * 2) % 0x1_0000;
    var i := 0;
    while i < n
      invariant 0 <= i <= n
      invariant hw.trace == old(hw.trace) + Feeds(i)
      invariant hw.polls == old(hw.polls)
    {
      hw.WdtFeed();
      i := i + 1;
    }
  }

  // Regrouping lemmas for traces: stated on plain sequences so that the solver
  // does not unfold the trace functions while regrouping.

  lemma SeqAssoc3(a: seq<Event>, b: seq<Event>, c: seq<Event>, d: seq<Event>)
    ensures a + b + c + d == a + (b + c + d)
  {
  }

  lemma SeqAssoc4(a: seq<Event>, b: seq<Event>, c: seq<Event>, d: seq<Event>, e: seq<Event>)
    ensures a + b + c + d + e == a + (b + c + d + e)
  {
  }

  lemma SeqAssoc5(a: seq<Event>, b: seq<Event>, c: seq<Event>, d: seq<Event>, e: seq<Event>, f: seq<Event>)
    ensures a + b + c + d + e + f == a + (b + c + d + e + f)
  {
  }

  lemma SeqAssoc6(a: seq<Event>, b: seq<Event>, c: seq<Event>, d: seq<Event>, e: seq<Event>, f: seq<Event>, g: seq<Event>)
    ensures a + b + c + d + e + f + g == a + (b + c + d + e + f + g)
  {
  }

  /** Appending to a trace that extends `t0` by `x`. */
  lemma Extend(t0: seq<Event>, x: seq<Event>, y: seq<Event>)
    ensures t0 + x + y == t0 + (x + y)
  {
  }
}
