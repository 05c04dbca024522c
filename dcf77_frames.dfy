/** Properties of the DCF77 decoder over whole minutes of received signal:
    what a complete minute commits, what `now` then reads back, and what
    happens when the minute gap is never seen. */
module Dcf77Frames {
  import opened Bits
  import opened Results
  import opened Dcf77
  import opened Chrono

  // ---------------------------------------------------------------------
  // Frames in the layout `now` reads
  // ---------------------------------------------------------------------

  /** The times a frame can carry in the layout `extract_number` reads: each
      tens field starts one bit after the end of its units field, so the
      month's single tens bit (bit 50) is also the lowest bit of the year's
      units.  A frame therefore exists only for months 10-12 in odd years
      and months 1-9 in even years. */
  predicate Encodable(t: DateTime)
  {
    0 <= t.year < 100 && ValidDate(t.year, t.month, t.day) && ValidTime(t.hour, t.minute, t.second)
    && (t.month >= 10 <==> t.year % 2 == 1)
  }

  /** The data bits of a frame carrying `t`, in the positions `now` reads;
      the parity positions 25, 33 and 40 (bits `now` skips) are left clear. */
  function DataBit(t: DateTime, i: nat): bool
    requires 0 <= t.year
  {
    if 21 <= i < 25 then Bit(t.minute % 10, i - 21)
    else if 26 <= i < 29 then Bit(t.minute / 10, i - 26)
    else if 29 <= i < 33 then Bit(t.hour % 10, i - 29)
    else if 34 <= i < 36 then Bit(t.hour / 10, i - 34)
    else if 36 <= i < 40 then Bit(t.day % 10, i - 36)
    else if 41 <= i < 43 then Bit(t.day / 10, i - 41)
    else if 45 <= i < 49 then Bit(t.month % 10, i - 45)
    else if 50 <= i < 54 then Bit(t.year % 10, i - 50)
    else if 55 <= i < 59 then Bit(t.year / 10, i - 55)
    else false
  }

  function Data(t: DateTime): Word
    requires 0 <= t.year
  {
    seq(64, i requires 0 <= i < 64 => DataBit(t, i))
  }

  /** A frame carrying `t`: the data bits, with one unused bit of each
      parity range set so that every range has even parity. */
  function Frame(t: DateTime): Word
    requires 0 <= t.year
  {
    var d := Data(t);
    d[25 := Parity(d, 21, 29)][33 := Parity(d, 29, 36)][40 := Parity(d, 36, 59)]
  }

  /** A frame built for `t` passes all three parity checks. */
  lemma {:induction false} FrameParity(t: DateTime)
    requires 0 <= t.year
    ensures ValidFrame(Frame(t)) == None
  {
    var d, f := Data(t), Frame(t);
    ParityOneBit(d, f, 21, 29, 25);
    ParityOneBit(d, f, 29, 36, 33);
    ParityOneBit(d, f, 36, 59, 40);
  }

  /** A decimal number read as units plus ten times tens, each placed by
      `DataBit`, is read back by `extract_number`. */
  lemma {:induction false} ExtractPlaced(f: Word, fst: nat, tens: nat, v: nat)
    requires fst + 5 + tens <= 64 && v / 10 < Pow2(tens)
    requires forall k :: 0 <= k < 4 ==> f[fst + k] == Bit(v % 10, k)
    requires forall k :: 0 <= k < tens ==> f[fst + 5 + k] == Bit(v / 10, k)
    ensures ExtractNumber(f, fst, tens) == v
  {
    assert Pow2(4) == 16;
    FieldOfBits(f, fst, 4, v % 10);
    FieldOfBits(f, fst + 5, tens, v / 10);
  }

  /** Away from the three parity positions a frame holds the data bits. */
  lemma FrameData(t: DateTime, i: nat)
    requires 0 <= t.year && i < 64 && i != 25 && i != 33 && i != 40
    ensures Frame(t)[i] == DataBit(t, i)
  {
  }

  lemma MinuteHourRead(t: DateTime)
    requires Encodable(t)
    ensures ExtractNumber(Frame(t), 21, 3) == t.minute
    ensures ExtractNumber(Frame(t), 29, 2) == t.hour
  {
    var f := Frame(t);
    forall k | 0 <= k < 4
      ensures f[21 + k] == Bit(t.minute % 10, k) && f[29 + k] == Bit(t.hour % 10, k)
    {
      FrameData(t, 21 + k);
      FrameData(t, 29 + k);
    }
    forall k | 0 <= k < 3
      ensures f[26 + k] == Bit(t.minute / 10, k)
    {
      FrameData(t, 26 + k);
    }
    forall k | 0 <= k < 2
      ensures f[34 + k] == Bit(t.hour / 10, k)
    {
      FrameData(t, 34 + k);
    }
    assert Pow2(2) == 4 && Pow2(3) == 8;
    ExtractPlaced(f, 21, 3, t.minute);
    ExtractPlaced(f, 29, 2, t.hour);
  }

  lemma DayRead(t: DateTime)
    requires Encodable(t)
    ensures ExtractNumber(Frame(t), 36, 2) == t.day
  {
    var f := Frame(t);
    forall k | 0 <= k < 4
      ensures f[36 + k] == Bit(t.day % 10, k)
    {
      FrameData(t, 36 + k);
    }
    forall k | 0 <= k < 2
      ensures f[41 + k] == Bit(t.day / 10, k)
    {
      FrameData(t, 41 + k);
    }
    assert Pow2(2) == 4;
    ExtractPlaced(f, 36, 2, t.day);
  }

  lemma YearRead(t: DateTime)
    requires Encodable(t)
    ensures ExtractNumber(Frame(t), 50, 4) == t.year
  {
    var f := Frame(t);
    forall k | 0 <= k < 4
      ensures f[50 + k] == Bit(t.year % 10, k) && f[55 + k] == Bit(t.year / 10, k)
    {
      FrameData(t, 50 + k);
      FrameData(t, 55 + k);
    }
    assert Pow2(4) == 16;
    ExtractPlaced(f, 50, 4, t.year);
  }

  /** For an encodable time, the month's tens digit and the year's lowest
      units bit agree. */
  lemma SharedBit(t: DateTime)
    requires Encodable(t)
    ensures Bit(t.month / 10, 0) == Bit(t.year % 10, 0)
  {
    var y: nat := t.year;
    assert y == 10 * (y / 10) + y % 10;
  }

  /** The month's tens bit is the year's lowest units bit, which `Encodable`
      makes agree. */
  lemma MonthRead(t: DateTime)
    requires Encodable(t)
    ensures ExtractNumber(Frame(t), 45, 1) == t.month
  {
    var f := Frame(t);
    forall k | 0 <= k < 4
      ensures f[45 + k] == Bit(t.month % 10, k)
    {
      FrameData(t, 45 + k);
    }
    FrameData(t, 50);
    SharedBit(t);
    assert f[45 + 5 + 0] == Bit(t.month / 10, 0);
    assert Pow2(1) == 2;
    ExtractPlaced(f, 45, 1, t.month);
  }

  /** Round trip: a decoder in step with the signal whose committed frame
      agrees with the frame built for `t` on the bits `now` reads (21 ..= 58;
      bits 0 ..= 20, such as the always-set bit 20, may hold anything), with
      its counter at `t.second`, returns exactly `t`. */
  lemma {:induction false} DecodeFrame(t: DateTime, p: Parser)
    requires Encodable(t)
    requires !p.phase.Unknown? && p.phase.bit == t.second
    requires forall i :: 21 <= i < 59 ==> p.currentBits[i] == Frame(t)[i]
    ensures Decode(p) == Ok(t)
  {
    var q := p.(currentBits := Frame(t));
    FrameParity(t);
    MinuteHourRead(t);
    DayRead(t);
    MonthRead(t);
    YearRead(t);
    assert Fields(q.currentBits, q.phase.bit) == t;
    DecodeReadsBits21To58(p, q);
  }

  /** Flipping any one bit of the minute range (21 ..= 28) of a correct
      frame makes `now` report `ParityErrorMinute`. */
  lemma MinuteBitFlipDetected(t: DateTime, p: Parser, pos: nat)
    requires 0 <= t.year && !p.phase.Unknown? && 21 <= pos <= 28
    requires p.currentBits == SetBit(Frame(t), pos, !Frame(t)[pos])
    ensures Decode(p) == Err(Other(ParityErrorMinute))
  {
    FrameParity(t);
    FlipBreaksParity(Frame(t), 21, 29, pos);
  }

  /** Flipping any one bit of the hour range (29 ..= 35) of a correct frame
      makes `now` report `ParityErrorHour`, whatever the other fields say. */
  lemma HourBitFlipDetected(t: DateTime, p: Parser, pos: nat)
    requires 0 <= t.year && !p.phase.Unknown? && 29 <= pos <= 35
    requires p.currentBits == SetBit(Frame(t), pos, !Frame(t)[pos])
    ensures Decode(p) == Err(Other(ParityErrorHour))
  {
    FrameParity(t);
    var f := Frame(t);
    FlipBreaksParity(f, 29, 36, pos);
    ParityAgree(f, p.currentBits, 21, 29);
  }

  /** Flipping any one bit of the date range (36 ..= 58) of a correct frame
      leaves the minute and hour checks passing and makes `now` report
      `ParityErrorDate`. */
  lemma DateBitFlipDetected(t: DateTime, p: Parser, pos: nat)
    requires 0 <= t.year && !p.phase.Unknown? && 36 <= pos <= 58
    requires p.currentBits == SetBit(Frame(t), pos, !Frame(t)[pos])
    ensures Decode(p) == Err(Other(ParityErrorDate))
  {
    FrameParity(t);
    var f := Frame(t);
    FlipBreaksParity(f, 36, 59, pos);
    ParityAgree(f, p.currentBits, 21, 29);
    ParityAgree(f, p.currentBits, 29, 36);
  }

  // ---------------------------------------------------------------------
  // Runs of edges
  // ---------------------------------------------------------------------

  /** One edge of the receiver pin as `update` sees it: its direction and
      the milliseconds since the previous edge. */
  datatype Edge = Edge(risingEdge: bool, ms: nat)

  /** The decoder driven by a sequence of pin interrupts; `None` when one of
      them would make the source panic (a data bit at index 64 or more). */
  function Run(p: Parser, edges: seq<Edge>): (r: Option<Parser>)
    ensures Inv(p) && r.Some? ==> Inv(r.value)
    decreases |edges|
  {
    if edges == [] then Some(p)
    else if !CanUpdate(p, edges[0].risingEdge, edges[0].ms) then None
    else Run(Update(p, edges[0].risingEdge, edges[0].ms), edges[1..])
  }

  lemma {:induction false} RunAppend(p: Parser, a: seq<Edge>, b: seq<Edge>)
    ensures Run(p, a + b) == match Run(p, a) case None => None case Some(q) => Run(q, b)
    decreases |a|
  {
    if a != [] {
      assert (a + b)[0] == a[0] && (a + b)[1..] == a[1..] + b;
      if CanUpdate(p, a[0].risingEdge, a[0].ms) {
        RunAppend(Update(p, a[0].risingEdge, a[0].ms), a[1..], b);
      }
    } else {
      assert a + b == b;
    }
  }

  /** One second of signal as the decoder's timer measures it: the length of
      the carrier reduction (falling to rising edge), then the time from the
      rising edge to the next falling edge. */
  datatype Second = Second(pulse: nat, gap: nat)

  function Edges(secs: seq<Second>): (es: seq<Edge>)
    ensures |es| == 2 * |secs|
  {
    if secs == [] then []
    else [Edge(true, secs[0].pulse), Edge(false, secs[0].gap)] + Edges(secs[1..])
  }

  lemma {:induction false} EdgesAppend(a: seq<Second>, b: seq<Second>)
    ensures Edges(a + b) == Edges(a) + Edges(b)
  {
    if a == [] {
      assert a + b == b;
    } else {
      assert (a + b)[0] == a[0] && (a + b)[1..] == a[1..] + b;
      EdgesAppend(a[1..], b);
    }
  }

  /** A pulse that carries the data bit `v`: shorter than 150 ms for 0, from
      150 ms up to 250 ms for 1. */
  predicate Encodes(s: Second, v: bool)
  {
    s.pulse < 250 && (150 <= s.pulse <==> v)
  }

  /** `x` with the bits from `j` upwards replaced by `bits`. */
  function Overlay(x: Word, j: nat, bits: seq<bool>): Word
    requires j + |bits| <= 64
  {
    seq(64, i requires 0 <= i < 64 => if j <= i < j + |bits| then bits[i - j] else x[i])
  }

  /** Seconds with data pulses and ordinary gaps, received while a data bit
      is expected at second `j`, store their bits from `j` upwards, advance
      the counter by one per second and leave the committed frame alone. */
  lemma {:induction false} OrdinarySeconds(q: Parser, secs: seq<Second>, bits: seq<bool>)
    requires Inv(q) && q.phase.AwaitingHigh? && q.phase.bit + |secs| <= 64
    requires |bits| == |secs|
    requires forall k :: 0 <= k < |secs| ==> Encodes(secs[k], bits[k]) && !MinuteGap(secs[k].gap)
    ensures Run(q, Edges(secs))
         == Some(Parser(q.currentBits, Overlay(q.nextBits, q.phase.bit, bits), AwaitingHigh(q.phase.bit + |secs|)))
    decreases |secs|
  {
    var j := q.phase.bit;
    if secs == [] {
      assert Overlay(q.nextBits, j, bits) == q.nextBits;
    } else {
      var s := secs[0];
      assert Encodes(s, bits[0]) && !MinuteGap(s.gap);
      var q1 := Update(q, true, s.pulse);
      assert q1 == WriteBit(q, bits[0]);
      var q2 := Update(q1, false, s.gap);
      assert q2 == NextSecond(q1);
      var es := Edges(secs);
      assert es[0] == Edge(true, s.pulse) && es[1..][0] == Edge(false, s.gap);
      assert es[1..][1..] == Edges(secs[1..]);
      assert Run(q, es) == Run(q2, Edges(secs[1..]));
      forall k | 0 <= k < |secs[1..]|
        ensures Encodes(secs[1..][k], bits[1..][k]) && !MinuteGap(secs[1..][k].gap)
      {
        assert secs[1..][k] == secs[k + 1] && bits[1..][k] == bits[k + 1];
      }
      OrdinarySeconds(q2, secs[1..], bits[1..]);
      assert Overlay(q2.nextBits, j + 1, bits[1..]) == Overlay(q.nextBits, j, bits);
    }
  }

  /** Receiving a whole minute: starting at second 0 just after a minute
      gap, 59 data pulses with ordinary gaps, the last followed by the minute
      gap, commit exactly the 59 received bits (bits 59 to 63 clear) and
      restart assembly at second 0. */
  lemma ReceiveMinute(p: Parser, secs: seq<Second>, frame: seq<bool>)
    requires Inv(p) && p.phase == AwaitingHigh(0)
    requires |secs| == 59 && |frame| == 59
    requires forall k :: 0 <= k < 59 ==> Encodes(secs[k], frame[k])
    requires forall k :: 0 <= k < 58 ==> !MinuteGap(secs[k].gap)
    requires MinuteGap(secs[58].gap)
    ensures Run(p, Edges(secs)) == Some(Parser(Overlay(Zero(), 0, frame), Zero(), AwaitingHigh(0)))
  {
    assert p.nextBits == Zero();
    assert secs == secs[..58] + [secs[58]];
    EdgesAppend(secs[..58], [secs[58]]);
    RunAppend(p, Edges(secs[..58]), Edges([secs[58]]));
    OrdinarySeconds(p, secs[..58], frame[..58]);
    var q := Parser(p.currentBits, Overlay(Zero(), 0, frame[..58]), AwaitingHigh(58));
    var last := Edges([secs[58]]);
    assert last == [Edge(true, secs[58].pulse), Edge(false, secs[58].gap)];
    var q1 := Update(q, true, secs[58].pulse);
    assert q1 == WriteBit(q, frame[58]);
    var q2 := Update(q1, false, secs[58].gap);
    assert q2 == StartMinute(q1);
    assert last[0] == Edge(true, secs[58].pulse) && last[1..][0] == Edge(false, secs[58].gap);
    assert last[1..][1..] == [];
    assert Run(q, last) == Run(q1, last[1..]) == Run(q2, []) == Some(q2);
    assert q1.nextBits == Overlay(Zero(), 0, frame);
  }

  /** End to end: a minute whose 59 pulses carry `bits`, which agree with
      the frame for `t` from bit 21 on, makes `now` return `t` at second 0 of
      the next minute. */
  lemma TransmittedTimeIsDecoded(p: Parser, secs: seq<Second>, bits: seq<bool>, t: DateTime)
    requires Encodable(t) && t.second == 0
    requires Inv(p) && p.phase == AwaitingHigh(0)
    requires |secs| == 59 && |bits| == 59
    requires forall k :: 0 <= k < 59 ==> Encodes(secs[k], bits[k])
    requires forall k :: 21 <= k < 59 ==> bits[k] == Frame(t)[k]
    requires forall k :: 0 <= k < 58 ==> !MinuteGap(secs[k].gap)
    requires MinuteGap(secs[58].gap)
    ensures Run(p, Edges(secs)).Some?
    ensures Decode(Run(p, Edges(secs)).value) == Ok(t)
  {
    ReceiveMinute(p, secs, bits);
    var q := Run(p, Edges(secs)).value;
    assert forall i :: 21 <= i < 59 ==> q.currentBits[i] == bits[i];
    DecodeFrame(t, q);
  }

  /** The counter has no cap: when the minute gap is missed, 64 ordinary
      seconds bring the decoder to second 64, where the next data pulse asks
      `set_bit` for bit 64 and the source panics. */
  lemma MissedMinuteGapPanics(p: Parser, secs: seq<Second>, bits: seq<bool>, pulse: nat)
    requires Inv(p) && p.phase == AwaitingHigh(0)
    requires |secs| == 64 && |bits| == 64
    requires forall k :: 0 <= k < 64 ==> Encodes(secs[k], bits[k]) && !MinuteGap(secs[k].gap)
    requires pulse < 250
    ensures Run(p, Edges(secs)).Some? && Run(p, Edges(secs)).value.phase == AwaitingHigh(64)
    ensures Run(p, Edges(secs) + [Edge(true, pulse)]) == None
  {
    OrdinarySeconds(p, secs, bits);
    RunAppend(p, Edges(secs), [Edge(true, pulse)]);
  }
}
