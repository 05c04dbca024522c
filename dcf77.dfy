/** The DCF77 minute-frame decoder of `src/dcf77.rs`.

    The source encodes its three states as type parameters of `DCF77Parser`
    and wraps them in the enum `DCF77StateWrapper`; here the parser is one
    value whose `phase` is the wrapper's variant.  The hardware timer's
    `restart()` (milliseconds since the previous edge of either kind) and the
    pin level are inputs of the transition. */
module Dcf77 {
  import opened Bits
  import opened Results
  import opened Chrono

  /** `dcf77::Error`. */
  datatype Error =
    | StartNotFound
    | StateChangeError
    | ProtocolError
    | InvalidTime
    | InvalidDate
    | ParityErrorMinute
    | ParityErrorHour
    | ParityErrorDate

  /** `nb::Error<Error>`: `now` either would block or fails for a reason. */
  datatype NbError = WouldBlock | Other(error: Error)

  /** The type-state markers `Unknown`, `AwaitingHigh { bit }` and
      `AwaitingLow { bit }`; `bit` is the index of the current second. */
  datatype Phase = Unknown | AwaitingHigh(bit: nat) | AwaitingLow(bit: nat)

  /** `DCF77Parser` without its timer: the last committed minute frame, the
      frame being assembled, and the phase. */
  datatype Parser = Parser(currentBits: Word, nextBits: Word, phase: Phase)

  /** `chrono::NaiveDateTime` as the six fields `now` passes to chrono. */
  datatype DateTime = DateTime(year: int, month: nat, day: nat, hour: nat, minute: nat, second: nat)

  /** What every reachable parser satisfies: the frame under assembly holds no
      bit at or above the second being received (so it is 0 while framing is
      unknown). */
  ghost predicate Inv(p: Parser)
  {
    if p.phase.Unknown? then p.nextBits == Zero()
    else if p.phase.AwaitingHigh? then forall i :: p.phase.bit <= i < 64 ==> !p.nextBits[i]
    else p.phase.bit < 64 && forall i :: p.phase.bit < i < 64 ==> !p.nextBits[i]
  }

  // ---------------------------------------------------------------------
  // The by-value conversions between states
  // ---------------------------------------------------------------------

  /** `DCF77Parser::new` / `DCF77StateWrapper::new`: no framing, both
      registers clear. */
  function New(): (p: Parser)
    ensures Inv(p) && p.phase == Unknown && p.currentBits == Zero()
  {
    Parser(Zero(), Zero(), Unknown)
  }

  /** `start_minute`: the minute gap was seen; the assembled frame becomes
      the current one and assembly restarts at second 0. */
  function StartMinute(p: Parser): (q: Parser)
    ensures q.currentBits == p.nextBits && q.nextBits == Zero() && q.phase == AwaitingHigh(0)
    ensures Inv(q)
  {
    Parser(p.nextBits, Zero(), AwaitingHigh(0))
  }

  /** `AwaitingHigh::update`: store the received data bit at the current
      second and wait for the start of the next second. */
  function WriteBit(p: Parser, v: bool): (q: Parser)
    requires p.phase.AwaitingHigh? && p.phase.bit < 64
    ensures q.phase == AwaitingLow(p.phase.bit) && q.currentBits == p.currentBits
    ensures q.nextBits[p.phase.bit] == v
    ensures forall i :: 0 <= i < 64 && i != p.phase.bit ==> q.nextBits[i] == p.nextBits[i]
    ensures Inv(p) ==> Inv(q)
  {
    Parser(p.currentBits, SetBit(p.nextBits, p.phase.bit, v), AwaitingLow(p.phase.bit))
  }

  /** `From<AwaitingLow> for AwaitingHigh`: an ordinary second boundary. */
  function NextSecond(p: Parser): (q: Parser)
    requires p.phase.AwaitingLow?
    ensures q.phase == AwaitingHigh(p.phase.bit + 1)
    ensures q.currentBits == p.currentBits && q.nextBits == p.nextBits
    ensures Inv(p) ==> Inv(q)
  {
    Parser(p.currentBits, p.nextBits, AwaitingHigh(p.phase.bit + 1))
  }

  /** `From<AwaitingHigh> for Unknown` and `From<AwaitingLow> for Unknown`
      (identical bodies): framing is lost, the frame under assembly is
      discarded, the last committed frame is kept. */
  function Abandon(p: Parser): (q: Parser)
    requires !p.phase.Unknown?
    ensures q.phase == Unknown && q.nextBits == Zero() && q.currentBits == p.currentBits
    ensures Inv(q)
  {
    Parser(p.currentBits, Zero(), Unknown)
  }

  // ---------------------------------------------------------------------
  // The transition function
  // ---------------------------------------------------------------------

  /** The elapsed-time window that marks the missing 59th pulse; both bounds
      are exclusive. */
  predicate MinuteGap(ms: nat)
  {
    1800 < ms < 2200
  }

  /** The source's `set_bit` panics for an index of 64 or more; this is the
      only way `update` can fail. */
  predicate CanUpdate(p: Parser, risingEdge: bool, ms: nat)
  {
    risingEdge && p.phase.AwaitingHigh? && ms < 250 ==> p.phase.bit < 64
  }

  /** `DCF77StateWrapper::update`, with `ms` the value `timer.restart()`
      returns at this edge. */
  function Update(p: Parser, risingEdge: bool, ms: nat): (q: Parser)
    requires CanUpdate(p, risingEdge, ms)
    ensures q.currentBits == p.currentBits
         || (!risingEdge && MinuteGap(ms) && q.currentBits == p.nextBits && q.phase == AwaitingHigh(0))
    ensures Inv(p) ==> Inv(q)
  {
    if risingEdge then
      match p.phase
      case Unknown => p
      case AwaitingHigh(_) =>
        if ms < 150 then WriteBit(p, false)
        else if ms < 250 then WriteBit(p, true)
        else Abandon(p)
      case AwaitingLow(_) => Abandon(p)
    else
      match p.phase
      case Unknown => if MinuteGap(ms) then StartMinute(p) else p
      case AwaitingLow(_) => if MinuteGap(ms) then StartMinute(p) else NextSecond(p)
      case AwaitingHigh(_) => Abandon(p)
  }

  /** A rising edge (end of a pulse) while a data bit is expected: a pulse
      shorter than 150 ms is a 0, one from 150 ms up to 250 ms is a 1, and
      either way only that bit of the frame changes; a longer pulse drops
      framing. */
  lemma RisingWhileAwaitingHigh(p: Parser, ms: nat)
    requires p.phase.AwaitingHigh? && (ms < 250 ==> p.phase.bit < 64)
    ensures var q := Update(p, true, ms);
      if ms < 250 then
        q.phase == AwaitingLow(p.phase.bit) && q.currentBits == p.currentBits
        && q.nextBits == p.nextBits[p.phase.bit := 150 <= ms]
      else
        q == Parser(p.currentBits, Zero(), Unknown)
  {
  }

  /** A falling edge after the minute gap, with framing unknown or after a
      data bit: the assembled frame is committed and second 0 begins. */
  lemma FallingAfterMinuteGap(p: Parser, ms: nat)
    requires p.phase.Unknown? || p.phase.AwaitingLow?
    requires MinuteGap(ms)
    ensures Update(p, false, ms) == Parser(p.nextBits, Zero(), AwaitingHigh(0))
  {
  }

  /** A falling edge outside the window after a data bit is an ordinary
      second boundary: the counter advances (with no upper cap) and neither
      register changes. */
  lemma FallingOrdinarySecond(p: Parser, ms: nat)
    requires p.phase.AwaitingLow? && !MinuteGap(ms)
    ensures Update(p, false, ms) == Parser(p.currentBits, p.nextBits, AwaitingHigh(p.phase.bit + 1))
  {
  }

  /** Out-of-order edges (a rising edge while waiting for a second boundary,
      a falling edge while waiting for a data bit) drop framing, discard the
      frame under assembly and keep the committed one; while framing is
      unknown, every edge but a falling one after the minute gap changes
      nothing. */
  lemma OutOfOrderEdges(p: Parser, risingEdge: bool, ms: nat)
    ensures p.phase.AwaitingLow? && risingEdge ==> Update(p, true, ms) == Parser(p.currentBits, Zero(), Unknown)
    ensures p.phase.AwaitingHigh? && !risingEdge ==> Update(p, false, ms) == Parser(p.currentBits, Zero(), Unknown)
    ensures p.phase.Unknown? && (risingEdge || !MinuteGap(ms)) ==> Update(p, risingEdge, ms) == p
  {
  }

  /** Since the frame under assembly is 0 while framing is unknown,
      re-acquiring framing commits an all-zero frame. */
  lemma ReacquireCommitsZero(p: Parser, ms: nat)
    requires Inv(p) && p.phase.Unknown? && MinuteGap(ms)
    ensures Update(p, false, ms) == Parser(Zero(), Zero(), AwaitingHigh(0))
  {
  }

  // ---------------------------------------------------------------------
  // Reading the time
  // ---------------------------------------------------------------------

  /** One of the source's `PARITY_RANGES`: bits `first ..= last` must hold an
      even number of ones, else `error`. */
  datatype ParityRange = ParityRange(first: nat, last: nat, error: Error)

  /** The even-parity ranges of the minute (P1), hour (P2) and date (P3)
      parts of the frame, in the order they are checked. */
  const ParityRanges: seq<ParityRange> := [
    ParityRange(21, 28, ParityErrorMinute),
    ParityRange(29, 35, ParityErrorHour),
    ParityRange(36, 58, ParityErrorDate)
  ]

  predicate WellFormed(ranges: seq<ParityRange>)
  {
    forall i :: 0 <= i < |ranges| ==> ranges[i].first <= ranges[i].last < 64
  }

  /** True when the XOR fold of the range is true, i.e. the check fails. */
  predicate OddParity(bits: Word, r: ParityRange)
    requires r.first <= r.last < 64
  {
    Parity(bits, r.first, r.last + 1)
  }

  /** The loop of `valid`: the error of the first range whose parity check
      fails, or `None` when all pass. */
  function CheckParity(bits: Word, ranges: seq<ParityRange>): (r: Option<Error>)
    requires WellFormed(ranges)
    ensures r.None? <==> forall i :: 0 <= i < |ranges| ==> !OddParity(bits, ranges[i])
    ensures r.Some? ==> exists i :: 0 <= i < |ranges| && OddParity(bits, ranges[i])
                                    && r.value == ranges[i].error
                                    && forall j :: 0 <= j < i ==> !OddParity(bits, ranges[j])
  {
    if ranges == [] then None
    else if OddParity(bits, ranges[0]) then Some(ranges[0].error)
    else
      var r := CheckParity(bits, ranges[1..]);
      assert forall i :: 1 <= i < |ranges| ==> ranges[i] == ranges[1..][i - 1];
      r
  }

  /** `valid`: `None` when all three parity checks pass, otherwise the error
      of the first failing range, in the order minute, hour, date. */
  function ValidFrame(bits: Word): (r: Option<Error>)
    ensures r == None <==> !Parity(bits, 21, 29) && !Parity(bits, 29, 36) && !Parity(bits, 36, 59)
    ensures r == Some(ParityErrorMinute) <==> Parity(bits, 21, 29)
    ensures r == Some(ParityErrorHour) <==> !Parity(bits, 21, 29) && Parity(bits, 29, 36)
    ensures r == Some(ParityErrorDate) <==> !Parity(bits, 21, 29) && !Parity(bits, 29, 36) && Parity(bits, 36, 59)
  {
    var r := CheckParity(bits, ParityRanges);
    assert OddParity(bits, ParityRanges[0]) == Parity(bits, 21, 29);
    assert OddParity(bits, ParityRanges[1]) == Parity(bits, 29, 36);
    assert OddParity(bits, ParityRanges[2]) == Parity(bits, 36, 59);
    r
  }

  /** `extract_number`: units in bits `fst .. fst + 4`, tens in the `tens`
      bits from `fst + 5`.  The bound shows that the source's conversions to
      `u32` and `i32` cannot fail. */
  function ExtractNumber(bits: Word, fst: nat, tens: nat): (r: nat)
    requires fst + 5 + tens <= 64
    ensures r < 16 + 10 * Pow2(tens)
  {
    Field(bits, fst, 4) + Field(bits, fst + 5, tens) * 10
  }

  /** The six fields `now` reads from a frame, before any validity check;
      `second` is the decoder's live counter. */
  function Fields(bits: Word, second: nat): (r: DateTime)
    ensures r.year < 176 && r.month < 36 && r.day < 56 && r.hour < 56 && r.minute < 96
    ensures r.second == second
  {
    DateTime(ExtractNumber(bits, 50, 4), ExtractNumber(bits, 45, 1), ExtractNumber(bits, 36, 2),
             ExtractNumber(bits, 29, 2), ExtractNumber(bits, 21, 3), second)
  }

  /** `DCF77::now` on the decoder's state.  It blocks exactly while framing is
      unknown; otherwise the parity checks come first, and a time is returned
      only when they pass and the fields form a valid date and time, with the
      live counter as the second. */
  function Decode(p: Parser): (r: Result<DateTime, NbError>)
    ensures r == Err(WouldBlock) <==> p.phase.Unknown?
    ensures !p.phase.Unknown? && ValidFrame(p.currentBits).Some? ==> r == Err(Other(ValidFrame(p.currentBits).value))
    ensures r.Ok? ==> ValidFrame(p.currentBits).None? && r.value == Fields(p.currentBits, p.phase.bit)
    ensures r.Ok? ==> ValidDate(r.value.year, r.value.month, r.value.day)
                      && ValidTime(r.value.hour, r.value.minute, r.value.second)
  {
    match p.phase
    case Unknown => Err(WouldBlock)
    case _ =>
      var second := p.phase.bit;
      match ValidFrame(p.currentBits)
      case Some(e) => Err(Other(e))
      case None =>
        var f := Fields(p.currentBits, second);
        if !ValidDate(f.year, f.month, f.day) then Err(Other(InvalidDate))
        else if !ValidTime(f.hour, f.minute, f.second) then Err(Other(InvalidTime))
        else Ok(f)
  }

  /** The fields `now` reads lie in bits 21 ..= 58. */
  lemma FieldsAgree(x: Word, y: Word, second: nat)
    requires forall i :: 21 <= i < 59 ==> x[i] == y[i]
    ensures Fields(x, second) == Fields(y, second)
  {
    FieldAgree(x, y, 50, 4);
    FieldAgree(x, y, 55, 1);
    FieldAgree(x, y, 45, 4);
    FieldAgree(x, y, 50, 1);
    FieldAgree(x, y, 36, 4);
    FieldAgree(x, y, 41, 2);
    FieldAgree(x, y, 29, 4);
    FieldAgree(x, y, 34, 2);
    FieldAgree(x, y, 21, 4);
    FieldAgree(x, y, 26, 3);
  }

  /** `now` looks only at bits 21 ..= 58 of the committed frame: frames that
      agree there decode alike, whatever bits 0 ..= 20 and 59 ..= 63 hold. */
  lemma DecodeReadsBits21To58(p: Parser, q: Parser)
    requires p.phase == q.phase
    requires forall i :: 21 <= i < 59 ==> p.currentBits[i] == q.currentBits[i]
    ensures Decode(p) == Decode(q)
  {
    if !p.phase.Unknown? {
      var x, y := p.currentBits, q.currentBits;
      ParityAgree(x, y, 21, 29);
      ParityAgree(x, y, 29, 36);
      ParityAgree(x, y, 36, 59);
      FieldsAgree(x, y, p.phase.bit);
    }
  }

  /** The failure cases of `now` after the parity checks pass: a non-calendar
      date is reported before an out-of-range time. */
  lemma DecodeRejects(p: Parser)
    requires !p.phase.Unknown? && ValidFrame(p.currentBits).None?
    ensures var f := Fields(p.currentBits, p.phase.bit);
      Decode(p) == if !ValidDate(f.year, f.month, f.day) then Err(Other(InvalidDate))
                   else if !ValidTime(f.hour, f.minute, f.second) then Err(Other(InvalidTime))
                   else Ok(f)
  {
  }

  /** Right after framing is re-acquired from `Unknown`, the committed frame
      is all zero: its parity checks pass and its month reads 0, so `now`
      reports an invalid date until a whole minute has been received. */
  lemma DecodeAfterReacquire(p: Parser, ms: nat)
    requires Inv(p) && p.phase.Unknown? && MinuteGap(ms)
    ensures Decode(Update(p, false, ms)) == Err(Other(InvalidDate))
  {
    var q := Update(p, false, ms);
    ParityAgree(Zero(), q.currentBits, 0, 64);
    ZeroFieldsAndParity(21, 29);
    ZeroFieldsAndParity(29, 36);
    ZeroFieldsAndParity(36, 59);
    ZeroFieldsAndParity(45, 49);
    ZeroFieldsAndParity(50, 51);
  }

  lemma {:induction false} ZeroFieldsAndParity(lo: nat, hi: nat)
    requires lo <= hi <= 64
    ensures !Parity(Zero(), lo, hi) && Field(Zero(), lo, hi - lo) == 0
    decreases hi - lo
  {
    if lo < hi {
      ZeroFieldsAndParity(lo, hi - 1);
      ZeroFieldsAndParity(lo + 1, hi);
    }
  }

  // ---------------------------------------------------------------------
  // The decoder object
  // ---------------------------------------------------------------------

  /** `DCF77`: the decoder state, updated in place on every pin edge, and
      whether the receiver's output is inverted. */
  class Dcf77 {
    var state: Parser
    const inverted: bool

    ghost predicate Valid()
      reads this
    {
      Inv(state)
    }

    /** `DCF77::init`. */
    constructor Init(inverted: bool)
      ensures Valid()
      ensures state == New() && this.inverted == inverted
    {
      state := New();
      this.inverted := inverted;
    }

    /** `DCF77::update_state`, called on every edge of the receiver pin: the
        edge is rising when the pin level differs from `inverted`, and the
        state is replaced in one assignment.  The source always returns
        `Ok(())`. */
    method UpdateState(pinHigh: bool, ms: nat)
      requires Valid()
      requires CanUpdate(state, pinHigh != inverted, ms)
      modifies this
      ensures Valid()
      ensures state == Update(old(state), pinHigh != inverted, ms)
    {
      var risingEdge := pinHigh != inverted;
      state := Update(state, risingEdge, ms);
    }

    /** `DCF77::now`. */
    function Now(): (r: Result<DateTime, NbError>)
      reads this
      ensures r == Err(WouldBlock) <==> state.phase.Unknown?
      ensures r == Decode(state)
    {
      Decode(state)
    }
  }
}
