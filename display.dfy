/**
 * The word-clock front panel of `src/display.rs`.
 *
 * The panel is a matrix: a word lights when its enable pin is driven low
 * and the driver lines it is wired to are driven low as well.  Ten "main"
 * words (ES IST, FÜNF, ZEHN, ...) and twelve hour words each have an enable
 * pin; eight driver lines are shared.  A master enable pin is pulsed low and
 * high after every update to clear the LED driver's fault latch.
 *
 * Every pin write may fail (the HAL's `Pin::Error`).  The model makes that
 * an explicit, fixed set `faulty` of pins whose writes fail: a failing write
 * changes nothing and aborts the routine that issued it, exactly as the `?`
 * operator does in the source.  The GPIO hardware behind the pin handles is
 * the log `trace` of writes that took effect (and of the busy-wait between
 * the two master-enable writes); a pin's level is the last value written to
 * it, and every pin starts low.
 */
module Display {
  import opened Results
  import opened Chrono

  // ---------------------------------------------------------------------
  // Words, lines and the phrase table
  // ---------------------------------------------------------------------

  /** The eight shared driver lines (`DriverLine` bit flags). */
  datatype DriverLine = Line1A | Line1B | Line2A | Line2B | Line3 | Line4 | Line5A | Line5B

  /** The ten main words (`MainWord` bit flags). */
  datatype MainWord = EsIst | Fuenf | Zehn | Zwanzig | Drei | Viertel | Vor | Nach | Halb | Uhr

  /** `DriverLine::all()`. */
  const AllLines: set<DriverLine> := {Line1A, Line1B, Line2A, Line2B, Line3, Line4, Line5A, Line5B}

  /** A wall-clock time to the second (`chrono::NaiveTime`). */
  datatype Time = Time(hour: nat, minute: nat, second: nat)
  {
    predicate Valid() { ValidTime(hour, minute, second) }
  }

  /** `NaiveTime::from_hms(0, 0, 0)`, the time a fresh display believes it shows. */
  const Midnight: Time := Time(0, 0, 0)

  /** A phrase: the main words it lights and whether it names the next hour. */
  datatype TimeState = TimeState(main: set<MainWord>, nextHour: bool)

  /** `OFF_STATE`: no main word lit. */
  const OffState: TimeState := TimeState({}, false)

  /** `FIVE_MINUTE_STATE`: the phrase for each five-minute slot of the hour. */
  const FiveMinuteStates: seq<TimeState> := [
    TimeState({EsIst, Uhr}, false),          // es ist ... Uhr
    TimeState({Fuenf, Nach}, false),         // fünf nach
    TimeState({Zehn, Nach}, false),          // zehn nach
    TimeState({Viertel, Nach}, false),       // viertel nach
    TimeState({Zwanzig, Nach}, false),       // zwanzig nach
    TimeState({Fuenf, Vor, Halb}, true),     // fünf vor halb
    TimeState({EsIst, Halb}, true),          // es ist halb
    TimeState({Fuenf, Nach, Halb}, true),    // fünf nach halb
    TimeState({Zehn, Nach, Halb}, true),     // zehn nach halb
    TimeState({EsIst, Drei, Viertel}, true), // es ist drei viertel
    TimeState({Zehn, Vor}, true),            // zehn vor
    TimeState({Fuenf, Vor}, true)            // fünf vor
  ]

  /** The driver lines each main word is wired to, as `WordDisplay::init` sets them up. */
  function WordLines(w: MainWord): set<DriverLine>
  {
    match w
    case EsIst => {Line1A, Line1B}
    case Uhr => {Line4}
    case Halb => {Line3}
    case Vor => {Line4}
    case Drei => {Line3}
    case Viertel => {Line2A, Line2B}
    case Nach => {Line4}
    case Zehn => {Line2A}
    case Zwanzig => {Line2A, Line2B}
    case Fuenf => {Line2A}
  }

  /** The driver lines of the twelve hour words; index 0 is ZWÖLF, index i the hour i. */
  const HourLines: seq<set<DriverLine>> := [
    {Line5A, Line5B}, {Line5A}, {Line5A}, {Line5A}, {Line5A}, {Line5A},
    {Line5A, Line5B}, {Line5A, Line5B}, {Line5A}, {Line5A}, {Line5A}, {Line5A}
  ]

  /** The lines a set of lit main words needs: the union of their wiring. */
  function LinesOf(words: set<MainWord>): set<DriverLine>
  {
    set w, l | w in words && l in WordLines(w) :: l
  }

  /** The order in which `update_main_words` visits the main words. */
  const WordOrder: seq<MainWord> := [EsIst, Fuenf, Zehn, Zwanzig, Drei, Viertel, Vor, Nach, Halb, Uhr]

  /** The order in which `update_driver_lines` visits the lines. */
  const LineOrder: seq<DriverLine> := [Line1A, Line1B, Line2A, Line2B, Line3, Line4, Line5A, Line5B]

  /** The position of a word in `WordOrder`. */
  function WordIndex(w: MainWord): (k: nat)
    ensures k < |WordOrder| && WordOrder[k] == w
  {
    match w
    case EsIst => 0 case Fuenf => 1 case Zehn => 2 case Zwanzig => 3 case Drei => 4
    case Viertel => 5 case Vor => 6 case Nach => 7 case Halb => 8 case Uhr => 9
  }

  /** The position of a line in `LineOrder`. */
  function LineIndex(l: DriverLine): (k: nat)
    ensures k < |LineOrder| && LineOrder[k] == l
  {
    match l
    case Line1A => 0 case Line1B => 1 case Line2A => 2 case Line2B => 3
    case Line3 => 4 case Line4 => 5 case Line5A => 6 case Line5B => 7
  }

  /** Each word and each line is visited exactly once. */
  lemma OrdersAreEnumerations()
    ensures forall k | 0 <= k < |WordOrder| :: WordIndex(WordOrder[k]) == k
    ensures forall k | 0 <= k < |LineOrder| :: LineIndex(LineOrder[k]) == k
  {
  }

  // ---------------------------------------------------------------------
  // Pins, events and what a sequence of writes leaves behind
  // ---------------------------------------------------------------------

  /** Every output pin of the word display. */
  datatype Pin =
    | MasterEnable
    | WordEnable(word: MainWord)
    | HourEnable(index: nat)
    | LineLevel(line: DriverLine)

  /** A pin that exists: there are twelve hour words. */
  predicate IsPin(p: Pin)
  {
    p.HourEnable? ==> p.index < 12
  }

  /** A pin write, or the busy-wait `delay(200)`. */
  datatype Event = Write(pin: Pin, high: bool) | Delay

  /** The error a failed write reports. */
  datatype PinFault = PinFault(pin: Pin)

  predicate WritesTo(e: Event, p: Pin)
  {
    e.Write? && e.pin == p
  }

  predicate Fails(e: Event, faulty: set<Pin>)
  {
    e.Write? && e.pin in faulty
  }

  /** The position of the first event that fails, or `|es|` when none does. */
  function FirstFault(es: seq<Event>, faulty: set<Pin>): (k: nat)
    ensures k <= |es|
    ensures k < |es| ==> Fails(es[k], faulty)
  {
    if es == [] then 0
    else if Fails(es[0], faulty) then 0
    else 1 + FirstFault(es[1..], faulty)
  }

  /** `FirstFault` is the position `i` before which no write fails and at which one does. */
  lemma {:induction false} FirstFaultIs(es: seq<Event>, faulty: set<Pin>, i: nat)
    requires i <= |es|
    requires forall j | 0 <= j < i :: !Fails(es[j], faulty)
    requires i < |es| ==> Fails(es[i], faulty)
    ensures FirstFault(es, faulty) == i
  {
    if i > 0 {
      FirstFaultIs(es[1..], faulty, i - 1);
    }
  }

  /** The events of `es` that take effect: everything before the first failing write. */
  function Executed(es: seq<Event>, faulty: set<Pin>): seq<Event>
  {
    es[..FirstFault(es, faulty)]
  }

  /** Whether every write of `es` succeeds. */
  predicate Completes(es: seq<Event>, faulty: set<Pin>)
  {
    FirstFault(es, faulty) == |es|
  }

  /** The pin whose write stopped `es`. */
  function FailedPin(es: seq<Event>, faulty: set<Pin>): Pin
    requires !Completes(es, faulty)
  {
    es[FirstFault(es, faulty)].pin
  }

  /** Running `a` then `b` stops inside `a` if `a` fails, and otherwise runs `b` as far as it gets. */
  lemma {:induction false} FirstFaultAppend(a: seq<Event>, b: seq<Event>, faulty: set<Pin>)
    ensures FirstFault(a + b, faulty) == if Completes(a, faulty) then |a| + FirstFault(b, faulty) else FirstFault(a, faulty)
    decreases |a|
  {
    if a == [] {
      assert a + b == b;
    } else {
      assert (a + b)[0] == a[0];
      assert (a + b)[1..] == a[1..] + b;
      if !Fails(a[0], faulty) {
        FirstFaultAppend(a[1..], b, faulty);
      }
    }
  }

  /**
   * How far a routine made of stages has got: the events carried out so
   * far, and the error of the stage that failed, if any.
   */
  datatype Progress = Progress(log: seq<Event>, outcome: Result<(), PinFault>)

  /** The outcome of running `es` on its own. */
  function Outcome(es: seq<Event>, faulty: set<Pin>): Result<(), PinFault>
  {
    if Completes(es, faulty) then Ok(()) else Err(PinFault(FailedPin(es, faulty)))
  }

  /** Run `stage` if every stage before it succeeded (the `?` operator); otherwise skip it. */
  function Step(pr: Progress, stage: seq<Event>, faulty: set<Pin>): Progress
  {
    if pr.outcome.Err? then pr
    else Progress(pr.log + Executed(stage, faulty), Outcome(stage, faulty))
  }

  /** A routine that has not yet done anything after the events `o`. */
  function Start(o: seq<Event>): Progress
  {
    Progress(o, Ok(()))
  }

  /** Whether a routine that returns a value succeeded, and if not, why. */
  function Status<T>(r: Result<T, PinFault>): Result<(), PinFault>
  {
    if r.Ok? then Ok(()) else Err(r.error)
  }

  /** Running two stages one after the other is running their concatenation. */
  lemma StepAppend(pr: Progress, a: seq<Event>, b: seq<Event>, faulty: set<Pin>)
    ensures Step(Step(pr, a, faulty), b, faulty) == Step(pr, a + b, faulty)
  {
    if pr.outcome.Ok? {
      FirstFaultAppend(a, b, faulty);
      if Completes(a, faulty) {
        var k := FirstFault(b, faulty);
        assert (a + b)[..|a| + k] == a + b[..k];
        assert pr.log + a + b[..k] == pr.log + (a + b[..k]);
        if k < |b| {
          assert (a + b)[|a| + k] == b[k];
        }
      } else {
        assert (a + b)[..FirstFault(a, faulty)] == a[..FirstFault(a, faulty)];
      }
    }
  }

  /** The level of `p` after the writes `es`, starting from `before`: the last write to `p` wins. */
  function LevelAfter(es: seq<Event>, p: Pin, before: bool): bool
    decreases |es|
  {
    if es == [] then before
    else if WritesTo(es[|es| - 1], p) then es[|es| - 1].high
    else LevelAfter(es[..|es| - 1], p, before)
  }

  lemma {:induction false} LevelAfterAppend(a: seq<Event>, b: seq<Event>, p: Pin, before: bool)
    ensures LevelAfter(a + b, p, before) == LevelAfter(b, p, LevelAfter(a, p, before))
    decreases |b|
  {
    if b == [] {
      assert a + b == a;
    } else {
      assert (a + b)[..|a + b| - 1] == a + b[..|b| - 1];
      LevelAfterAppend(a, b[..|b| - 1], p, before);
    }
  }

  lemma LevelAfterSingle(e: Event, p: Pin, before: bool)
    ensures LevelAfter([e], p, before) == if WritesTo(e, p) then e.high else before
  {
    assert [e][..0] == [];
  }

  /** A pin no event writes keeps its level. */
  lemma {:induction false} LevelAfterUntouched(es: seq<Event>, p: Pin, before: bool)
    requires forall k | 0 <= k < |es| :: !WritesTo(es[k], p)
    ensures LevelAfter(es, p, before) == before
    decreases |es|
  {
    if es != [] {
      LevelAfterUntouched(es[..|es| - 1], p, before);
    }
  }

  /** A pin ends at the level of the last event that writes it. */
  lemma {:induction false} LevelAfterLast(es: seq<Event>, p: Pin, j: nat, before: bool)
    requires j < |es| && WritesTo(es[j], p)
    requires forall k | j < k < |es| :: !WritesTo(es[k], p)
    ensures LevelAfter(es, p, before) == es[j].high
    decreases |es|
  {
    if j < |es| - 1 {
      LevelAfterLast(es[..|es| - 1], p, j, before);
    }
  }

  /** The lines of the words among the first `i` of `WordOrder` that are in `words`. */
  function LinesUpTo(words: set<MainWord>, i: nat): set<DriverLine>
    requires i <= |WordOrder|
  {
    if i == 0 then {}
    else LinesUpTo(words, i - 1) + if WordOrder[i - 1] in words then WordLines(WordOrder[i - 1]) else {}
  }

  lemma {:induction false} LinesUpToIs(words: set<MainWord>, i: nat)
    requires i <= |WordOrder|
    ensures LinesUpTo(words, i) == set j, l | 0 <= j < i && WordOrder[j] in words && l in WordLines(WordOrder[j]) :: l
  {
    if i > 0 {
      LinesUpToIs(words, i - 1);
    }
  }

  /** Collecting the lines word by word in `WordOrder` gives the lines of all the words. */
  lemma AllLinesUpTo(words: set<MainWord>)
    ensures LinesUpTo(words, |WordOrder|) == LinesOf(words)
  {
    LinesUpToIs(words, |WordOrder|);
    OrdersAreEnumerations();
    forall l | l in LinesOf(words) ensures l in LinesUpTo(words, |WordOrder|) {
      var w :| w in words && l in WordLines(w);
      assert WordOrder[WordIndex(w)] == w;
    }
  }

  // ---------------------------------------------------------------------
  // The write sequences of the source's routines
  // ---------------------------------------------------------------------

  /** `update_main_words(state)`: each word's enable low iff the phrase contains it. */
  function MainWordWrites(state: TimeState): (es: seq<Event>)
    ensures |es| == |WordOrder|
  {
    seq(|WordOrder|, i requires 0 <= i < |WordOrder| => Write(WordEnable(WordOrder[i]), WordOrder[i] !in state.main))
  }

  /** `update_hour_words(hour)`: hour enable i high iff i differs from `hour`. */
  function HourWrites(hour: nat): (es: seq<Event>)
    ensures |es| == 12
  {
    seq(12, i requires 0 <= i < 12 => Write(HourEnable(i), i != hour))
  }

  /** `update_driver_lines(mask)`: each line high iff it is not in the mask (active low). */
  function LineWrites(mask: set<DriverLine>): (es: seq<Event>)
    ensures |es| == |LineOrder|
  {
    seq(|LineOrder|, i requires 0 <= i < |LineOrder| => Write(LineLevel(LineOrder[i]), LineOrder[i] !in mask))
  }

  /** Enable low, wait, enable high: clears the LED driver's fault latch. */
  const FaultClearPulse: seq<Event> := [Write(MasterEnable, false), Delay, Write(MasterEnable, true)]

  /** The phrase `set_time` shows for `t`: the slot is picked by the seconds field. */
  function StateIndex(t: Time): (k: nat)
    requires t.Valid()
    ensures k < |FiveMinuteStates|
  {
    t.second / 5
  }

  /** The hour word `set_time` lights for `t`. */
  function HourIndex(t: Time): (h: nat)
    requires t.Valid()
    ensures h < 12
  {
    (t.second + if FiveMinuteStates[StateIndex(t)].nextHour then 1 else 0) % 12
  }

  /** The driver lines `set_time` activates: the phrase's lines and the hour word's lines. */
  function Mask(t: Time): set<DriverLine>
    requires t.Valid()
  {
    LinesOf(FiveMinuteStates[StateIndex(t)].main) + HourLines[HourIndex(t)]
  }

  /** Everything `set_time(t)` writes, in order. */
  function SetTimeWrites(t: Time): seq<Event>
    requires t.Valid()
  {
    MainWordWrites(FiveMinuteStates[StateIndex(t)]) + (HourWrites(HourIndex(t)) + (LineWrites(Mask(t)) + FaultClearPulse))
  }

  /** Everything `WordDisplay::init` writes, in order. */
  const InitWrites: seq<Event> :=
    [Write(MasterEnable, false)] + (MainWordWrites(OffState) + (HourWrites(0) + (LineWrites(AllLines) + [Write(MasterEnable, true)])))

  /** Everything `test` writes, in order: hour words 12 and 2 lit, no main word. */
  const TestWrites: seq<Event> :=
    MainWordWrites(OffState) + (HourWrites(13) + ([Write(HourEnable(0), false)] + ([Write(HourEnable(2), false)]
    + (LineWrites(HourLines[0] + HourLines[2]) + FaultClearPulse))))

  /** `set_time(t)` run stage by stage after the events `o`: each stage runs only if the ones before succeeded. */
  function SetTimeRun(o: seq<Event>, t: Time, faulty: set<Pin>): Progress
    requires t.Valid()
  {
    var start := Start(o);
    Step(Step(Step(Step(start, MainWordWrites(FiveMinuteStates[StateIndex(t)]), faulty),
      HourWrites(HourIndex(t)), faulty), LineWrites(Mask(t)), faulty), FaultClearPulse, faulty)
  }

  /** Stage by stage, `set_time` carries out the writes of `SetTimeWrites(t)` up to the first failing one, and fails with that pin. */
  lemma SetTimeRunIsFlat(o: seq<Event>, t: Time, faulty: set<Pin>)
    requires t.Valid()
    ensures SetTimeRun(o, t, faulty) == Progress(o + Executed(SetTimeWrites(t), faulty), Outcome(SetTimeWrites(t), faulty))
  {
    var start := Start(o);
    var m := MainWordWrites(FiveMinuteStates[StateIndex(t)]);
    var h := HourWrites(HourIndex(t));
    var l := LineWrites(Mask(t));
    StepAppend(Step(Step(start, m, faulty), h, faulty), l, FaultClearPulse, faulty);
    StepAppend(Step(start, m, faulty), h, l + FaultClearPulse, faulty);
    StepAppend(start, m, h + (l + FaultClearPulse), faulty);
  }

  /** `WordDisplay::init` run stage by stage on a fresh display. */
  function InitRun(faulty: set<Pin>): Progress
  {
    var start := Start([]);
    Step(Step(Step(Step(Step(start, [Write(MasterEnable, false)], faulty), MainWordWrites(OffState), faulty),
      HourWrites(0), faulty), LineWrites(AllLines), faulty), [Write(MasterEnable, true)], faulty)
  }

  /** Stage by stage, `init` carries out the writes of `InitWrites` up to the first failing one, and fails with that pin. */
  lemma InitRunIsFlat(faulty: set<Pin>)
    ensures InitRun(faulty) == Progress(Executed(InitWrites, faulty), Outcome(InitWrites, faulty))
  {
    var start := Start([]);
    var a := [Write(MasterEnable, false)];
    var m := MainWordWrites(OffState);
    var h := HourWrites(0);
    var l := LineWrites(AllLines);
    var z := [Write(MasterEnable, true)];
    StepAppend(Step(Step(Step(start, a, faulty), m, faulty), h, faulty), l, z, faulty);
    StepAppend(Step(Step(start, a, faulty), m, faulty), h, l + z, faulty);
    StepAppend(Step(start, a, faulty), m, h + (l + z), faulty);
    StepAppend(start, a, m + (h + (l + z)), faulty);
    assert [] + Executed(InitWrites, faulty) == Executed(InitWrites, faulty);
  }

  /** `test` run stage by stage after the events `o`. */
  function TestRun(o: seq<Event>, faulty: set<Pin>): Progress
  {
    var start := Start(o);
    Step(Step(Step(Step(Step(Step(start, MainWordWrites(OffState), faulty), HourWrites(13), faulty),
      [Write(HourEnable(0), false)], faulty), [Write(HourEnable(2), false)], faulty),
      LineWrites(HourLines[0] + HourLines[2]), faulty), FaultClearPulse, faulty)
  }

  /** Stage by stage, `test` carries out the writes of `TestWrites` up to the first failing one, and fails with that pin. */
  lemma TestRunIsFlat(o: seq<Event>, faulty: set<Pin>)
    ensures TestRun(o, faulty) == Progress(o + Executed(TestWrites, faulty), Outcome(TestWrites, faulty))
  {
    var start := Start(o);
    var m := MainWordWrites(OffState);
    var h := HourWrites(13);
    var s0 := [Write(HourEnable(0), false)];
    var s2 := [Write(HourEnable(2), false)];
    var l := LineWrites(HourLines[0] + HourLines[2]);
    var p1 := Step(start, m, faulty);
    var p2 := Step(p1, h, faulty);
    var p3 := Step(p2, s0, faulty);
    var p4 := Step(p3, s2, faulty);
    StepAppend(p4, l, FaultClearPulse, faulty);
    StepAppend(p3, s2, l + FaultClearPulse, faulty);
    StepAppend(p2, s0, s2 + (l + FaultClearPulse), faulty);
    StepAppend(p1, h, s0 + (s2 + (l + FaultClearPulse)), faulty);
    StepAppend(start, m, h + (s0 + (s2 + (l + FaultClearPulse))), faulty);
  }

  // ---------------------------------------------------------------------
  // What each routine leaves on the pins
  // ---------------------------------------------------------------------

  lemma MainWordLevel(state: TimeState, p: Pin, before: bool)
    ensures p.WordEnable? ==> LevelAfter(MainWordWrites(state), p, before) == (p.word !in state.main)
    ensures !p.WordEnable? ==> LevelAfter(MainWordWrites(state), p, before) == before
  {
    var es := MainWordWrites(state);
    OrdersAreEnumerations();
    if p.WordEnable? {
      LevelAfterLast(es, p, WordIndex(p.word), before);
    } else {
      LevelAfterUntouched(es, p, before);
    }
  }

  lemma HourLevel(hour: nat, p: Pin, before: bool)
    requires IsPin(p)
    ensures p.HourEnable? ==> LevelAfter(HourWrites(hour), p, before) == (p.index != hour)
    ensures !p.HourEnable? ==> LevelAfter(HourWrites(hour), p, before) == before
  {
    if p.HourEnable? {
      LevelAfterLast(HourWrites(hour), p, p.index, before);
    } else {
      LevelAfterUntouched(HourWrites(hour), p, before);
    }
  }

  lemma LineLevelAfter(mask: set<DriverLine>, p: Pin, before: bool)
    ensures p.LineLevel? ==> LevelAfter(LineWrites(mask), p, before) == (p.line !in mask)
    ensures !p.LineLevel? ==> LevelAfter(LineWrites(mask), p, before) == before
  {
    var es := LineWrites(mask);
    OrdersAreEnumerations();
    if p.LineLevel? {
      LevelAfterLast(es, p, LineIndex(p.line), before);
    } else {
      LevelAfterUntouched(es, p, before);
    }
  }

  lemma PulseLevel(p: Pin, before: bool)
    ensures LevelAfter(FaultClearPulse, p, before) == if p == MasterEnable then true else before
  {
    if p == MasterEnable {
      LevelAfterLast(FaultClearPulse, p, 2, before);
    } else {
      LevelAfterUntouched(FaultClearPulse, p, before);
    }
  }

  /** For an hour below 12 exactly one hour word is enabled; for 12 and above none is. */
  lemma {:induction false} HourWordsEnabled(hour: nat, before: bool)
    ensures (set i | 0 <= i < 12 && !LevelAfter(HourWrites(hour), HourEnable(i), before)) ==
            if hour < 12 then {hour} else {}
  {
    forall i | 0 <= i < 12
      ensures LevelAfter(HourWrites(hour), HourEnable(i), before) == (i != hour)
    {
      HourLevel(hour, HourEnable(i), before);
    }
  }

  /** The level `set_time(t)` leaves on each pin when it completes. */
  function Rendered(t: Time, p: Pin): bool
    requires t.Valid()
  {
    match p
    case MasterEnable => true
    case WordEnable(w) => w !in FiveMinuteStates[StateIndex(t)].main
    case HourEnable(i) => i != HourIndex(t)
    case LineLevel(l) => l !in Mask(t)
  }

  /**
   * A completed `set_time(t)` leaves every pin at `Rendered(t, p)`, whatever
   * the pin showed before: the picture depends on `t` alone, so repeating the
   * call changes nothing.
   */
  lemma SetTimeRenders(t: Time, p: Pin, before: bool)
    requires t.Valid() && IsPin(p)
    ensures LevelAfter(SetTimeWrites(t), p, before) == Rendered(t, p)
  {
    var m := MainWordWrites(FiveMinuteStates[StateIndex(t)]);
    var h := HourWrites(HourIndex(t));
    var l := LineWrites(Mask(t));
    var b1 := LevelAfter(m, p, before);
    var b2 := LevelAfter(h, p, b1);
    var b3 := LevelAfter(l, p, b2);
    LevelAfterAppend(m, h + (l + FaultClearPulse), p, before);
    LevelAfterAppend(h, l + FaultClearPulse, p, b1);
    LevelAfterAppend(l, FaultClearPulse, p, b2);
    MainWordLevel(FiveMinuteStates[StateIndex(t)], p, before);
    HourLevel(HourIndex(t), p, b1);
    LineLevelAfter(Mask(t), p, b2);
    PulseLevel(p, b3);
  }

  /** No main word is wired to line 5A or 5B; every hour word is wired to 5A. */
  lemma Line5Wiring()
    ensures forall w: MainWord :: Line5A !in WordLines(w) && Line5B !in WordLines(w)
    ensures forall h | 0 <= h < 12 :: Line5A in HourLines[h]
  {
  }

  /** Line 5A is active (low) in every picture `set_time` draws. */
  lemma Line5AAlwaysActive(t: Time)
    requires t.Valid()
    ensures !Rendered(t, LineLevel(Line5A))
  {
    Line5Wiring();
  }

  /** `set_time` lights the lines of the lit words and of the hour word, and no other. */
  lemma MaskIsLitWiring(t: Time, l: DriverLine)
    requires t.Valid()
    ensures l in Mask(t) <==>
      l in HourLines[HourIndex(t)] ||
      exists w :: w in FiveMinuteStates[StateIndex(t)].main && l in WordLines(w)
  {
  }

  /** The phrase table: twelve slots, the first five name the current hour and the rest the next. */
  lemma FiveMinuteTable()
    ensures |FiveMinuteStates| == 12
    ensures forall i | 0 <= i < 12 :: FiveMinuteStates[i].nextHour <==> i >= 5
  {
  }

  /** `OFF_STATE` needs no lines and leaves every main word's enable high. */
  lemma OffStateDark(p: Pin, before: bool)
    requires p.WordEnable?
    ensures LinesOf(OffState.main) == {}
    ensures LevelAfter(MainWordWrites(OffState), p, before)
  {
    MainWordLevel(OffState, p, before);
  }

  /** What a completed `init` leaves on the pins, from the power-on low levels. */
  lemma InitLevels(p: Pin)
    requires IsPin(p)
    ensures LevelAfter(InitWrites, p, false) == InitShown(p)
  {
    var a := [Write(MasterEnable, false)];
    var m := MainWordWrites(OffState);
    var h := HourWrites(0);
    var l := LineWrites(AllLines);
    var z := [Write(MasterEnable, true)];
    var b0 := LevelAfter(a, p, false);
    var b1 := LevelAfter(m, p, b0);
    var b2 := LevelAfter(h, p, b1);
    var b3 := LevelAfter(l, p, b2);
    LevelAfterAppend(a, m + (h + (l + z)), p, false);
    LevelAfterAppend(m, h + (l + z), p, b0);
    LevelAfterAppend(h, l + z, p, b1);
    LevelAfterAppend(l, z, p, b2);
    LevelAfterSingle(a[0], p, false);
    LevelAfterSingle(z[0], p, b3);
    MainWordLevel(OffState, p, b0);
    HourLevel(0, p, b1);
    LineLevelAfter(AllLines, p, b2);
    match p
    case MasterEnable =>
    case WordEnable(w) => assert w !in OffState.main;
    case HourEnable(i) => assert b2 == (i != 0);
    case LineLevel(x) =>
      assert x in AllLines by {
        match x
        case Line1A => case Line1B => case Line2A => case Line2B =>
        case Line3 => case Line4 => case Line5A => case Line5B =>
      }
  }

  /** What a completed `test` leaves on the pins, whatever they showed before. */
  lemma TestLevels(p: Pin, before: bool)
    requires IsPin(p)
    ensures LevelAfter(TestWrites, p, before) == TestShown(p)
  {
    var m := MainWordWrites(OffState);
    var h := HourWrites(13);
    var s0 := [Write(HourEnable(0), false)];
    var s2 := [Write(HourEnable(2), false)];
    var l := LineWrites(HourLines[0] + HourLines[2]);
    var b1 := LevelAfter(m, p, before);
    var b2 := LevelAfter(h, p, b1);
    var b3 := LevelAfter(s0, p, b2);
    var b4 := LevelAfter(s2, p, b3);
    var b5 := LevelAfter(l, p, b4);
    LevelAfterAppend(m, h + (s0 + (s2 + (l + FaultClearPulse))), p, before);
    LevelAfterAppend(h, s0 + (s2 + (l + FaultClearPulse)), p, b1);
    LevelAfterAppend(s0, s2 + (l + FaultClearPulse), p, b2);
    LevelAfterAppend(s2, l + FaultClearPulse, p, b3);
    LevelAfterAppend(l, FaultClearPulse, p, b4);
    MainWordLevel(OffState, p, before);
    HourLevel(13, p, b1);
    LineLevelAfter(HourLines[0] + HourLines[2], p, b4);
    PulseLevel(p, b5);
  }

  /** After a completed `set_time(t)` every pin shows `Rendered(t)`, whatever was written before. */
  lemma SetTimeShows(o: seq<Event>, t: Time)
    requires t.Valid()
    ensures forall q | IsPin(q) :: LevelAfter(o + SetTimeWrites(t), q, false) == Rendered(t, q)
  {
    forall q | IsPin(q) ensures LevelAfter(o + SetTimeWrites(t), q, false) == Rendered(t, q) {
      LevelAfterAppend(o, SetTimeWrites(t), q, false);
      SetTimeRenders(t, q, LevelAfter(o, q, false));
    }
  }

  /** After a completed `test` the pins show `TestShown`, whatever was written before. */
  lemma TestShows(o: seq<Event>)
    ensures forall q | IsPin(q) :: LevelAfter(o + TestWrites, q, false) == TestShown(q)
  {
    forall q | IsPin(q) ensures LevelAfter(o + TestWrites, q, false) == TestShown(q) {
      LevelAfterAppend(o, TestWrites, q, false);
      TestLevels(q, LevelAfter(o, q, false));
    }
  }

  /** When `set_time(t)` succeeds, every pin shows `Rendered(t)`. */
  lemma SetTimeRunShows(o: seq<Event>, t: Time, faulty: set<Pin>)
    requires t.Valid() && SetTimeRun(o, t, faulty).outcome.Ok?
    ensures forall q | IsPin(q) :: LevelAfter(SetTimeRun(o, t, faulty).log, q, false) == Rendered(t, q)
  {
    SetTimeRunIsFlat(o, t, faulty);
    assert Executed(SetTimeWrites(t), faulty) == SetTimeWrites(t);
    SetTimeShows(o, t);
  }

  /** When `init` succeeds, the pins show `InitShown`. */
  lemma InitRunShows(faulty: set<Pin>)
    requires InitRun(faulty).outcome.Ok?
    ensures forall q | IsPin(q) :: LevelAfter(InitRun(faulty).log, q, false) == InitShown(q)
  {
    InitRunIsFlat(faulty);
    assert Executed(InitWrites, faulty) == InitWrites;
    forall q | IsPin(q) ensures LevelAfter(InitWrites, q, false) == InitShown(q) {
      InitLevels(q);
    }
  }

  /** When `test` succeeds, the pins show `TestShown`. */
  lemma TestRunShows(o: seq<Event>, faulty: set<Pin>)
    requires TestRun(o, faulty).outcome.Ok?
    ensures forall q | IsPin(q) :: LevelAfter(TestRun(o, faulty).log, q, false) == TestShown(q)
  {
    TestRunIsFlat(o, faulty);
    assert Executed(TestWrites, faulty) == TestWrites;
    TestShows(o);
  }

  /** The levels a completed `init` leaves: enable high, main words off, hour word 12 enabled, all lines active. */
  function InitShown(p: Pin): bool
  {
    match p
    case MasterEnable => true
    case WordEnable(_) => true
    case HourEnable(i) => i != 0
    case LineLevel(_) => false
  }

  /** The levels a completed `test` leaves: hour words 12 and 2 enabled on lines 5A and 5B, nothing else. */
  function TestShown(p: Pin): bool
  {
    match p
    case MasterEnable => true
    case WordEnable(_) => true
    case HourEnable(i) => i != 0 && i != 2
    case LineLevel(l) => l != Line5A && l != Line5B
  }

  /**
   * The word display.  The Rust struct holds pin handles; the levels they
   * drive live in the GPIO hardware, which is modelled as `trace`, the
   * history of writes that took effect.
   */
  class WordDisplay {
    /** The time the panel was last set to. */
    var current: Time
    /** Every pin write that took effect, and every delay, oldest first. */
    var trace: seq<Event>
    /** The pins whose writes fail. */
    const faulty: set<Pin>

    /** The level pin `p` is driven to: the last write to it, or low if it was never written. */
    function Level(p: Pin): bool
      reads this`trace
    {
      LevelAfter(trace, p, false)
    }

    /** Pins that start low, nothing written yet. */
    constructor (faulty: set<Pin>)
      ensures this.faulty == faulty && current == Midnight && trace == []
    {
      current := Midnight;
      trace := [];
      this.faulty := faulty;
    }

    /** `set_pin!` (and the enable writes of `set_main_word!`): drive one pin. */
    method SetPin(p: Pin, high: bool) returns (r: Result<(), PinFault>)
      requires IsPin(p)
      modifies this`trace
      ensures r == if p in faulty then Err(PinFault(p)) else Ok(())
      ensures trace == old(trace) + if r.Ok? then [Write(p, high)] else []
      ensures Progress(trace, r) == Step(Start(old(trace)), [Write(p, high)], faulty)
    {
      if p in faulty {
        return Err(PinFault(p));
      }
      trace := trace + [Write(p, high)];
      r := Ok(());
    }

    /** `delay(200)`: time passes, no pin changes. */
    method Wait()
      modifies this`trace
      ensures trace == old(trace) + [Delay]
    {
      trace := trace + [Delay];
    }

    /**
     * `update_main_words`: drive each main word's enable, collecting the
     * driver lines of the words that are lit.
     */
    method UpdateMainWords(state: TimeState) returns (r: Result<set<DriverLine>, PinFault>)
      modifies this`trace
      ensures Progress(trace, Status(r)) == Step(Start(old(trace)), MainWordWrites(state), faulty)
      ensures r.Ok? ==> r.value == LinesOf(state.main)
    {
      ghost var es := MainWordWrites(state);
      var mask: set<DriverLine> := {};
      for i := 0 to |WordOrder|
        invariant forall j | 0 <= j < i :: !Fails(es[j], faulty)
        invariant trace == old(trace) + es[..i]
        invariant mask == LinesUpTo(state.main, i)
      {
        var w := WordOrder[i];
        var step;
        if w in state.main {
          mask := mask + WordLines(w);
          step := SetPin(WordEnable(w), false);
        } else {
          step := SetPin(WordEnable(w), true);
        }
        assert es[i] == Write(WordEnable(w), w !in state.main);
        if step.Err? {
          FirstFaultIs(es, faulty, i);
          return Err(step.error);
        }
        assert es[..i + 1] == es[..i] + [es[i]];
      }
      FirstFaultIs(es, faulty, |es|);
      assert es[..|WordOrder|] == es;
      AllLinesUpTo(state.main);
      return Ok(mask);
    }

    /** `update_hour_words`: hour enable i high iff i differs from `hour`. */
    method UpdateHourWords(hour: nat) returns (r: Result<(), PinFault>)
      modifies this`trace
      ensures Progress(trace, r) == Step(Start(old(trace)), HourWrites(hour), faulty)
    {
      ghost var es := HourWrites(hour);
      for i := 0 to 12
        invariant forall j | 0 <= j < i :: !Fails(es[j], faulty)
        invariant trace == old(trace) + es[..i]
      {
        r := SetPin(HourEnable(i), i != hour);
        if r.Err? {
          FirstFaultIs(es, faulty, i);
          return;
        }
        assert es[..i + 1] == es[..i] + [es[i]];
      }
      FirstFaultIs(es, faulty, |es|);
      assert es[..12] == es;
      return Ok(());
    }

    /** `update_driver_lines`: each line high iff it is absent from `mask`. */
    method UpdateDriverLines(mask: set<DriverLine>) returns (r: Result<(), PinFault>)
      modifies this`trace
      ensures Progress(trace, r) == Step(Start(old(trace)), LineWrites(mask), faulty)
    {
      ghost var es := LineWrites(mask);
      for i := 0 to |LineOrder|
        invariant forall j | 0 <= j < i :: !Fails(es[j], faulty)
        invariant trace == old(trace) + es[..i]
      {
        r := SetPin(LineLevel(LineOrder[i]), LineOrder[i] !in mask);
        if r.Err? {
          FirstFaultIs(es, faulty, i);
          return;
        }
        assert es[..i + 1] == es[..i] + [es[i]];
      }
      FirstFaultIs(es, faulty, |es|);
      assert es[..|LineOrder|] == es;
      return Ok(());
    }

    /** Enable low, `delay(200)`, enable high: the end of `set_time` and `test`. */
    method ClearFault() returns (r: Result<(), PinFault>)
      modifies this`trace
      ensures Progress(trace, r) == Step(Start(old(trace)), FaultClearPulse, faulty)
    {
      r := SetPin(MasterEnable, false);
      if r.Err? {
        FirstFaultIs(FaultClearPulse, faulty, 0);
        return;
      }
      Wait();
      r := SetPin(MasterEnable, true);
      FirstFaultIs(FaultClearPulse, faulty, if r.Ok? then 3 else 2);
    }

    /**
     * `WordDisplay::init`: enable low, all main words off, hour word 12
     * enabled, all lines active, enable high.
     */
    static method Init(faulty: set<Pin>) returns (d: WordDisplay, r: Result<(), PinFault>)
      ensures fresh(d) && d.faulty == faulty && d.current == Midnight
      ensures d.trace == InitRun(faulty).log
      ensures r == InitRun(faulty).outcome
      ensures r.Ok? ==> forall p | IsPin(p) :: d.Level(p) == InitShown(p)
    {
      d := new WordDisplay(faulty);
      ghost var pr := Start([]);
      r := d.SetPin(MasterEnable, false);
      pr := Step(pr, [Write(MasterEnable, false)], faulty);
      if r.Err? {
        return;
      }
      var words := d.UpdateMainWords(OffState);
      pr := Step(pr, MainWordWrites(OffState), faulty);
      if words.Err? {
        return d, Err(words.error);
      }
      r := d.UpdateHourWords(0);
      pr := Step(pr, HourWrites(0), faulty);
      if r.Err? {
        return;
      }
      r := d.UpdateDriverLines(AllLines);
      pr := Step(pr, LineWrites(AllLines), faulty);
      if r.Err? {
        return;
      }
      r := d.SetPin(MasterEnable, true);
      pr := Step(pr, [Write(MasterEnable, true)], faulty);
      if r.Ok? {
        InitRunShows(faulty);
      }
    }

    /** `needs_update`: the hour differs, or the minute's slot differs from the seconds' slot. */
    function NeedsUpdate(t: Time): (b: bool)
      reads this`current
      ensures current.hour != t.hour ==> b
      ensures current.hour == t.hour ==> (b <==> current.minute % 5 != t.second % 5)
    {
      current.hour != t.hour || current.minute % 5 != t.second % 5
    }

    /**
     * `set_time`: main words, hour words, driver lines, fault-clear pulse,
     * then record `t` as the time shown.  The first failing write aborts
     * the rest and leaves `current` as it was.
     */
    method SetTime(t: Time) returns (r: Result<(), PinFault>)
      requires t.Valid()
      modifies this`trace, this`current
      ensures trace == SetTimeRun(old(trace), t, faulty).log
      ensures r == SetTimeRun(old(trace), t, faulty).outcome
      ensures current == if r.Ok? then t else old(current)
      ensures r.Ok? ==> forall p | IsPin(p) :: Level(p) == Rendered(t, p)
    {
      var state := FiveMinuteStates[StateIndex(t)];
      var hour := HourIndex(t);
      ghost var pr := Start(trace);
      var words := UpdateMainWords(state);
      pr := Step(pr, MainWordWrites(state), faulty);
      if words.Err? {
        return Err(words.error);
      }
      var mask := words.value + HourLines[hour];
      r := UpdateHourWords(hour);
      pr := Step(pr, HourWrites(hour), faulty);
      if r.Err? {
        return;
      }
      r := UpdateDriverLines(mask);
      pr := Step(pr, LineWrites(mask), faulty);
      if r.Err? {
        return;
      }
      r := ClearFault();
      pr := Step(pr, FaultClearPulse, faulty);
      if r.Err? {
        return;
      }
      current := t;
      SetTimeRunShows(old(trace), t, faulty);
    }

    /** `test`: light hour words 12 and 2 and nothing else, then pulse the enable. */
    method Test() returns (r: Result<(), PinFault>)
      modifies this`trace
      ensures trace == TestRun(old(trace), faulty).log
      ensures r == TestRun(old(trace), faulty).outcome
      ensures r.Ok? ==> forall p | IsPin(p) :: Level(p) == TestShown(p)
    {
      ghost var pr := Start(trace);
      var words := UpdateMainWords(OffState);
      pr := Step(pr, MainWordWrites(OffState), faulty);
      if words.Err? {
        return Err(words.error);
      }
      r := UpdateHourWords(13);
      pr := Step(pr, HourWrites(13), faulty);
      if r.Err? {
        return;
      }
      r := SetPin(HourEnable(0), false);
      pr := Step(pr, [Write(HourEnable(0), false)], faulty);
      if r.Err? {
        return;
      }
      r := SetPin(HourEnable(2), false);
      pr := Step(pr, [Write(HourEnable(2), false)], faulty);
      if r.Err? {
        return;
      }
      r := UpdateDriverLines(HourLines[0] + HourLines[2]);
      pr := Step(pr, LineWrites(HourLines[0] + HourLines[2]), faulty);
      if r.Err? {
        return;
      }
      r := ClearFault();
      pr := Step(pr, FaultClearPulse, faulty);
      if r.Ok? {
        TestRunShows(old(trace), faulty);
      }
    }
  }

  // ---------------------------------------------------------------------
  // The minute display
  // ---------------------------------------------------------------------

  /** The level `MinuteDisplay::set_time` drives minute pin `i` to. */
  function MinuteLevel(minute: nat, i: nat): bool
  {
    minute % 5 + 1 < i
  }

  /** The first of the four minute pins whose write fails, or 4. */
  function FirstFaultyMinutePin(faulty: set<nat>): (k: nat)
    ensures k <= 4
    ensures forall i | 0 <= i < k :: i !in faulty
    ensures k < 4 ==> k in faulty
  {
    if 0 in faulty then 0
    else if 1 in faulty then 1
    else if 2 in faulty then 2
    else if 3 in faulty then 3
    else 4
  }

  /**
   * The minute pins: pins 0 and 1 are never driven high, the high pins form
   * a suffix, and their number is 2, 1 or 0 as `minute % 5` is 0, 1 or more.
   */
  lemma MinuteThermometer(minute: nat)
    ensures !MinuteLevel(minute, 0) && !MinuteLevel(minute, 1)
    ensures forall i, j | i <= j && MinuteLevel(minute, i) :: MinuteLevel(minute, j)
    ensures (set i | 0 <= i < 4 && MinuteLevel(minute, i)) ==
      if minute % 5 == 0 then {2, 3} else if minute % 5 == 1 then {3} else {}
  {
  }

  class MinuteDisplay {
    const minutes: array<bool>
    /** The indices of the minute pins whose writes fail. */
    const faulty: set<nat>

    ghost predicate Valid()
      reads this
    {
      minutes.Length == 4
    }

    constructor (faulty: set<nat>)
      ensures Valid() && fresh(minutes) && this.faulty == faulty
      ensures forall i | 0 <= i < 4 :: !minutes[i]
    {
      minutes := new bool[4](_ => false);
      this.faulty := faulty;
    }

    /** `set_pin!` on one minute pin. */
    method SetPin(i: nat, high: bool) returns (r: Result<(), nat>)
      requires Valid() && i < 4
      modifies minutes
      ensures r == if i in faulty then Err(i) else Ok(())
      ensures minutes[..] == if r.Ok? then old(minutes[..])[i := high] else old(minutes[..])
    {
      if i in faulty {
        return Err(i);
      }
      minutes[i] := high;
      r := Ok(());
    }

    /** `MinuteDisplay::init`: drive the four pins low, stopping at the first failure. */
    static method Init(faulty: set<nat>) returns (d: MinuteDisplay, r: Result<(), nat>)
      ensures fresh(d) && fresh(d.minutes) && d.Valid() && d.faulty == faulty
      ensures r.Ok? <==> FirstFaultyMinutePin(faulty) == 4
      ensures r.Err? ==> r.error == FirstFaultyMinutePin(faulty)
      ensures forall i | 0 <= i < 4 :: !d.minutes[i]
    {
      d := new MinuteDisplay(faulty);
      for i := 0 to 4
        invariant forall j | 0 <= j < i :: j !in faulty
        invariant forall j | 0 <= j < 4 :: !d.minutes[j]
      {
        r := d.SetPin(i, false);
        if r.Err? {
          return;
        }
      }
      r := Ok(());
    }

    /**
     * `MinuteDisplay::set_time`: pin i high iff `minute % 5 + 1 < i`, pins
     * written in order up to the first one that fails.
     */
    method SetTime(t: Time) returns (r: Result<(), nat>)
      requires Valid()
      modifies minutes
      ensures r.Ok? <==> FirstFaultyMinutePin(faulty) == 4
      ensures r.Err? ==> r.error == FirstFaultyMinutePin(faulty)
      ensures forall i | 0 <= i < 4 ::
        minutes[i] == if i < FirstFaultyMinutePin(faulty) then MinuteLevel(t.minute, i) else old(minutes[i])
    {
      for i := 0 to 4
        invariant forall j | 0 <= j < i :: j !in faulty
        invariant forall j | 0 <= j < 4 :: minutes[j] == if j < i then MinuteLevel(t.minute, j) else old(minutes[j])
      {
        r := SetPin(i, MinuteLevel(t.minute, i));
        if r.Err? {
          return;
        }
      }
      r := Ok(());
    }
  }
}
