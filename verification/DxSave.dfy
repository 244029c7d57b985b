/** Writing a label as one element of the JSON list, and loading it back. */
module DxSave {
  import opened DxLabel
  import opened DxSchedule

  /** An option of an element. Days and types travel as small numbers. */
  datatype Field = TypeNo(t: bv32) | Lo(n: int) | Hi(n: int) | Offset(n: int) | Width(n: int)
                 | Days(d: bv32) | BeginAt(t0: nat) | EndAt(t1: nat) | Params(s: string)

  /** An element: frequency, mode, ident and notes, and the options object, if any. */
  datatype Elem = Elem(freq: real, mode: bv32, ident: string, notes: string, opts: seq<Field>)

  // ---- the flag bits -------------------------------------------------------------------------------------------

  function DecodeMode(flags: bv32): bv32 { (if flags & MODE_16 != 0 then 16 else 0) | (flags & MODE) }

  function EncodeMode(mode: bv32): bv32 { (if mode >= 16 then MODE_16 else 0) | (mode & MODE) }

  function TypeOf(flags: bv32): bv32 { (flags & TYPE) >> 4 }

  function TypeBits(t: bv32): bv32 { (t << 4) & TYPE }

  function DaysOf(flags: bv32): bv32 { (flags & DOW) >> 9 }

  /** No days means all of them. */
  function DayBits(d: bv32): bv32 {
    var dow := (d << 9) & DOW;
    if dow == 0 then DOW else dow
  }

  function Join(a: bv32, b: bv32): bv32 { a | b }

  // ---- saving ------------------------------------------------------------------------------------------------------

  /** Frequencies are written with two decimals. */
  function Round2(x: real): real { (x * 100.0 + 0.5).Floor as real / 100.0 }

  /** Whether an options object is written at all. */
  predicate HasOptions(l: Label) {
    TypeOf(l.flags) != 0 || l.low != 0 || l.high != 0 || l.offset != 0 || l.params != ""
  }

  predicate SomeDays(flags: bv32) { flags & DOW != 0 && flags & DOW != DOW }

  predicate SomeTimes(l: Label) { l.begin != 0 || (l.end != 0 && l.end != DAY) }

  function If(b: bool, f: Field): seq<Field> { if b then [f] else [] }

  function Numbers(l: Label): seq<Field> {
    [] + If(TypeOf(l.flags) != 0, TypeNo(TypeOf(l.flags)))
    + If(l.low != 0, Lo(l.low)) + If(l.high != 0, Hi(l.high)) + If(l.offset != 0, Offset(l.offset))
    + If(l.sigBw != 0, Width(l.sigBw))
  }

  function Options(l: Label): seq<Field> {
    Numbers(l)
    + If(SomeDays(l.flags), Days(DaysOf(l.flags)))
    + If(SomeTimes(l), BeginAt(l.begin))
    + If(SomeTimes(l), EndAt(if l.begin == 0 && l.end == DAY then 0 else l.end))
    + If(l.params != "", Params(l.params))
  }

  function Saved(l: Label): Elem {
    Elem(Round2(l.freq), DecodeMode(l.flags), l.ident, l.notes, if HasOptions(l) then Options(l) else [])
  }

  method Put(opts: seq<Field>, wanted: bool, f: Field) returns (r: seq<Field>)
    ensures r == opts + If(wanted, f)
  {
    r := opts;
    if wanted { r := r + [f]; }
  }

  /** Writes one label: its options are appended one by one, when there are any to write. */
  method Save(l: Label) returns (e: Elem)
    ensures e == Saved(l)
  {
    hide If, TypeOf, DaysOf, SomeDays, DecodeMode, Round2;
    e := Elem(Round2(l.freq), DecodeMode(l.flags), l.ident, l.notes, []);
    var t := TypeOf(l.flags);
    if t != 0 || l.low != 0 || l.high != 0 || l.offset != 0 || l.params != "" {
      var opts := Put([], t != 0, TypeNo(t));
      opts := Put(opts, l.low != 0, Lo(l.low));
      opts := Put(opts, l.high != 0, Hi(l.high));
      opts := Put(opts, l.offset != 0, Offset(l.offset));
      opts := Put(opts, l.sigBw != 0, Width(l.sigBw));
      opts := Put(opts, SomeDays(l.flags), Days(DaysOf(l.flags)));
      var timeBegin, timeEnd := l.begin, l.end;
      if timeBegin == 0 && timeEnd == DAY { timeEnd := 0; }
      var timed := timeBegin != 0 || timeEnd != 0;
      opts := Put(opts, timed, BeginAt(timeBegin));
      opts := Put(opts, timed, EndAt(timeEnd));
      opts := Put(opts, l.params != "", Params(l.params));
      e := e.(opts := opts);
    }
  }

  // ---- loading -------------------------------------------------------------------------------------------------------

  /** A label being loaded, and the days gathered so far. */
  datatype Loading = Loading(l: Label, dow: bv32)

  function Step(s: Loading, f: Field): Loading {
    match f
    case TypeNo(t) => s.(l := s.l.(flags := Join(s.l.flags, TypeBits(t))))
    case Lo(n) => s.(l := s.l.(low := n))
    case Hi(n) => s.(l := s.l.(high := n))
    case Offset(n) => s.(l := s.l.(offset := n))
    case Width(n) => s.(l := s.l.(sigBw := n))
    case Days(d) => s.(dow := DayBits(d))
    case BeginAt(t) => s.(l := s.l.(begin := t))
    case EndAt(t) => s.(l := s.l.(end := t))
    case Params(p) => s.(l := s.l.(params := p))
  }

  function Steps(s: Loading, fs: seq<Field>): Loading {
    if |fs| == 0 then s else Step(Steps(s, fs[..|fs| - 1]), fs[|fs| - 1])
  }

  function Started(slot: Label, e: Elem): Loading {
    Loading(slot.(freq := e.freq, flags := EncodeMode(e.mode), ident := e.ident, notes := e.notes), DOW)
  }

  function Finished(s: Loading): Label {
    var l := s.l.(flags := Join(s.l.flags, s.dow));
    if l.begin == 0 && l.end == 0 then l.(end := DAY) else l
  }

  function Loaded(slot: Label, e: Elem): Label { Finished(Steps(Started(slot, e), e.opts)) }

  /** Loads one element into a slot of the list, field by field. */
  method Load(slot: Label, e: Elem) returns (l: Label)
    ensures l == Loaded(slot, e)
  {
    hide EncodeMode, DayBits, TypeBits, Join;
    l := slot.(freq := e.freq, flags := EncodeMode(e.mode), ident := e.ident, notes := e.notes);
    var dow := DOW;
    var i := 0;
    while i < |e.opts|
      invariant 0 <= i <= |e.opts|
      invariant Steps(Started(slot, e), e.opts[..i]) == Loading(l, dow)
    {
      assert e.opts[..i + 1][..i] == e.opts[..i];
      match e.opts[i] {
        case TypeNo(t) => l := l.(flags := Join(l.flags, TypeBits(t)));
        case Lo(n) => l := l.(low := n);
        case Hi(n) => l := l.(high := n);
        case Offset(n) => l := l.(offset := n);
        case Width(n) => l := l.(sigBw := n);
        case Days(d) => dow := DayBits(d);
        case BeginAt(t) => l := l.(begin := t);
        case EndAt(t) => l := l.(end := t);
        case Params(p) => l := l.(params := p);
      }
      i := i + 1;
    }
    assert e.opts[..i] == e.opts;
    l := l.(flags := Join(l.flags, dow));
    if l.begin == 0 && l.end == 0 { l := l.(end := DAY); }
  }

  // ---- the round trip ----------------------------------------------------------------------------------------------------

  /** A slot of a fresh list: everything is zero. */
  const ZERO := Label(0.0, 0, 0, 0, "", "", "", 0, 0, 0, 0, 0)

  lemma {:induction false} StepsAppend(s: Loading, a: seq<Field>, b: seq<Field>)
    ensures Steps(s, a + b) == Steps(Steps(s, a), b)
  {
    if |b| == 0 {
      assert a + b == a;
    } else {
      assert (a + b)[..|a + b| - 1] == a + b[..|b| - 1];
      StepsAppend(s, a, b[..|b| - 1]);
    }
  }

  function StepIf(s: Loading, b: bool, f: Field): Loading { if b then Step(s, f) else s }

  lemma StepsIf(s: Loading, a: seq<Field>, b: bool, f: Field)
    ensures Steps(s, a + If(b, f)) == StepIf(Steps(s, a), b, f)
  {
    hide Step;
    StepsAppend(s, a, If(b, f));
    if b { assert [f][..0] == []; }
  }

  function NumberSteps(s: Loading, l: Label): Loading {
    var s1 := StepIf(s, TypeOf(l.flags) != 0, TypeNo(TypeOf(l.flags)));
    var s2 := StepIf(s1, l.low != 0, Lo(l.low));
    var s3 := StepIf(s2, l.high != 0, Hi(l.high));
    var s4 := StepIf(s3, l.offset != 0, Offset(l.offset));
    StepIf(s4, l.sigBw != 0, Width(l.sigBw))
  }

  function AllSteps(s: Loading, l: Label): Loading {
    var s5 := NumberSteps(s, l);
    var s6 := StepIf(s5, SomeDays(l.flags), Days(DaysOf(l.flags)));
    var s7 := StepIf(s6, SomeTimes(l), BeginAt(l.begin));
    var s8 := StepIf(s7, SomeTimes(l), EndAt(if l.begin == 0 && l.end == DAY then 0 else l.end));
    StepIf(s8, l.params != "", Params(l.params))
  }

  lemma StepsNumbers(s: Loading, l: Label)
    ensures Steps(s, Numbers(l)) == NumberSteps(s, l)
  {
    hide If, StepIf, Step, Steps, TypeOf;
    var a1 := [] + If(TypeOf(l.flags) != 0, TypeNo(TypeOf(l.flags)));
    var a2 := a1 + If(l.low != 0, Lo(l.low));
    var a3 := a2 + If(l.high != 0, Hi(l.high));
    var a4 := a3 + If(l.offset != 0, Offset(l.offset));
    StepsNone(s);
    StepsIf(s, [], TypeOf(l.flags) != 0, TypeNo(TypeOf(l.flags)));
    StepsIf(s, a1, l.low != 0, Lo(l.low));
    StepsIf(s, a2, l.high != 0, Hi(l.high));
    StepsIf(s, a3, l.offset != 0, Offset(l.offset));
    StepsIf(s, a4, l.sigBw != 0, Width(l.sigBw));
  }

  lemma StepsOptions(s: Loading, l: Label)
    ensures Steps(s, Options(l)) == AllSteps(s, l)
  {
    hide If, StepIf, Step, Steps, Numbers, NumberSteps, SomeTimes, SomeDays, TypeOf, DaysOf;
    var a5 := Numbers(l);
    var a6 := a5 + If(SomeDays(l.flags), Days(DaysOf(l.flags)));
    var a7 := a6 + If(SomeTimes(l), BeginAt(l.begin));
    var a8 := a7 + If(SomeTimes(l), EndAt(if l.begin == 0 && l.end == DAY then 0 else l.end));
    StepsNumbers(s, l);
    StepsIf(s, a5, SomeDays(l.flags), Days(DaysOf(l.flags)));
    StepsIf(s, a6, SomeTimes(l), BeginAt(l.begin));
    StepsIf(s, a7, SomeTimes(l), EndAt(if l.begin == 0 && l.end == DAY then 0 else l.end));
    StepsIf(s, a8, l.params != "", Params(l.params));
  }

  lemma StepsNone(s: Loading)
    ensures Steps(s, []) == s
  {
  }

  /** Days, with none meaning all. */
  function DaySet(flags: bv32): bv32 { if flags & DOW == 0 then DOW else flags & DOW }

  function EndTime(l: Label): nat { if l.begin == 0 && l.end == 0 then DAY else l.end }

  /** What reloading should give back: everything, the frequency to two decimals, no days meaning all of them and
      no times meaning the whole day. */
  predicate Restored(l: Label, r: Label) {
    && r.freq == Round2(l.freq)
    && DecodeMode(r.flags) == DecodeMode(l.flags) && r.flags & TYPE == l.flags & TYPE
    && DaySet(r.flags) == DaySet(l.flags)
    && r.begin == l.begin && EndTime(r) == EndTime(l)
    && r.low == l.low && r.high == l.high && r.offset == l.offset && r.sigBw == l.sigBw
    && r.ident == l.ident && r.notes == l.notes && r.params == l.params
  }

  /** Something makes an options object be written, or width, days and times are the usual ones. */
  predicate Keeps(l: Label) {
    HasOptions(l) || (l.sigBw == 0 && !SomeDays(l.flags) && !SomeTimes(l))
  }

  predicate Clean(slot: Label) {
    slot.low == 0 && slot.high == 0 && slot.offset == 0 && slot.sigBw == 0
    && slot.begin == 0 && slot.end == 0 && slot.params == ""
  }

  /** The label that loading what was saved gives. */
  function Reloaded(slot: Label, l: Label): Label {
    var some := HasOptions(l);
    var dow := if some && SomeDays(l.flags) then DayBits(DaysOf(l.flags)) else DOW;
    var ty := if TypeOf(l.flags) != 0 then TypeBits(TypeOf(l.flags)) else 0;
    var end := if some && SomeTimes(l) then l.end else DAY;
    Label(Round2(l.freq), if some then l.begin else 0, end, Join(Join(EncodeMode(DecodeMode(l.flags)), ty), dow),
          l.ident, l.notes, l.params, l.low, l.high, l.offset, if some then l.sigBw else 0, slot.idx)
  }

  lemma NumbersSet(s: Loading, n: int)
    ensures s.l.low == 0 ==> StepIf(s, n != 0, Lo(n)) == s.(l := s.l.(low := n))
    ensures s.l.high == 0 ==> StepIf(s, n != 0, Hi(n)) == s.(l := s.l.(high := n))
    ensures s.l.offset == 0 ==> StepIf(s, n != 0, Offset(n)) == s.(l := s.l.(offset := n))
    ensures s.l.sigBw == 0 ==> StepIf(s, n != 0, Width(n)) == s.(l := s.l.(sigBw := n))
  {
  }

  lemma OthersSet(s: Loading, l: Label)
    ensures StepIf(s, TypeOf(l.flags) != 0, TypeNo(TypeOf(l.flags))) ==
            s.(l := s.l.(flags := Join(s.l.flags, if TypeOf(l.flags) != 0 then TypeBits(TypeOf(l.flags)) else 0)))
    ensures s.dow == DOW ==>
      StepIf(s, SomeDays(l.flags), Days(DaysOf(l.flags))) ==
      s.(dow := if SomeDays(l.flags) then DayBits(DaysOf(l.flags)) else DOW)
    ensures s.l.params == "" ==> StepIf(s, l.params != "", Params(l.params)) == s.(l := s.l.(params := l.params))
  {
    hide TypeOf, TypeBits, DayBits, DaysOf, SomeDays, Join;
    JoinNone(s.l.flags);
  }

  lemma TimesSet(s: Loading, l: Label)
    requires s.l.begin == 0 && s.l.end == 0
    ensures var e := if l.begin == 0 && l.end == DAY then 0 else l.end;
      StepIf(StepIf(s, SomeTimes(l), BeginAt(l.begin)), SomeTimes(l), EndAt(e)) == s.(l := s.l.(begin := l.begin, end := e))
  {
  }

  /** All options together set all fields. */
  lemma AllSet(s: Loading, l: Label)
    requires Clean(s.l) && s.dow == DOW
    ensures AllSteps(s, l) ==
      Loading(s.l.(flags := Join(s.l.flags, if TypeOf(l.flags) != 0 then TypeBits(TypeOf(l.flags)) else 0),
                   low := l.low, high := l.high, offset := l.offset, sigBw := l.sigBw, begin := l.begin,
                   end := if l.begin == 0 && l.end == DAY then 0 else l.end, params := l.params),
              if SomeDays(l.flags) then DayBits(DaysOf(l.flags)) else DOW)
  {
    hide StepIf, TypeOf, TypeBits, DayBits, DaysOf, SomeDays, SomeTimes, Join;
    OthersSet(s, l);
    var s1 := StepIf(s, TypeOf(l.flags) != 0, TypeNo(TypeOf(l.flags)));
    NumbersSet(s1, l.low);
    var s2 := s1.(l := s1.l.(low := l.low));
    NumbersSet(s2, l.high);
    var s3 := s2.(l := s2.l.(high := l.high));
    NumbersSet(s3, l.offset);
    var s4 := s3.(l := s3.l.(offset := l.offset));
    NumbersSet(s4, l.sigBw);
    var s5 := s4.(l := s4.l.(sigBw := l.sigBw));
    OthersSet(s5, l);
    var s6 := StepIf(s5, SomeDays(l.flags), Days(DaysOf(l.flags)));
    TimesSet(s6, l);
    var s8 := s6.(l := s6.l.(begin := l.begin, end := if l.begin == 0 && l.end == DAY then 0 else l.end));
    OthersSet(s8, l);
  }

  lemma LoadedSaved(slot: Label, l: Label)
    requires Clean(slot)
    ensures Loaded(slot, Saved(l)) == Reloaded(slot, l)
  {
    hide Options, Steps, AllSteps, EncodeMode, DecodeMode, SomeDays, TypeOf, TypeBits, DayBits, DaysOf, Round2, Join;
    JoinNone(EncodeMode(DecodeMode(l.flags)));
    var s := Started(slot, Saved(l));
    if HasOptions(l) {
      StepsOptions(s, l);
      AllSet(s, l);
    } else {
      StepsNone(s);
    }
  }

  lemma JoinNone(a: bv32)
    ensures Join(a, 0) == a
  {
  }

  /** Saving a label and loading it back restores it, exactly when an options object is written or there is nothing
      in it to lose. */
  lemma ReloadExact(slot: Label, l: Label)
    requires Clean(slot)
    ensures Loaded(slot, Saved(l)) == Reloaded(slot, l)
    ensures Restored(l, Loaded(slot, Saved(l))) <==> Keeps(l)
  {
    hide Loaded, Saved, EncodeMode, DecodeMode, TypeBits, DayBits, DaysOf, Round2, TypeOf, SomeDays;
    LoadedSaved(slot, l);
    FlagsKept(l.flags, HasOptions(l));
  }

  /** The reloaded flags have the same mode and type; the days are the same set exactly when they were written or all. */
  lemma FlagsKept(flags: bv32, some: bool)
    ensures var dow := if some && SomeDays(flags) then DayBits(DaysOf(flags)) else DOW;
      var ty := if TypeOf(flags) != 0 then TypeBits(TypeOf(flags)) else 0;
      var r := Join(Join(EncodeMode(DecodeMode(flags)), ty), dow);
      && DecodeMode(r) == DecodeMode(flags) && r & TYPE == flags & TYPE
      && (DaySet(r) == DaySet(flags) <==> (some || !SomeDays(flags)))
  {
  }

  /** A label with a signal width and nothing else comes back without it. */
  lemma WidthLost()
    ensures var l := ZERO.(freq := 7000.0, ident := "x", sigBw := 500);
      !Keeps(l) && Loaded(ZERO, Saved(l)).sigBw == 0
  {
    hide Loaded, Saved, EncodeMode, DecodeMode, TypeBits, DayBits, DaysOf, Round2, Join;
    LoadedSaved(ZERO, ZERO.(freq := 7000.0, ident := "x", sigBw := 500));
  }
}
