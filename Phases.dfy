/**
 * A reference description of the widget's life cycle as one tagged state,
 * and its link to the machine: as long as hot-zone presses wait until no
 * animator is running and no completion message is waiting to be handled,
 * the three flags and the running animators always agree with one of six
 * phases, and the field is editable only while it is fully open. The
 * machine ends an animator and handles its message in one step, so there
 * "nothing running" already means "no message waiting".
 */
module Phases {
  import opened Animators
  import opened Machine

  datatype Phase = Closed | OpeningSweep | OpeningFade | OpenEditable | ClosingFade | ClosingSweep

  /** The machine state every phase stands for. */
  function ViewOf(p: Phase, cleared: bool): View {
    match p
    case Closed => View(Normal, false, false, {}, cleared)
    case OpeningSweep => View(OpenOrClose, false, false, {Open}, cleared)
    case OpeningFade => View(Cancelable, false, false, {Visible}, cleared)
    case OpenEditable => View(Cancelable, true, true, {}, cleared)
    case ClosingFade => View(Cancelable, true, false, {InVisible}, cleared)
    case ClosingSweep => View(OpenOrClose, true, false, {Close}, cleared)
  }

  /** The life cycle on its own: a hot-zone press toggles a settled phase,
      and each phase waits for the end of its own animator. */
  function PhaseNext(p: Phase, e: Event): Phase {
    match e
    case Tap(action, x, right, padL, padR) =>
      if !HotTap(action, x, right, padL, padR) then p
      else if p == Closed then OpeningSweep
      else if p == OpenEditable then ClosingFade
      else p
    case End(a) =>
      match p
      case OpeningSweep => if a == Open then OpeningFade else p
      case OpeningFade => if a == Visible then OpenEditable else p
      case ClosingFade => if a == InVisible then ClosingSweep else p
      case ClosingSweep => if a == Close then Closed else p
      case _ => p
  }

  function PhaseRun(p: Phase, evs: seq<Event>): Phase
    decreases |evs|
  {
    if evs == [] then p else PhaseRun(PhaseNext(p, evs[0]), evs[1..])
  }

  /** A patient user: presses in the hot zone only while no animator runs and
      no completion message waits (one condition here, since an animator's end
      is handled in the same step), and an animator ends only while it runs. */
  predicate Waits(v: View, e: Event) {
    match e
    case Tap(action, x, right, padL, padR) => !HotTap(action, x, right, padL, padR) || v.running == {}
    case End(a) => a in v.running
  }

  predicate Patient(v: View, evs: seq<Event>)
    decreases |evs|
  {
    evs == [] || (Waits(v, evs[0]) && Patient(Step(v, evs[0]), evs[1..]))
  }

  /** The machine refines the life cycle one event at a time; the text is
      cleared exactly when the fade out ends. */
  lemma StepRefinesPhase(p: Phase, cleared: bool, e: Event)
    requires Waits(ViewOf(p, cleared), e)
    ensures Step(ViewOf(p, cleared), e) == ViewOf(PhaseNext(p, e), cleared || (p == ClosingFade && e.End?))
  {
  }

  /** ... and over every patient run. */
  lemma {:induction false} PatientRunRefinesPhase(p: Phase, cleared: bool, evs: seq<Event>)
    requires Patient(ViewOf(p, cleared), evs)
    ensures var w := Run(ViewOf(p, cleared), evs);
      w == ViewOf(PhaseRun(p, evs), w.textCleared)
    decreases |evs|
  {
    if evs != [] {
      var e := evs[0];
      var c' := cleared || (p == ClosingFade && e.End?);
      StepRefinesPhase(p, cleared, e);
      PatientRunRefinesPhase(PhaseNext(p, e), c', evs[1..]);
    }
  }

  /** In every phase the field is editable only when it is open, showing the
      cross, with nothing animating. */
  lemma EditableOnlyWhenSettledOpen(p: Phase, cleared: bool)
    ensures var v := ViewOf(p, cleared);
      v.isEditable ==> v.isOpen && v.state == Cancelable && v.running == {}
    ensures ViewOf(p, cleared).isEditable <==> p == OpenEditable
  {
  }

  /** For a patient user, the field never accepts input unless it is open. */
  lemma PatientEditableImpliesOpen(evs: seq<Event>)
    requires Patient(Initial(), evs)
    ensures var w := Run(Initial(), evs);
      w.isEditable ==> w.isOpen && w.state == Cancelable && w.running == {}
  {
    assert Initial() == ViewOf(Closed, false);
    PatientRunRefinesPhase(Closed, false, evs);
    var w := Run(Initial(), evs);
    EditableOnlyWhenSettledOpen(PhaseRun(Closed, evs), w.textCleared);
  }

  /** For a patient user, at most one animator runs at any time. */
  lemma PatientAtMostOneAnimator(evs: seq<Event>)
    requires Patient(Initial(), evs)
    ensures |Run(Initial(), evs).running| <= 1
  {
    assert Initial() == ViewOf(Closed, false);
    PatientRunRefinesPhase(Closed, false, evs);
  }

  /** The open and close cycle is a patient run: each press comes while
      nothing animates, and each completion is for the running animator. */
  lemma RoundTripIsPatient(x: real, right: int, padL: int, padR: int)
    requires InHotZone(x, right, padL, padR)
    ensures Patient(Initial(), OpenCloseCycle(x, right, padL, padR))
  {
    var p := Press(x, right, padL, padR);
    var t0 := OpenCloseCycle(x, right, padL, padR);
    var t1 := [End(Open), End(Visible), p, End(InVisible), End(Close)];
    var t2 := [End(Visible), p, End(InVisible), End(Close)];
    var t3 := [p, End(InVisible), End(Close)];
    var t4 := [End(InVisible), End(Close)];
    var t5 := [End(Close)];
    assert t0[1..] == t1 && t1[1..] == t2 && t2[1..] == t3;
    assert t3[1..] == t4 && t4[1..] == t5;
    var s1 := ViewOf(OpeningSweep, false);
    var s2 := ViewOf(OpeningFade, false);
    var s3 := ViewOf(OpenEditable, false);
    var s4 := ViewOf(ClosingFade, false);
    var s5 := ViewOf(ClosingSweep, true);
    assert Step(Initial(), p) == s1 && Step(s1, End(Open)) == s2;
    assert Step(s2, End(Visible)) == s3 && Step(s3, p) == s4;
    assert Step(s4, End(InVisible)) == s5;
    assert Patient(s5, t5);
    assert Patient(s4, t4);
    assert Patient(s3, t3);
    assert Patient(s2, t2);
    assert Patient(s1, t1);
  }
}
