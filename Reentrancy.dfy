/**
 * The touch handler starts a transition on every hot-zone press, even while
 * an animation is still running. Animators that overlap each deliver their
 * own completion, and the completion handler never clears `isEditable`, so
 * the field can come back to the closed search icon while still accepting
 * input. Ignoring hot-zone presses while an animator runs or its completion
 * message still waits rules this out; since the machine handles an animator's
 * end in the same step, the guard below tests the running animators only.
 */
module Reentrancy {
  import opened Animators
  import opened Machine
  import opened Phases

  /** Every completion is for an animator that is actually running; presses
      may come at any time. */
  predicate CompletesOnlyRunning(v: View, evs: seq<Event>)
    decreases |evs|
  {
    evs == [] ||
    ((evs[0].End? ==> evs[0].finished in v.running) && CompletesOnlyRunning(Step(v, evs[0]), evs[1..]))
  }

  /** Open the field, then press again during the fade in, and let every
      animator run to its end. */
  function OverlappingPress(x: real, right: int, padL: int, padR: int): seq<Event> {
    [Press(x, right, padL, padR), End(Open), Press(x, right, padL, padR),
     End(Visible), End(Visible), End(Open), End(Close)]
  }

  /** As written: after that sequence the field shows the closed search icon
      with nothing animating, yet is editable. */
  lemma OverlappingPressLeavesClosedFieldEditable(x: real, right: int, padL: int, padR: int)
    requires InHotZone(x, right, padL, padR)
    ensures CompletesOnlyRunning(Initial(), OverlappingPress(x, right, padL, padR))
    ensures Run(Initial(), OverlappingPress(x, right, padL, padR)) == View(Normal, false, true, {}, true)
  {
    var p := Press(x, right, padL, padR);
    var t0 := OverlappingPress(x, right, padL, padR);
    var t1 := [End(Open), p, End(Visible), End(Visible), End(Open), End(Close)];
    var t2 := [p, End(Visible), End(Visible), End(Open), End(Close)];
    var t3 := [End(Visible), End(Visible), End(Open), End(Close)];
    var t4 := [End(Visible), End(Open), End(Close)];
    var t5 := [End(Open), End(Close)];
    var t6 := [End(Close)];
    assert t0[1..] == t1 && t1[1..] == t2 && t2[1..] == t3;
    assert t3[1..] == t4 && t4[1..] == t5 && t5[1..] == t6;
    var s0 := Initial();
    var s1 := View(OpenOrClose, false, false, {Open}, false);
    var s2 := View(Cancelable, false, false, {Visible}, false);
    var s3 := View(OpenOrClose, false, false, {Open, Visible}, false);
    var s4 := View(Cancelable, false, false, {Open, Visible}, false);
    var s5 := View(Cancelable, true, true, {Open}, false);
    var s6 := View(OpenOrClose, true, true, {Close}, true);
    var s7 := View(Normal, false, true, {}, true);
    assert Step(s0, p) == s1 && Step(s1, End(Open)) == s2 && Step(s2, p) == s3;
    assert Step(s3, End(Visible)) == s4 && Step(s4, End(Visible)) == s5;
    assert Step(s5, End(Open)) == s6 && Step(s6, End(Close)) == s7;
    assert CompletesOnlyRunning(s6, t6);
    assert CompletesOnlyRunning(s5, t5);
    assert CompletesOnlyRunning(s4, t4);
    assert CompletesOnlyRunning(s3, t3);
    assert CompletesOnlyRunning(s2, t2);
    assert CompletesOnlyRunning(s1, t1);
    assert Run(s6, t6) == s7;
    assert Run(s5, t5) == s7;
    assert Run(s4, t4) == s7;
    assert Run(s3, t3) == s7;
    assert Run(s2, t2) == s7;
    assert Run(s1, t1) == s7;
  }

  /** Corrected: a hot-zone press while any animator runs, or, in the source,
      while a completion message waits, is ignored. */
  function GuardedTouchStep(v: View, action: int, x: real, right: int, padL: int, padR: int): (w: View)
    ensures v.running != {} ==> w.running == v.running && w.isEditable == v.isEditable && w.state == v.state
    ensures v.running == {} ==> w == TouchStep(v, action, x, right, padL, padR)
  {
    if HotTap(action, x, right, padL, padR) && v.running != {} then v
    else TouchStep(v, action, x, right, padL, padR)
  }

  function GuardedStep(v: View, e: Event): View {
    match e
    case Tap(action, x, right, padL, padR) => GuardedTouchStep(v, action, x, right, padL, padR)
    case End(a) => CompleteStep(v, a)
  }

  function GuardedRun(v: View, evs: seq<Event>): View
    decreases |evs|
  {
    if evs == [] then v else GuardedRun(GuardedStep(v, evs[0]), evs[1..])
  }

  predicate GuardedCompletesOnlyRunning(v: View, evs: seq<Event>)
    decreases |evs|
  {
    evs == [] ||
    ((evs[0].End? ==> evs[0].finished in v.running) && GuardedCompletesOnlyRunning(GuardedStep(v, evs[0]), evs[1..]))
  }

  /** With the guard, every run whose completions are for running animators
      stays within the six phases of the life cycle. */
  lemma {:induction false} GuardedRunStaysInPhases(p: Phase, cleared: bool, evs: seq<Event>)
    requires GuardedCompletesOnlyRunning(ViewOf(p, cleared), evs)
    ensures exists q: Phase :: GuardedRun(ViewOf(p, cleared), evs) == ViewOf(q, GuardedRun(ViewOf(p, cleared), evs).textCleared)
    decreases |evs|
  {
    var v := ViewOf(p, cleared);
    if evs == [] {
      assert GuardedRun(v, evs) == ViewOf(p, cleared);
    } else {
      var e := evs[0];
      if e.Tap? && HotTap(e.action, e.x, e.right, e.padL, e.padR) && v.running != {} {
        assert GuardedStep(v, e) == v;
        assert GuardedRun(v, evs) == GuardedRun(v, evs[1..]);
        GuardedRunStaysInPhases(p, cleared, evs[1..]);
      } else {
        assert Waits(v, e);
        assert GuardedStep(v, e) == Step(v, e);
        StepRefinesPhase(p, cleared, e);
        assert GuardedRun(v, evs) == GuardedRun(Step(v, e), evs[1..]);
        GuardedRunStaysInPhases(PhaseNext(p, e), cleared || (p == ClosingFade && e.End?), evs[1..]);
      }
    }
  }

  /** Corrected: with the guard, the field is editable only while it is open,
      however the presses and completions interleave. */
  lemma GuardedEditableImpliesOpen(evs: seq<Event>)
    requires GuardedCompletesOnlyRunning(Initial(), evs)
    ensures var w := GuardedRun(Initial(), evs);
      w.isEditable ==> w.isOpen && w.state == Cancelable && w.running == {}
  {
    assert Initial() == ViewOf(Closed, false);
    GuardedRunStaysInPhases(Closed, false, evs);
    var w := GuardedRun(Initial(), evs);
    var q: Phase :| w == ViewOf(q, w.textCleared);
    EditableOnlyWhenSettledOpen(q, w.textCleared);
  }

  /** On a patient run the guard never fires: the guarded handler makes the
      same steps as the code as written. */
  lemma {:induction false} GuardAgreesOnPatientRuns(v: View, evs: seq<Event>)
    requires Patient(v, evs)
    ensures GuardedRun(v, evs) == Run(v, evs)
    decreases |evs|
  {
    if evs != [] {
      assert GuardedStep(v, evs[0]) == Step(v, evs[0]);
      GuardAgreesOnPatientRuns(Step(v, evs[0]), evs[1..]);
    }
  }

  /** The guarded handler still opens and closes the field: the full cycle
      returns it to the initial state with the text cleared. */
  lemma GuardedRoundTrip(x: real, right: int, padL: int, padR: int)
    requires InHotZone(x, right, padL, padR)
    ensures GuardedRun(Initial(), OpenCloseCycle(x, right, padL, padR)) == Initial().(textCleared := true)
  {
    RoundTripIsPatient(x, right, padL, padR);
    GuardAgreesOnPatientRuns(Initial(), OpenCloseCycle(x, right, padL, padR));
    RoundTrip(x, right, padL, padR);
  }
}
