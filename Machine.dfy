/**
 * The discrete state of the animated edit text as one value, and the two
 * event handlers that change it as functions on that value: a touch event,
 * and the deferred "an animation finished" message.
 */
module Machine {
  import opened Animators

  /** Which part of the glyph the widget draws. */
  datatype MorphState = Normal | OpenOrClose | Cancelable

  /** Everything the two handlers read or write. `running` holds the animators
      started and not yet ended; `textCleared` records that the text has been
      set to null. */
  datatype View = View(state: MorphState, isOpen: bool, isEditable: bool,
                       running: set<Animator>, textCleared: bool)

  /** The state a freshly built widget is in. */
  function Initial(): (v: View)
    ensures v.state == Normal && !v.isOpen && !v.isEditable
    ensures v.running == {} && !v.textCleared
  {
    View(Normal, false, false, {}, false)
  }

  /** MotionEvent's code for a first finger going down. */
  const ACTION_DOWN: int := 0
  /** The hot zone reaches this far left of the padded right edge. */
  const HOT_ZONE_MARGIN: int := 24

  /** Whether a touch at `x` falls in the hot zone: a band at the right edge,
      24 plus both horizontal paddings wide. */
  function InHotZone(x: real, right: int, padL: int, padR: int): (hit: bool)
    ensures hit <==> right as real - x < (HOT_ZONE_MARGIN + padL + padR) as real
  {
    x > (right - HOT_ZONE_MARGIN - padR - padL) as real
  }

  /** The only touch that changes anything: a first finger going down inside
      the hot zone. */
  function HotTap(action: int, x: real, right: int, padL: int, padR: int): (hit: bool)
    ensures hit ==> action == ACTION_DOWN
    ensures action == ACTION_DOWN ==> (hit <==> InHotZone(x, right, padL, padR))
  {
    action == ACTION_DOWN && InHotZone(x, right, padL, padR)
  }

  /** The state after the touch handler has seen one event. */
  function TouchStep(v: View, action: int, x: real, right: int, padL: int, padR: int): (w: View)
    ensures w.isOpen == v.isOpen && w.textCleared == v.textCleared
    ensures v.running <= w.running
    ensures w.isEditable ==> v.isEditable
  {
    if !HotTap(action, x, right, padL, padR) then v
    else if !v.isOpen then v.(state := OpenOrClose, running := v.running + {Open})
    else v.(isEditable := false, running := v.running + {InVisible})
  }

  /** What the touch handler reports, given the state after the event and what
      the underlying editor would answer; the editor is asked only when the
      field is editable. */
  function Consumed(w: View, editorConsumes: bool): (c: bool)
    ensures !w.isEditable ==> c
    ensures w.isEditable ==> c == editorConsumes
  {
    !w.isEditable || editorConsumes
  }

  /** The state after animator `finished` ended and the completion message was
      handled. The handler looks at the state and `isOpen` only. */
  function CompleteStep(v: View, finished: Animator): (w: View)
    ensures w.running - {Visible, Close} <= v.running - {finished}
    ensures v.isEditable ==> w.isEditable
    ensures w.isEditable && !v.isEditable ==> v.state == Cancelable && !v.isOpen && w.isOpen
    ensures w.textCleared && !v.textCleared ==> w.state == OpenOrClose && Close in w.running
  {
    var u := v.(running := v.running - {finished});
    match u.state
    case OpenOrClose =>
      if !u.isOpen then u.(state := Cancelable, running := u.running + {Visible})
      else u.(state := Normal, isOpen := false)
    case Cancelable =>
      if !u.isOpen then u.(isOpen := true, isEditable := true)
      else u.(textCleared := true, state := OpenOrClose, running := u.running + {Close})
    case Normal => u
  }

  /** An input to the machine: a touch event, or the end of one animator. */
  datatype Event =
    | Tap(action: int, x: real, right: int, padL: int, padR: int)
    | End(finished: Animator)

  function Step(v: View, e: Event): View {
    match e
    case Tap(action, x, right, padL, padR) => TouchStep(v, action, x, right, padL, padR)
    case End(a) => CompleteStep(v, a)
  }

  /** The state after the events `evs`, in order. */
  function Run(v: View, evs: seq<Event>): View
    decreases |evs|
  {
    if evs == [] then v else Run(Step(v, evs[0]), evs[1..])
  }

  lemma {:induction false} RunAppend(v: View, a: seq<Event>, b: seq<Event>)
    ensures Run(v, a + b) == Run(Run(v, a), b)
    decreases |a|
  {
    if a == [] {
      assert a + b == b;
    } else {
      assert (a + b)[0] == a[0];
      assert (a + b)[1..] == a[1..] + b;
      RunAppend(Step(v, a[0]), a[1..], b);
    }
  }

  // ---- the touch handler, case by case ----

  /** A press in the hot zone of a closed field starts the open sweep. */
  lemma TouchOpensWhenClosed(v: View, action: int, x: real, right: int, padL: int, padR: int)
    requires HotTap(action, x, right, padL, padR) && !v.isOpen
    ensures var w := TouchStep(v, action, x, right, padL, padR);
      w.state == OpenOrClose && w.running == v.running + {Open}
      && w.isOpen == v.isOpen && w.isEditable == v.isEditable && w.textCleared == v.textCleared
  {
  }

  /** A press in the hot zone of an open field locks the editor and starts the fade out. */
  lemma TouchFadesWhenOpen(v: View, action: int, x: real, right: int, padL: int, padR: int)
    requires HotTap(action, x, right, padL, padR) && v.isOpen
    ensures var w := TouchStep(v, action, x, right, padL, padR);
      !w.isEditable && w.running == v.running + {InVisible}
      && w.state == v.state && w.isOpen == v.isOpen && w.textCleared == v.textCleared
  {
  }

  /** Every other touch leaves the state alone. */
  lemma TouchElsewhereIgnored(v: View, action: int, x: real, right: int, padL: int, padR: int)
    requires !HotTap(action, x, right, padL, padR)
    ensures TouchStep(v, action, x, right, padL, padR) == v
  {
  }

  /** A field that was not editable swallows every touch, whatever the editor says. */
  lemma TouchConsumedUnlessEditable(v: View, action: int, x: real, right: int, padL: int, padR: int, editorConsumes: bool)
    requires !v.isEditable
    ensures Consumed(TouchStep(v, action, x, right, padL, padR), editorConsumes)
  {
  }

  /** A press in the hot zone of an editable field is consumed and not passed on. */
  lemma HotTapOnOpenFieldNotForwarded(v: View, action: int, x: real, right: int, padL: int, padR: int, editorConsumes: bool)
    requires HotTap(action, x, right, padL, padR) && v.isOpen
    ensures !TouchStep(v, action, x, right, padL, padR).isEditable
    ensures Consumed(TouchStep(v, action, x, right, padL, padR), editorConsumes)
  {
  }

  // ---- the completion message, case by case ----

  /** The end of the open sweep starts the fade in of the cross. */
  lemma CompleteOpeningSweep(v: View, a: Animator)
    requires v.state == OpenOrClose && !v.isOpen
    ensures var w := CompleteStep(v, a);
      w.state == Cancelable && w.running == (v.running - {a}) + {Visible}
      && !w.isOpen && w.isEditable == v.isEditable && w.textCleared == v.textCleared
  {
  }

  /** The end of the close sweep returns the field to the search icon. */
  lemma CompleteClosingSweep(v: View, a: Animator)
    requires v.state == OpenOrClose && v.isOpen
    ensures var w := CompleteStep(v, a);
      w.state == Normal && !w.isOpen && w.running == v.running - {a}
      && w.isEditable == v.isEditable && w.textCleared == v.textCleared
  {
  }

  /** The end of the fade in opens the field for editing. */
  lemma CompleteFadeIn(v: View, a: Animator)
    requires v.state == Cancelable && !v.isOpen
    ensures var w := CompleteStep(v, a);
      w.state == Cancelable && w.isOpen && w.isEditable
      && w.running == v.running - {a} && w.textCleared == v.textCleared
  {
  }

  /** The end of the fade out clears the text and starts the close sweep. */
  lemma CompleteFadeOut(v: View, a: Animator)
    requires v.state == Cancelable && v.isOpen
    ensures var w := CompleteStep(v, a);
      w.state == OpenOrClose && w.textCleared && w.isOpen
      && w.isEditable == v.isEditable && w.running == (v.running - {a}) + {Close}
  {
  }

  /** A completion that finds the field in Normal does nothing beyond the
      animator having stopped. */
  lemma CompleteInNormal(v: View, a: Animator)
    requires v.state == Normal
    ensures CompleteStep(v, a) == v.(running := v.running - {a})
  {
  }

  // ---- the full open and close cycle ----

  /** A press in the hot zone. */
  function Press(x: real, right: int, padL: int, padR: int): Event {
    Tap(ACTION_DOWN, x, right, padL, padR)
  }

  /** Tap, let both opening animations finish, tap again, let both closing
      animations finish. */
  function OpenCloseCycle(x: real, right: int, padL: int, padR: int): seq<Event> {
    [Press(x, right, padL, padR), End(Open), End(Visible),
     Press(x, right, padL, padR), End(InVisible), End(Close)]
  }

  /** The open half of the cycle leaves the field open and editable. */
  lemma OpenHalf(v: View, x: real, right: int, padL: int, padR: int)
    requires v == Initial() && InHotZone(x, right, padL, padR)
    ensures Run(v, [Press(x, right, padL, padR), End(Open), End(Visible)])
         == View(Cancelable, true, true, {}, false)
  {
    var evs := [Press(x, right, padL, padR), End(Open), End(Visible)];
    var s1 := Step(v, evs[0]);
    assert s1 == View(OpenOrClose, false, false, {Open}, false);
    var s2 := Step(s1, End(Open));
    assert s2 == View(Cancelable, false, false, {Visible}, false);
    assert evs[1..][1..] == [End(Visible)];
    assert Run(v, evs) == Run(s2, [End(Visible)]);
  }

  /** The close half of the cycle puts the field back where it started, with
      the text cleared. */
  lemma CloseHalf(v: View, x: real, right: int, padL: int, padR: int)
    requires v == View(Cancelable, true, true, {}, false) && InHotZone(x, right, padL, padR)
    ensures Run(v, [Press(x, right, padL, padR), End(InVisible), End(Close)])
         == Initial().(textCleared := true)
  {
    var evs := [Press(x, right, padL, padR), End(InVisible), End(Close)];
    var s1 := Step(v, evs[0]);
    assert s1 == View(Cancelable, true, false, {InVisible}, false);
    var s2 := Step(s1, End(InVisible));
    assert s2 == View(OpenOrClose, true, false, {Close}, true);
    assert evs[1..][1..] == [End(Close)];
    assert Run(v, evs) == Run(s2, [End(Close)]);
  }

  /** Opening and closing the field returns every field of the machine to its
      initial value, except that the text has been cleared once. */
  lemma RoundTrip(x: real, right: int, padL: int, padR: int)
    requires InHotZone(x, right, padL, padR)
    ensures Run(Initial(), OpenCloseCycle(x, right, padL, padR)) == Initial().(textCleared := true)
  {
    var p := Press(x, right, padL, padR);
    assert OpenCloseCycle(x, right, padL, padR)
        == [p, End(Open), End(Visible)] + [p, End(InVisible), End(Close)];
    RunAppend(Initial(), [p, End(Open), End(Visible)], [p, End(InVisible), End(Close)]);
    OpenHalf(Initial(), x, right, padL, padR);
    CloseHalf(View(Cancelable, true, true, {}, false), x, right, padL, padR);
  }
}
