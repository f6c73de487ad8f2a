# AnimatedEditText state machine

A model of the discrete state machine behind `AnimatedEditText`. This Android
text field morphs between a magnifier icon and an underlined edit box with a
cancel cross. Two handlers change the widget's state, and the model covers both:

- the touch handler (`onTouchEvent`). A press in the hot zone at the right edge
  either starts the open sweep or locks the editor and starts the fade out of the
  cross. It then reports whether the event was consumed.
- the completion handler (`CustomHandler.handleMessage`). It runs after an
  animator ends. It looks only at `mCurrentState` and `isOpen`, never at which
  animator ended. It moves the machine on and may start the next animator or
  clear the text.

The source has four independent value animators: Open, Close, Visible and
InVisible. The model keeps the set of animators that have been started and have
not yet ended (`running`). Ending animator `a` removes it from that set and
then runs the completion handler (`Complete(a)`). A restart of a running
animator leaves the set unchanged.

Files:

- `Animators.dfy`: the animators and their table of endpoints and durations.
- `Machine.dfy`: the state as a value (`View`), and the two handlers as
  functions `TouchStep` and `CompleteStep`. Also `Run` over a sequence of
  events, a lemma for each case of each handler, and the full open and close
  round trip.
- `Phases.dfy`: a reference life cycle with six tagged phases: closed, opening
  sweep, opening fade, open and editable, closing fade, closing sweep. The
  machine refines it for a user who presses in the hot zone only while no
  animator runs and no completion message waits to be handled. For such a
  user, the field can be edited only while it is fully open.
- `Widget.dfy`: the widget as a class whose fields the methods update in
  place. Each method is proved to take exactly the step of the matching
  function. The file also has the weakly referencing message handler, and a
  client that opens and closes a new widget.
- `Reentrancy.dfy`: the finding below. It has the counterexample for the code
  as written, and a guarded touch handler with its invariant proved.

A reader might expect two behaviours that the code does not have. The model
follows the code:

- The code has no re-entrancy guard. A second press in the hot zone while an
  animation runs starts another animator (`AnimatedEditText.java:195-202`).
- The end of the fade out is not ignored. The fade out ends in `CANCELABLE` with
  `isOpen` set, so the completion handler clears the text and starts the close
  sweep (`AnimatedEditText.java:242-250`). The press on an open field does not
  itself clear the text or start the close sweep. It only locks the editor and
  starts the fade out.

## Model

| member | source | states |
|---|---|---|
| `Animators.TimingOf` | animatededittext/src/main/java/com/felix/animatededittext/library/AnimatedEditText.java:90-97 | Open and Visible run from 0 to 1, Close and InVisible from 1 to 0. Both fades last 200 ms. Open lasts the duration attribute D, and Close lasts D - 600. |
| `Animators.SweepsAreMirrored` | animatededittext/src/main/java/com/felix/animatededittext/library/AnimatedEditText.java:91-94 | The close sweep runs the open sweep's endpoints in reverse and is 600 ms shorter. |
| `Animators.FadesAreMirrored` | animatededittext/src/main/java/com/felix/animatededittext/library/AnimatedEditText.java:95-96 | The fade out is the fade in reversed, with the same duration. |
| `Machine.Initial` | animatededittext/src/main/java/com/felix/animatededittext/library/AnimatedEditText.java:119-123 | A new widget is NORMAL, closed (the default false of `isOpen`), not editable (the default false of `isEditable`), idle, and its text has not been cleared. |
| `Machine.InHotZone` | animatededittext/src/main/java/com/felix/animatededittext/library/AnimatedEditText.java:195 | A touch is in the hot zone exactly when it lies less than 24 plus both horizontal paddings left of the right edge. |
| `Machine.HotTap` | animatededittext/src/main/java/com/felix/animatededittext/library/AnimatedEditText.java:193-195 | Only an ACTION_DOWN can be a hot press, and an ACTION_DOWN is one exactly when it is in the hot zone. |
| `Machine.Consumed` | animatededittext/src/main/java/com/felix/animatededittext/library/AnimatedEditText.java:205 | A field that is not editable consumes the event. An editable field reports whatever the editor answers. |
| `Machine.TouchStep` | animatededittext/src/main/java/com/felix/animatededittext/library/AnimatedEditText.java:192-206 | A touch never changes `isOpen` or the text, never stops an animator, and never makes the field editable. |
| `Machine.TouchOpensWhenClosed` | animatededittext/src/main/java/com/felix/animatededittext/library/AnimatedEditText.java:194-198 | A hot-zone press on a closed field sets OPEN_OR_CLOSE and starts Open. `isOpen`, `isEditable` and the text stay as they were. |
| `Machine.TouchFadesWhenOpen` | animatededittext/src/main/java/com/felix/animatededittext/library/AnimatedEditText.java:199-202 | A hot-zone press on an open field clears `isEditable` and starts InVisible. The state, `isOpen` and the text stay as they were. |
| `Machine.TouchElsewhereIgnored` | animatededittext/src/main/java/com/felix/animatededittext/library/AnimatedEditText.java:193-204 | A non-DOWN action, or a DOWN at or left of `right - 24 - paddingRight - paddingLeft`, changes nothing. |
| `Machine.TouchConsumedUnlessEditable` | animatededittext/src/main/java/com/felix/animatededittext/library/AnimatedEditText.java:205 | A field that was not editable reports every touch as consumed, whatever the editor would answer. |
| `Machine.HotTapOnOpenFieldNotForwarded` | animatededittext/src/main/java/com/felix/animatededittext/library/AnimatedEditText.java:199-205 | A hot-zone press on an open field leaves it not editable, so the press is consumed and never reaches the editor. |
| `Machine.CompleteStep` | animatededittext/src/main/java/com/felix/animatededittext/library/AnimatedEditText.java:228-255 | A completion stops the ended animator and may start only Visible or Close. It never clears `isEditable`. It sets `isEditable` only when the fade in ends, and that also opens the field. It clears the text only together with starting Close. |
| `Machine.CompleteOpeningSweep` | animatededittext/src/main/java/com/felix/animatededittext/library/AnimatedEditText.java:233-236 | In OPEN_OR_CLOSE with `!isOpen`, the state becomes CANCELABLE and Visible starts. The flags and the text stay as they were. |
| `Machine.CompleteClosingSweep` | animatededittext/src/main/java/com/felix/animatededittext/library/AnimatedEditText.java:237-241 | In OPEN_OR_CLOSE with `isOpen`, the state becomes NORMAL and `isOpen` becomes false. Nothing starts. |
| `Machine.CompleteFadeIn` | animatededittext/src/main/java/com/felix/animatededittext/library/AnimatedEditText.java:242-246 | In CANCELABLE with `!isOpen`, `isOpen` and `isEditable` both become true and the state stays CANCELABLE. |
| `Machine.CompleteFadeOut` | animatededittext/src/main/java/com/felix/animatededittext/library/AnimatedEditText.java:247-251 | In CANCELABLE with `isOpen`, the text is cleared, the state becomes OPEN_OR_CLOSE and Close starts. |
| `Machine.CompleteInNormal` | animatededittext/src/main/java/com/felix/animatededittext/library/AnimatedEditText.java:232-253 | In NORMAL the handler changes nothing except that the ended animator has stopped. |
| `Machine.OpenHalf` | animatededittext/src/main/java/com/felix/animatededittext/library/AnimatedEditText.java:195-246 | From the initial state, a press followed by the ends of Open and Visible leaves the field CANCELABLE, open, editable and idle. |
| `Machine.CloseHalf` | animatededittext/src/main/java/com/felix/animatededittext/library/AnimatedEditText.java:199-252 | From that open state, a press followed by the ends of InVisible and Close gives back the initial state with the text cleared. |
| `Machine.RoundTrip` | animatededittext/src/main/java/com/felix/animatededittext/library/AnimatedEditText.java:195-252 | Press, complete, complete, press, complete, complete ends in NORMAL, closed, not editable, idle, with the text cleared. |
| `Phases.StepRefinesPhase` | animatededittext/src/main/java/com/felix/animatededittext/library/AnimatedEditText.java:192-255 | In every phase, each event a patient user can cause moves the machine to the view of the next phase. The text is cleared exactly when the fade out ends. |
| `Phases.PatientRunRefinesPhase` | animatededittext/src/main/java/com/felix/animatededittext/library/AnimatedEditText.java:192-255 | Over any patient run, the machine's state is the view of the phase the life cycle reaches. |
| `Phases.EditableOnlyWhenSettledOpen` | animatededittext/src/main/java/com/felix/animatededittext/library/AnimatedEditText.java:239-245 | Exactly one phase is editable: open, CANCELABLE, with nothing animating. |
| `Phases.PatientEditableImpliesOpen` | animatededittext/src/main/java/com/felix/animatededittext/library/AnimatedEditText.java:200-245 | Suppose every completion is for a running animator and every hot-zone press waits until nothing animates. Then `isEditable` implies `isOpen`, CANCELABLE and no running animator. |
| `Phases.RoundTripIsPatient` | animatededittext/src/main/java/com/felix/animatededittext/library/AnimatedEditText.java:195-252 | The open and close cycle is a patient run: each press comes while nothing runs, and each completion is for the running animator. |
| `Phases.PatientAtMostOneAnimator` | animatededittext/src/main/java/com/felix/animatededittext/library/AnimatedEditText.java:195-250 | For such a user, at most one animator runs at any time. |
| `Widget.AnimatedEditText.constructor` | animatededittext/src/main/java/com/felix/animatededittext/library/AnimatedEditText.java:119-123 | A new widget is NORMAL, closed, not editable, idle, and its text has not been cleared. |
| `Widget.AnimatedEditText.InitState` | animatededittext/src/main/java/com/felix/animatededittext/library/AnimatedEditText.java:208-210 | The text is cleared, and no other field changes. |
| `Widget.AnimatedEditText.Touch` | animatededittext/src/main/java/com/felix/animatededittext/library/AnimatedEditText.java:192-206 | The fields take the `TouchStep` of the old fields. The editor is asked only when the field is editable afterwards, and the result is `!isEditable` or the editor's answer. |
| `Widget.AnimatedEditText.Complete` | animatededittext/src/main/java/com/felix/animatededittext/library/AnimatedEditText.java:228-255 | The fields take the `CompleteStep` of the old fields for the ended animator. |
| `Widget.CustomHandler.constructor` | animatededittext/src/main/java/com/felix/animatededittext/library/AnimatedEditText.java:223-225 | The handler refers to the widget it was built for. |
| `Widget.CustomHandler.HandleMessage` | animatededittext/src/main/java/com/felix/animatededittext/library/AnimatedEditText.java:228-231 | If the widget still exists, it takes the completion step. If the reference is gone, the message is ignored. |
| `Widget.OpenThenClose` | animatededittext/src/main/java/com/felix/animatededittext/library/AnimatedEditText.java:192-252 | A new widget that is opened and closed by hot-zone presses, with every animation allowed to finish, ends NORMAL, closed, not editable and with its text cleared. Both presses are reported consumed. |
| `Reentrancy.OverlappingPressLeavesClosedFieldEditable` | animatededittext/src/main/java/com/felix/animatededittext/library/AnimatedEditText.java:195-250 | As written: a second press during the fade in, with every completion for a running animator, ends NORMAL, closed, idle and still editable. |
| `Reentrancy.GuardedTouchStep` | animatededittext/src/main/java/com/felix/animatededittext/library/AnimatedEditText.java:192-206 | Corrected touch handler: while an animator runs, a press changes neither the state, the running animators nor `isEditable`. When nothing runs, it behaves exactly like the code's touch handler. |
| `Reentrancy.GuardedRunStaysInPhases` | animatededittext/src/main/java/com/felix/animatededittext/library/AnimatedEditText.java:192-255 | With the guard, every run whose completions are for running animators stays within the six phases. |
| `Reentrancy.GuardAgreesOnPatientRuns` | animatededittext/src/main/java/com/felix/animatededittext/library/AnimatedEditText.java:192-255 | On a patient run the guarded handler makes exactly the steps of the code as written. |
| `Reentrancy.GuardedRoundTrip` | animatededittext/src/main/java/com/felix/animatededittext/library/AnimatedEditText.java:195-252 | With the guard, the open and close cycle still returns the field to its initial state with the text cleared. |
| `Reentrancy.GuardedEditableImpliesOpen` | animatededittext/src/main/java/com/felix/animatededittext/library/AnimatedEditText.java:192-255 | With the guard, `isEditable` implies `isOpen`, CANCELABLE and no running animator, however presses and completions interleave. |

## Findings

| source | as written | input that shows it | evidently intended | confidence | as-written member | corrected member |
|---|---|---|---|---|---|---|
| animatededittext/src/main/java/com/felix/animatededittext/library/AnimatedEditText.java:195-202 | A hot-zone press starts the open sweep even while the fade in still runs. Both animators then post completions. No completion ever clears `isEditable`. | Press; Open ends; press again before Visible ends; Visible ends; the restarted Visible ends; Open ends; Close ends. The result is NORMAL, `isOpen = false`, `isEditable = true`, nothing running. The search icon is shown, yet the text is drawn and touches go to the editor. | A press in the hot zone is ignored while an animator runs or its completion message still waits to be handled. The field is then editable only while it is fully open. | medium; not executed | `Reentrancy.OverlappingPressLeavesClosedFieldEditable` | `Reentrancy.GuardedEditableImpliesOpen` |

The widget class models the code as written, so its touch handler has no
guard. The corrected touch handler is `Reentrancy.GuardedTouchStep`. Its
invariant is proved over the guarded runs. Because the model ends an animator
and handles its message in one step, its guard tests only the running
animators. In the source the guard must also wait for a queued message (see
"Left out").

## Left out

- Path geometry (`initPath`, `onSizeChanged`). It is float arithmetic over
  platform `Path` and `PathMeasure` objects (`Math.hypot`, `arcTo`,
  `getLength`).
- Drawing (`onDraw`, `drawSearch`). It uses a canvas, a paint, path segments
  over float lengths and the float-to-int alpha. The delegation to
  `super.onDraw` is left out too.
- The progress value `mAnimatedValue`, its update listener, `invalidate()` and
  the overshoot and decelerate easings. They are float and framework
  callbacks. An animator is only "running until it ends".
- The Android message queue. Ending an animator and handling the message it
  posts are one step (`Complete`). A touch between the two is not modelled
  separately.
- Phases.PatientEditableImpliesOpen: holds for the model, whose `Patient` runs
  press only while no animator runs. With the end and the handling merged,
  that is the same as "no completion message waits". In the source,
  `onAnimationEnd` only queues the message (`AnimatedEditText.java:57`). So a
  press can come after an animator has ended but before its message is
  handled. With that, a closed field can still end up editable: press; Open
  ends and is handled; Visible ends; press; Visible's message is handled;
  Visible ends; Open ends; Close ends. The source's result holds only for a
  user who also waits for queued messages. `Phases.Patient`,
  `Phases.PatientRunRefinesPhase` and `Phases.PatientAtMostOneAnimator` rest on
  the same merge.
- Reentrancy.GuardedEditableImpliesOpen: the guard in
  `Reentrancy.GuardedTouchStep` tests only the running animators. That is
  enough in the model, because each end is handled in the same step. A guard in
  the source must also ignore presses while a completion message is queued. The
  sequence above defeats a guard that checks only for running animators.
  `Reentrancy.GuardedRunStaysInPhases` rests on the same merge.
- The weak reference. It is a nullable field of the handler. Garbage collection
  is not modelled. The handler is built separately rather than in the widget's
  field initialiser.
- Restarting an animator that is already running. This is assumed to yield a
  single end, so it leaves the running set unchanged.
- Attribute parsing, paint setup, padding and clickability
  (`obtainStyledAttributes`, `initPaint`, `setPaddingRelative`,
  `setClickable`). The duration attribute is a constructor parameter. The
  paddings and the right edge are parameters of each touch.
- Android refuses a negative duration with an exception, which happens when the
  duration attribute is below 600. That check is in the framework, not in this
  file, so it is not modelled.
- `super.onTouchEvent`. It is an opaque boolean, the editor's answer.
- Touch coordinates. The x coordinate is an exact real and the bound
  `right - 24 - paddingRight - paddingLeft` is an unbounded integer. Float
  rounding and 32-bit overflow are not modelled. So is the difference between
  `getRight()`, which is in the parent's coordinates, and the view-local
  `getX()`.
- The constructor without attributes. It initialises no state of the machine.
