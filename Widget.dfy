/**
 * The widget itself: its state fields updated in place by the touch
 * handler and by the completion handler, each method proved to make
 * exactly the step the machine prescribes.
 */
module Widget {
  import opened Animators
  import opened Machine

  class AnimatedEditText {
    /** The duration attribute, read once at construction. */
    const duration: int
    var currentState: MorphState
    var isOpen: bool
    var isEditable: bool
    /** The animators started and not yet ended. */
    var running: set<Animator>
    /** Whether the text has been set to null. */
    var textCleared: bool

    /** The machine state the fields hold. */
    function Snapshot(): View
      reads this
    {
      View(currentState, isOpen, isEditable, running, textCleared)
    }

    /** A widget built from layout attributes, with `duration` the value of
        its duration attribute: the search icon, closed, not editable. */
    constructor (duration: int)
      ensures this.duration == duration
      ensures currentState == Normal && !isOpen && !isEditable
      ensures running == {} && !textCleared
      ensures Snapshot() == Initial()
    {
      this.duration := duration;
      currentState := Normal;
      isOpen := false;
      isEditable := false;
      running := {};
      textCleared := false;
    }

    /** Sets the text to null. */
    method InitState()
      modifies this`textCleared
      ensures textCleared
    {
      textCleared := true;
    }

    /** The touch handler. `editorConsumes` is what the underlying editor
        would answer for the event; `forwarded` says whether it was asked. */
    method Touch(action: int, x: real, right: int, padL: int, padR: int, editorConsumes: bool)
      returns (consumed: bool, forwarded: bool)
      modifies this
      ensures Snapshot() == TouchStep(old(Snapshot()), action, x, right, padL, padR)
      ensures forwarded == isEditable
      ensures consumed == Consumed(Snapshot(), editorConsumes)
    {
      if action == ACTION_DOWN {
        if x > (right - HOT_ZONE_MARGIN - padR - padL) as real {
          if !isOpen {
            currentState := OpenOrClose;
            running := running + {Open};
          } else {
            isEditable := false;
            running := running + {InVisible};
          }
        }
      }
      forwarded := isEditable;
      consumed := !isEditable || editorConsumes;
    }

    /** Animator `finished` ends and the message it posts is handled. */
    method Complete(finished: Animator)
      modifies this
      ensures Snapshot() == CompleteStep(old(Snapshot()), finished)
    {
      running := running - {finished};
      match currentState {
        case OpenOrClose =>
          if !isOpen {
            currentState := Cancelable;
            running := running + {Visible};
          } else {
            currentState := Normal;
            isOpen := false;
          }
        case Cancelable =>
          if !isOpen {
            isOpen := true;
            isEditable := true;
          } else {
            InitState();
            currentState := OpenOrClose;
            running := running + {Close};
          }
        case Normal =>
      }
    }
  }

  /** The message handler, which holds the widget only weakly: `reference` is
      null once the widget is gone. */
  class CustomHandler {
    var reference: AnimatedEditText?

    constructor (view: AnimatedEditText)
      ensures reference == view
    {
      reference := view;
    }

    /** Delivers the completion of `finished` to the widget, if it still exists. */
    method HandleMessage(finished: Animator)
      modifies reference
      ensures reference != null ==> reference.Snapshot() == CompleteStep(old(reference.Snapshot()), finished)
    {
      var v := reference;
      if v != null {
        v.Complete(finished);
      }
    }
  }

  /** A new widget opened and closed again by a user who waits for every
      animation: the tap that opens it and the tap that closes it are both
      consumed, and it ends as the closed search icon with its text cleared. */
  method OpenThenClose(duration: int, x: real, right: int, padL: int, padR: int, editorConsumes: bool)
    returns (state: MorphState, open: bool, editable: bool, cleared: bool, openConsumed: bool, closeConsumed: bool)
    requires InHotZone(x, right, padL, padR)
    ensures state == Normal && !open && !editable && cleared
    ensures openConsumed && closeConsumed
  {
    var w := new AnimatedEditText(duration);
    var forwarded;
    openConsumed, forwarded := w.Touch(ACTION_DOWN, x, right, padL, padR, editorConsumes);
    w.Complete(Open);
    w.Complete(Visible);
    assert w.isEditable;
    closeConsumed, forwarded := w.Touch(ACTION_DOWN, x, right, padL, padR, editorConsumes);
    w.Complete(InVisible);
    w.Complete(Close);
    state, open, editable, cleared := w.currentState, w.isOpen, w.isEditable, w.textCleared;
  }
}
