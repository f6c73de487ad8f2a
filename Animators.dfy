/**
 * The four value animators of the animated edit text and the table that
 * configures them when the widget is built: the endpoints of the progress
 * value each one drives and how long it runs.
 */
module Animators {

  /** The sweep that draws the glyph open, the sweep that retracts it, and the
      fade in and fade out of the cancel cross. */
  datatype Animator = Open | Close | Visible | InVisible

  /** One animator's configuration. The endpoints are the progress values
      0 and 1 handed to the float animator; they are exact, so integers. */
  datatype Timing = Timing(from: int, to: int, durationMs: int)

  /** Duration attribute's default, in milliseconds. */
  const DEFAULT_DURATION_MS: int := 1500
  /** The close sweep runs this much shorter than the open sweep. */
  const CLOSE_SHORTENING_MS: int := 600
  /** Both fades run this long, whatever the duration attribute says. */
  const FADE_MS: int := 200

  /** Open and Close move along the glyph path; the other two only fade. */
  predicate IsSweep(a: Animator) {
    a == Open || a == Close
  }

  /** Open and Visible drive progress up from 0 to 1; Close and InVisible down. */
  predicate Rises(a: Animator) {
    a == Open || a == Visible
  }

  /** The animator table for a widget whose duration attribute is `duration`. */
  function TimingOf(a: Animator, duration: int): (t: Timing)
    ensures Rises(a) ==> t.from == 0 && t.to == 1
    ensures !Rises(a) ==> t.from == 1 && t.to == 0
    ensures !IsSweep(a) ==> t.durationMs == FADE_MS
    ensures a == Open ==> t.durationMs == duration
    ensures a == Close ==> t.durationMs == duration - CLOSE_SHORTENING_MS
  {
    match a
    case Open => Timing(0, 1, duration)
    case Close => Timing(1, 0, duration - CLOSE_SHORTENING_MS)
    case Visible => Timing(0, 1, FADE_MS)
    case InVisible => Timing(1, 0, FADE_MS)
  }

  /** The close sweep retraces the open sweep backwards, 600 ms faster. */
  lemma SweepsAreMirrored(duration: int)
    ensures TimingOf(Close, duration).from == TimingOf(Open, duration).to
    ensures TimingOf(Close, duration).to == TimingOf(Open, duration).from
    ensures TimingOf(Close, duration).durationMs == TimingOf(Open, duration).durationMs - CLOSE_SHORTENING_MS
  {
  }

  /** The fade out is the fade in backwards, at the same fixed speed. */
  lemma FadesAreMirrored(duration: int)
    ensures TimingOf(InVisible, duration).from == TimingOf(Visible, duration).to
    ensures TimingOf(InVisible, duration).to == TimingOf(Visible, duration).from
    ensures TimingOf(InVisible, duration).durationMs == TimingOf(Visible, duration).durationMs
  {
  }
}
