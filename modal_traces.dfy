/** Sequences of events on one Modal and what they add to the call log. */
module ModalTraces {
  import opened JsProps
  import opened ModalContext
  import opened ModalOptions
  import opened ModalController

  /** What can happen to a mounted Modal: a render with new props, a press on
      the close button or the backdrop of the presented content, the registry
      running the completion callback of `setOverlay`, and the registry taking
      the content away by itself. */
  datatype Event =
    | Rerender(p: ModalProps)
    | PressCloseButton
    | PressBackdrop
    | OverlayShown
    | RegistryDismiss

  /** One event. A press or a completion while nothing is presented cannot
      reach the Modal and changes nothing. */
  function Step(theme: Props -> Props, s: ModalState, e: Event): (t: ModalState)
    ensures Inv(s) ==> Inv(t)
  {
    match e
    case Rerender(p) => Rerendered(theme, s, p)
    case PressCloseButton => if s.overlay.Some? then CloseButtonPressed(s) else s
    case PressBackdrop => if s.overlay.Some? then BackdropPressed(s) else s
    case OverlayShown => if s.overlay.Some? then Shown(s) else s
    case RegistryDismiss => RegistryDismissed(s)
  }

  function Run(theme: Props -> Props, s: ModalState, evs: seq<Event>): ModalState
    decreases |evs|
  {
    if evs == [] then s else Run(theme, Step(theme, s, evs[0]), evs[1..])
  }

  /** The number of log entries `f` selects. */
  function Count(log: seq<Call>, f: Call -> bool): nat
    decreases |log|
  {
    if log == [] then 0 else (if f(log[0]) then 1 else 0) + Count(log[1..], f)
  }

  lemma {:induction false} CountAppend(a: seq<Call>, b: seq<Call>, f: Call -> bool)
    ensures Count(a + b, f) == Count(a, f) + Count(b, f)
    decreases |a|
  {
    if a == [] {
      assert a + b == b;
    } else {
      assert (a + b)[0] == a[0] && (a + b)[1..] == a[1..] + b;
      CountAppend(a[1..], b, f);
    }
  }

  lemma {:induction false} CountNone(log: seq<Call>, f: Call -> bool)
    requires forall i :: 0 <= i < |log| ==> !f(log[i])
    ensures Count(log, f) == 0
    decreases |log|
  {
    if log != [] {
      CountNone(log[1..], f);
    }
  }

  /** Extending a log with entries `f` does not select leaves its count alone. */
  lemma CountExtendedByNone(a: seq<Call>, b: seq<Call>, f: Call -> bool)
    requires |a| <= |b| && b[..|a|] == a
    requires forall i :: |a| <= i < |b| ==> !f(b[i])
    ensures Count(b, f) == Count(a, f)
  {
    var d := b[|a|..];
    assert b == a + d;
    forall i | 0 <= i < |d| ensures !f(d[i]) {
      assert d[i] == b[|a| + i];
    }
    CountNone(d, f);
    CountAppend(a, d, f);
  }

  /** Renders whose `isOpen` turns true, starting from `was`. */
  function Openings(was: bool, evs: seq<Event>): nat
    decreases |evs|
  {
    if evs == [] then 0
    else match evs[0]
      case Rerender(p) => (if p.isOpen && !was then 1 else 0) + Openings(p.isOpen, evs[1..])
      case _ => Openings(was, evs[1..])
  }

  /** Renders whose `isOpen` turns false, starting from `was`. */
  function Closings(was: bool, evs: seq<Event>): nat
    decreases |evs|
  {
    if evs == [] then 0
    else match evs[0]
      case Rerender(p) => (if !p.isOpen && was then 1 else 0) + Closings(p.isOpen, evs[1..])
      case _ => Closings(was, evs[1..])
  }

  /** One event adds a `setOverlay` call exactly when it turns `isOpen` true,
      a `closeOverlay` call exactly when it turns `isOpen` false, and no
      registry call otherwise: presses and completions never reach the registry. */
  lemma StepRegistryCalls(theme: Props -> Props, s: ModalState, e: Event)
    ensures var t := Step(theme, s, e);
      && t.props.isOpen == (if e.Rerender? then e.p.isOpen else s.props.isOpen)
      && Count(t.log, IsSetOverlay) ==
           Count(s.log, IsSetOverlay) + (if e.Rerender? && e.p.isOpen && !s.props.isOpen then 1 else 0)
      && Count(t.log, IsCloseOverlay) ==
           Count(s.log, IsCloseOverlay) + (if e.Rerender? && !e.p.isOpen && s.props.isOpen then 1 else 0)
  {
    var t := Step(theme, s, e);
    match e
    case Rerender(p) =>
      if p.isOpen != s.props.isOpen {
        var d := t.log[|s.log|..];
        assert t.log == s.log + d;
        CountAppend(s.log, d, IsSetOverlay);
        CountAppend(s.log, d, IsCloseOverlay);
      }
    case OverlayShown =>
      if s.overlay.Some? {
        CountExtendedByNone(s.log, t.log, IsSetOverlay);
        CountExtendedByNone(s.log, t.log, IsCloseOverlay);
      }
    case _ =>
      if s.overlay.Some? {
        CountExtendedByNone(s.log, t.log, IsSetOverlay);
        CountExtendedByNone(s.log, t.log, IsCloseOverlay);
      }
  }

  /** Over any run, the registry is called once per edge of `isOpen`:
      `setOverlay` once for every change to true, `closeOverlay` once for every
      change to false. Dismissals from the slots add neither. */
  lemma {:induction false} RegistryCallsFollowEdges(theme: Props -> Props, s: ModalState, evs: seq<Event>)
    ensures Count(Run(theme, s, evs).log, IsSetOverlay) ==
              Count(s.log, IsSetOverlay) + Openings(s.props.isOpen, evs)
    ensures Count(Run(theme, s, evs).log, IsCloseOverlay) ==
              Count(s.log, IsCloseOverlay) + Closings(s.props.isOpen, evs)
    decreases |evs|
  {
    if evs != [] {
      StepRegistryCalls(theme, s, evs[0]);
      RegistryCallsFollowEdges(theme, Step(theme, s, evs[0]), evs[1..]);
    }
  }

  /** From the first render on: the mount counts as an opening when `isOpen`
      starts true and as a closing when it starts false. */
  lemma RegistryCallsFromMount(theme: Props -> Props, p: ModalProps, evs: seq<Event>)
    ensures Count(Run(theme, Mounted(theme, p), evs).log, IsSetOverlay) ==
              (if p.isOpen then 1 else 0) + Openings(p.isOpen, evs)
    ensures Count(Run(theme, Mounted(theme, p), evs).log, IsCloseOverlay) ==
              (if p.isOpen then 0 else 1) + Closings(p.isOpen, evs)
  {
    var m := Mounted(theme, p);
    CountAppend([], m.log, IsSetOverlay);
    CountAppend([], m.log, IsCloseOverlay);
    RegistryCallsFollowEdges(theme, m, evs);
  }

  /** The invariant holds after any run. */
  lemma {:induction false} RunKeepsInv(theme: Props -> Props, s: ModalState, evs: seq<Event>)
    requires Inv(s)
    ensures Inv(Run(theme, s, evs))
    decreases |evs|
  {
    if evs != [] {
      RunKeepsInv(theme, Step(theme, s, evs[0]), evs[1..]);
    }
  }

  /** The Modal's own effect never calls `onClose` or `onShow`: renders alone,
      however `isOpen` toggles, add no such call, and closing through a prop
      change only calls `closeOverlay`. (A completion the registry runs right
      after `setOverlay` is a separate `OverlayShown` event.) */
  lemma {:induction false} RendersNeverCallCaller(theme: Props -> Props, s: ModalState, evs: seq<Event>)
    requires forall i :: 0 <= i < |evs| ==> evs[i].Rerender?
    ensures Count(Run(theme, s, evs).log, IsCallerCallback) == Count(s.log, IsCallerCallback)
    decreases |evs|
  {
    if evs != [] {
      var t := Step(theme, s, evs[0]);
      if t.log != s.log {
        var d := t.log[|s.log|..];
        assert t.log == s.log + d;
        CountAppend(s.log, d, IsCallerCallback);
      }
      RendersNeverCallCaller(theme, t, evs[1..]);
    }
  }

  /** `onShow` is called only by the completion callback of `setOverlay`: a
      run without completions never calls it, whatever it renders or presses. */
  lemma {:induction false} OnlyCompletionsCallOnShow(theme: Props -> Props, s: ModalState, evs: seq<Event>)
    requires forall i :: 0 <= i < |evs| ==> !evs[i].OverlayShown?
    ensures Count(Run(theme, s, evs).log, IsOnShow) == Count(s.log, IsOnShow)
    decreases |evs|
  {
    if evs != [] {
      var t := Step(theme, s, evs[0]);
      if evs[0].Rerender? {
        if t.log != s.log {
          var d := t.log[|s.log|..];
          assert t.log == s.log + d;
          CountAppend(s.log, d, IsOnShow);
        }
      } else if s.overlay.Some? {
        CountExtendedByNone(s.log, t.log, IsOnShow);
      }
      OnlyCompletionsCallOnShow(theme, t, evs[1..]);
    }
  }

  function ClosePresses(n: nat): seq<Event> {
    if n == 0 then [] else [PressCloseButton] + ClosePresses(n - 1)
  }

  function Repeat(c: Call, n: nat): seq<Call> {
    if n == 0 then [] else [c] + Repeat(c, n - 1)
  }

  /** Nothing guards against repeats: `n` presses of the close button call
      `onClose(false)` `n` times, and the registry keeps presenting. */
  lemma {:induction false} EveryPressCallsOnClose(theme: Props -> Props, s: ModalState, n: nat, cb: nat)
    requires Inv(s) && s.overlay.Some? && s.overlay.value.ctx.toggleOnClose == OnCloseProp(cb)
    ensures Run(theme, s, ClosePresses(n)).log == s.log + Repeat(CalledOnClose(cb, false), n)
    ensures Run(theme, s, ClosePresses(n)).overlay == s.overlay
    ensures n > 0 ==> !Run(theme, s, ClosePresses(n)).isVisible
    decreases n
  {
    if n > 0 {
      var t := Step(theme, s, PressCloseButton);
      assert t.log == s.log + [CalledOnClose(cb, false)];
      EveryPressCallsOnClose(theme, t, n - 1, cb);
      assert ClosePresses(n)[0] == PressCloseButton && ClosePresses(n)[1..] == ClosePresses(n - 1);
      if n == 1 {
        assert Run(theme, t, []) == t;
      }
    }
  }
}
