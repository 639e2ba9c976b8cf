/** The Modal's behaviour over time (index.tsx:64-140 and the press handlers
    at index.tsx:210-213, 229-236): the `isVisible` state, the effect that
    fires when `isOpen` changes, and the dismissals from the slots.

    `useOverlay` is a registry this model sees only through its two entry
    points (`setOverlay` presents content, `closeOverlay` takes it away), its
    completion callback, and its taking content away by itself. Every call the
    Modal makes into the registry or into the caller's callbacks is recorded
    in a log. */
module ModalController {
  import opened JsProps
  import opened ModalContext
  import opened ModalOptions
  import opened ModalSlots

  /** A call the Modal makes on the registry or on the caller. */
  datatype Call =
    | CalledSetOverlay(options: OverlayOptions)
    | CalledCloseOverlay
    | CalledOnClose(cb: nat, arg: bool)
    | CalledOnShow(cb: nat)

  predicate IsSetOverlay(c: Call) { c.CalledSetOverlay? }
  predicate IsCloseOverlay(c: Call) { c.CalledCloseOverlay? }
  predicate IsCallerCallback(c: Call) { c.CalledOnClose? || c.CalledOnShow? }
  predicate IsOnShow(c: Call) { c.CalledOnShow? }

  /** What the effect hands to `setOverlay`: the provider value of the render
      the effect belongs to, the container layout, the backdrop choice, the
      options record, and the `onShow` its completion callback closes over. */
  datatype Presented = Presented(
    ctx: ContextValue,
    container: Props,
    backdrop: Backdrop,
    options: OverlayOptions,
    onShow: Option<nat>)

  /** One Modal instance: its latest props, the theme-resolved props, its
      `isVisible` state, the content the registry presents for it (if any) and
      the log of calls. */
  datatype ModalState = ModalState(
    props: ModalProps,
    newProps: Props,
    isVisible: bool,
    overlay: Option<Presented>,
    log: seq<Call>)

  /** The registry presents content only while the latest `isOpen` is true
      (it may also take the content away by itself), the presented context is
      a provider value, and `isVisible` is only ever true while open.
      `isVisible` can be false while open: a dismissal does not reach the
      caller's `isOpen`. */
  predicate Inv(s: ModalState) {
    && (s.overlay.Some? ==> s.props.isOpen)
    && (s.isVisible ==> s.props.isOpen)
    && (s.overlay.Some? ==> IsProviderValue(s.overlay.value.ctx))
  }

  /** The content the effect presents, built from the render it belongs to. */
  function Presentation(s: ModalState): (c: Presented)
    ensures c.ctx == ProviderValue(s.isVisible, s.props.onClose, s.newProps)
    ensures c.options == OptionsFor(s.props) && c.backdrop == BackdropFor(s.props)
    ensures c.container == ContainerProps(s.newProps, s.props)
    ensures c.onShow == s.props.onShow
  {
    Presented(ProviderValue(s.isVisible, s.props.onClose, s.newProps),
              ContainerProps(s.newProps, s.props),
              BackdropFor(s.props),
              OptionsFor(s.props),
              s.props.onShow)
  }

  /** The body of the `isOpen` effect: present when open, close when not,
      then `isVisible := isOpen`. Exactly one registry call, never a caller
      callback. */
  function Effect(s: ModalState): (t: ModalState)
    ensures t.isVisible == s.props.isOpen
    ensures t.props == s.props && t.newProps == s.newProps
    ensures s.props.isOpen ==> t.overlay == Some(Presentation(s))
    ensures !s.props.isOpen ==> t.overlay.None?
    ensures t.log == s.log + [if s.props.isOpen then CalledSetOverlay(OptionsFor(s.props)) else CalledCloseOverlay]
    ensures Inv(t)
  {
    var isOpen := s.props.isOpen;
    var s1 := if isOpen
              then s.(overlay := Some(Presentation(s)),
                      log := s.log + [CalledSetOverlay(Presentation(s).options)])
              else s;
    var s2 := if !isOpen then s1.(overlay := None, log := s1.log + [CalledCloseOverlay]) else s1;
    s2.(isVisible := isOpen)
  }

  /** First render: `isVisible` starts true, then the effect runs once with
      the initial `isOpen`. */
  function Mounted(theme: Props -> Props, p: ModalProps): (t: ModalState)
    ensures Inv(t) && t.props == p && t.newProps == theme(p.rest)
    ensures t.isVisible == p.isOpen
    ensures t.log == [if p.isOpen then CalledSetOverlay(OptionsFor(p)) else CalledCloseOverlay]
  {
    Effect(ModalState(p, theme(p.rest), true, None, []))
  }

  /** A later render with props `p`: the effect fires only when `isOpen`
      differs from the previous render's. */
  function Rerendered(theme: Props -> Props, s: ModalState, p: ModalProps): (t: ModalState)
    ensures t.props == p && t.newProps == theme(p.rest)
    ensures p.isOpen == s.props.isOpen ==>
              t.isVisible == s.isVisible && t.overlay == s.overlay && t.log == s.log
    ensures p.isOpen != s.props.isOpen ==> t == Effect(s.(props := p, newProps := theme(p.rest)))
    ensures p.isOpen != s.props.isOpen ==> t.isVisible == p.isOpen && |t.log| == |s.log| + 1
    ensures Inv(s) ==> Inv(t)
  {
    var s1 := s.(props := p, newProps := theme(p.rest));
    if p.isOpen != s.props.isOpen then Effect(s1) else s1
  }

  /** Running a closure the Modal created. The dismissal closure hides the
      modal and then calls the captured `onClose` with `false`; the registry
      and the props are never touched, and the only calls it adds are to
      `onClose`. A caller's own function is outside this model. */
  function Invoked(s: ModalState, c: Closure, arg: bool): (t: ModalState)
    ensures t.props == s.props && t.newProps == s.newProps && t.overlay == s.overlay
    ensures |s.log| <= |t.log| && t.log[..|s.log|] == s.log
    ensures forall i :: |s.log| <= i < |t.log| ==> t.log[i].CalledOnClose?
    decreases c
  {
    match c
    case Opaque(_) => s
    case Noop => s
    case SetIsVisible => s.(isVisible := arg)
    case OnCloseProp(cb) => s.(log := s.log + [CalledOnClose(cb, arg)])
    case Dismiss(toggleVisible, toggleOnClose) =>
      Invoked(Invoked(s, toggleVisible, false), toggleOnClose, false)
  }

  /** The calls a dismissal through provider context `ctx` adds: `onClose(false)`
      when the caller supplied `onClose`, nothing otherwise. */
  function DismissalCalls(ctx: ContextValue): seq<Call> {
    if ctx.toggleOnClose.OnCloseProp? then [CalledOnClose(ctx.toggleOnClose.cb, false)] else []
  }

  /** A press on the close button of the presented content: `isVisible`
      becomes false and `onClose(false)` is called, on every press; the
      registry keeps presenting. */
  function CloseButtonPressed(s: ModalState): (t: ModalState)
    requires s.overlay.Some?
    ensures t.props == s.props && t.newProps == s.newProps && t.overlay == s.overlay
    ensures IsProviderValue(s.overlay.value.ctx) ==>
              !t.isVisible && t.log == s.log + DismissalCalls(s.overlay.value.ctx)
  {
    var ctx := s.overlay.value.ctx;
    var hidden := Invoked(s, ctx.toggleVisible, false);
    assert IsProviderValue(ctx) ==> hidden == s.(isVisible := false);
    assert IsProviderValue(ctx) ==> Invoked(hidden, ctx.toggleOnClose, false)
                                      == hidden.(log := s.log + DismissalCalls(ctx));
    Invoked(s, CloseButtonPress(ctx), false)
  }

  /** A press on the backdrop of the presented content: nothing at all when
      the captured theme props say `closeOnOverlayClick: false`, otherwise
      exactly a close-button press. */
  function BackdropPressed(s: ModalState): (t: ModalState)
    requires s.overlay.Some?
    ensures Get(s.overlay.value.ctx.newProps, "closeOnOverlayClick") == Bool(false) ==> t == s
    ensures Get(s.overlay.value.ctx.newProps, "closeOnOverlayClick") != Bool(false) ==>
              t == CloseButtonPressed(s)
  {
    Invoked(s, BackdropPress(s.overlay.value.ctx), false)
  }

  /** The backdrop's presence and the registry's `closeOnPress` read the
      caller's `closeOnOverlayClick`, but the backdrop's tap reads the
      theme-resolved one: a theme that sets it to `false` leaves a backdrop
      on screen whose taps do nothing. */
  lemma BackdropPresenceAndTapReadDifferentProps(s: ModalState)
    requires s.props.isOpen && "closeOnOverlayClick" !in s.props.rest
    requires Get(s.newProps, "closeOnOverlayClick") == Bool(false)
    ensures var c := Effect(s).overlay.value;
      c.backdrop == OverlaySlot && c.options.closeOnPress && BackdropPress(c.ctx) == Noop
  {
  }

  /** `??` and `||` treat the empty string differently: an empty
      `justifyContent` is kept by the container, an empty `_width` is skipped
      by the content width. */
  lemma EmptyStringKeptByLayoutSkippedByWidth(newProps: Props, p: ModalProps)
    requires p.justifyContent == Str("") && Get(newProps, "_width") == Str("")
    ensures ContainerProps(newProps, p)["justifyContent"] == Str("")
    ensures ContentWidth(newProps) != Str("")
  {
  }

  /** The registry takes the presented content away by itself (it was handed
      `onClose` and `closeOnPress` and may act on them). What else it does then
      is not part of this model; the Modal's own state and log are untouched. */
  function RegistryDismissed(s: ModalState): (t: ModalState)
    ensures t.overlay.None?
    ensures t.props == s.props && t.newProps == s.newProps
    ensures t.isVisible == s.isVisible && t.log == s.log
    ensures Inv(s) ==> Inv(t)
  {
    s.(overlay := None)
  }

  /** The registry runs the completion callback handed to `setOverlay`: it
      calls `onShow` when one was supplied, and nothing else changes. */
  function Shown(s: ModalState): (t: ModalState)
    requires s.overlay.Some?
    ensures t.props == s.props && t.newProps == s.newProps && t.overlay == s.overlay
    ensures t.isVisible == s.isVisible
    ensures s.overlay.value.onShow.None? ==> t.log == s.log
    ensures s.overlay.value.onShow.Some? ==> t.log == s.log + [CalledOnShow(s.overlay.value.onShow.value)]
  {
    match s.overlay.value.onShow
    case None => s
    case Some(cb) => s.(log := s.log + [CalledOnShow(cb)])
  }

  /** The imperative Modal instance. */
  class Modal {
    const theme: Props -> Props        // `useThemeProps('Modal', _)`
    var props: ModalProps
    var newProps: Props
    var isVisible: bool
    var overlay: Option<Presented>     // what the registry presents for this Modal
    var log: seq<Call>

    function State(): ModalState
      reads this
    {
      ModalState(props, newProps, isVisible, overlay, log)
    }

    ghost predicate Valid()
      reads this
    {
      Inv(State()) && newProps == theme(props.rest)
    }

    constructor Mount(theme: Props -> Props, p: ModalProps)
      ensures Valid() && this.theme == theme
      ensures State() == Mounted(theme, p)
      ensures isVisible == p.isOpen && (overlay.Some? <==> p.isOpen)
    {
      this.theme := theme;
      props := p;
      newProps := theme(p.rest);
      isVisible := true;
      overlay := None;
      log := [];
      new;
      RunEffect();
    }

    /** `setOverlay(content, options, completion)`: an internal step of
        `RunEffect`, not an event on its own; it does not keep `Valid()`. */
    method SetOverlay(content: Presented)
      modifies this
      ensures overlay == Some(content) && log == old(log) + [CalledSetOverlay(content.options)]
      ensures props == old(props) && newProps == old(newProps) && isVisible == old(isVisible)
    {
      overlay := Some(content);
      log := log + [CalledSetOverlay(content.options)];
    }

    /** `closeOverlay()`: an internal step of `RunEffect`, not an event on its
        own; it does not keep `Valid()`. */
    method CloseOverlay()
      modifies this
      ensures overlay.None? && log == old(log) + [CalledCloseOverlay]
      ensures props == old(props) && newProps == old(newProps) && isVisible == old(isVisible)
    {
      overlay := None;
      log := log + [CalledCloseOverlay];
    }

    /** The `isOpen` effect: an internal step of `Mount` and `Rerender`, which
        is why it neither needs nor promises `Valid()`. */
    method RunEffect()
      modifies this
      ensures State() == Effect(old(State()))
    {
      var isOpen := props.isOpen;
      if isOpen {
        SetOverlay(Presentation(State()));
      }
      if !isOpen {
        CloseOverlay();
      }
      isVisible := isOpen;
    }

    /** A render with new props. */
    method Rerender(p: ModalProps)
      requires Valid()
      modifies this
      ensures Valid()
      ensures State() == Rerendered(theme, old(State()), p)
    {
      var changed := p.isOpen != props.isOpen;
      props := p;
      newProps := theme(p.rest);
      if changed {
        RunEffect();
      }
    }

    /** Run a closure of this Modal's context: an internal step of the press
        handlers, which only run it with `false`; it keeps `Valid()` then. */
    method Invoke(c: Closure, arg: bool)
      modifies this
      ensures State() == Invoked(old(State()), c, arg)
      ensures old(Valid()) && !arg ==> Valid()
      decreases c
    {
      match c
      case Opaque(_) =>
      case Noop =>
      case SetIsVisible =>
        isVisible := arg;
      case OnCloseProp(cb) =>
        log := log + [CalledOnClose(cb, arg)];
      case Dismiss(toggleVisible, toggleOnClose) =>
        Invoke(toggleVisible, false);
        Invoke(toggleOnClose, false);
    }

    /** The close button of the presented content is pressed. */
    method PressCloseButton()
      requires Valid() && overlay.Some?
      modifies this
      ensures Valid()
      ensures State() == CloseButtonPressed(old(State()))
      ensures !isVisible && overlay == old(overlay) && props == old(props)
      ensures log == old(log) + DismissalCalls(old(overlay).value.ctx)
    {
      Invoke(CloseButtonPress(overlay.value.ctx), false);
    }

    /** The backdrop of the presented content is pressed. */
    method PressBackdrop()
      requires Valid() && overlay.Some?
      modifies this
      ensures Valid()
      ensures State() == BackdropPressed(old(State()))
    {
      Invoke(BackdropPress(overlay.value.ctx), false);
    }

    /** The registry takes the presented content away by itself. */
    method RegistryDismiss()
      requires Valid()
      modifies this
      ensures Valid()
      ensures State() == RegistryDismissed(old(State()))
    {
      overlay := None;
    }

    /** The registry runs the completion callback of the presented content. */
    method OverlayShown()
      requires Valid() && overlay.Some?
      modifies this
      ensures Valid()
      ensures State() == Shown(old(State()))
    {
      match overlay.value.onShow
      case None =>
      case Some(cb) =>
        log := log + [CalledOnShow(cb)];
    }
  }
}
