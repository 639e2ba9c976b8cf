/** The slot components (index.tsx:174-241): each reads the context and
    computes the props of the view it renders. */
module ModalSlots {
  import opened JsProps
  import opened ModalContext

  /** The three slots that only spread their context map under the caller's props. */
  datatype Slot = Header | Body | Footer

  function SlotKey(slot: Slot): string {
    match slot
    case Header => "modalHeaderProps"
    case Body => "modalBodyProps"
    case Footer => "modalFooterProps"
  }

  /** `ModalHeader`, `ModalBody`, `ModalFooter`: the context's slot map,
      overridden key by key by the caller's props. */
  function SlotProps(ctx: ContextValue, slot: Slot, explicit: Props): (r: Props)
    ensures r.Keys == Spread(Get(ctx.newProps, SlotKey(slot))).Keys + explicit.Keys
    ensures forall k :: k in explicit ==> r[k] == explicit[k]
    ensures forall k :: k in r && k !in explicit ==> r[k] == Spread(Get(ctx.newProps, SlotKey(slot)))[k]
  {
    Override(Spread(Get(ctx.newProps, SlotKey(slot))), explicit)
  }

  /** `newProps._width || newProps.size || '75%'`. */
  function ContentWidth(newProps: Props): (w: Value)
    ensures Truthy(w)
    ensures Truthy(Get(newProps, "_width")) ==> w == Get(newProps, "_width")
    ensures !Truthy(Get(newProps, "_width")) && Truthy(Get(newProps, "size")) ==> w == Get(newProps, "size")
    ensures !Truthy(Get(newProps, "_width")) && !Truthy(Get(newProps, "size")) ==> w == Str("75%")
  {
    Or(Or(Get(newProps, "_width"), Get(newProps, "size")), Str("75%"))
  }

  /** `ModalContent`: the context's `modalContentProps`, then the computed
      width, then the caller's props. An explicit `width` wins; otherwise the
      computed width replaces any `width` of the context map. */
  function ContentProps(ctx: ContextValue, explicit: Props): (r: Props)
    ensures r.Keys == Spread(Get(ctx.newProps, "modalContentProps")).Keys + explicit.Keys + {"width"}
    ensures "width" in explicit ==> r["width"] == explicit["width"]
    ensures "width" !in explicit ==> r["width"] == ContentWidth(ctx.newProps)
    ensures forall k :: k in explicit ==> r[k] == explicit[k]
    ensures forall k :: k in r && k !in explicit && k != "width" ==>
              r[k] == Spread(Get(ctx.newProps, "modalContentProps"))[k]
  {
    Override(Override(Spread(Get(ctx.newProps, "modalContentProps")),
                      map["width" := ContentWidth(ctx.newProps)]),
             explicit)
  }

  /** What pressing `ModalCloseButton` runs: hide, then notify, through the
      context's two toggles. */
  function CloseButtonPress(ctx: ContextValue): Closure {
    Dismiss(ctx.toggleVisible, ctx.toggleOnClose)
  }

  /** `ModalCloseButton` renders a wrapper view and a close button. */
  datatype CloseButtonView = CloseButtonView(wrapperStyle: Value, button: Props)

  /** The wrapper takes `modalCloseButtonStyle`; the button takes the context's
      `modalCloseButtonProps` overridden by the caller's props, except
      `onPress`, which is always the dismissal handler. */
  function CloseButtonViewOf(ctx: ContextValue, explicit: Props): (r: CloseButtonView)
    ensures r.wrapperStyle == Get(ctx.newProps, "modalCloseButtonStyle")
    ensures r.button.Keys == Spread(Get(ctx.newProps, "modalCloseButtonProps")).Keys + explicit.Keys + {"onPress"}
    ensures r.button["onPress"] == Fn(CloseButtonPress(ctx))
    ensures forall k :: k in explicit && k != "onPress" ==> r.button[k] == explicit[k]
    ensures forall k :: k in r.button && k !in explicit && k != "onPress" ==>
              r.button[k] == Spread(Get(ctx.newProps, "modalCloseButtonProps"))[k]
  {
    CloseButtonView(
      Get(ctx.newProps, "modalCloseButtonStyle"),
      Override(Override(Spread(Get(ctx.newProps, "modalCloseButtonProps")), explicit),
               map["onPress" := Fn(CloseButtonPress(ctx))]))
  }

  /** What pressing the backdrop runs: nothing when the theme-resolved
      `closeOnOverlayClick` is exactly `false`, else the same dismissal as the
      close button. */
  function BackdropPress(ctx: ContextValue): (c: Closure)
    ensures Get(ctx.newProps, "closeOnOverlayClick") == Bool(false) ==> c == Noop
    ensures Get(ctx.newProps, "closeOnOverlayClick") != Bool(false) ==> c == CloseButtonPress(ctx)
  {
    if Get(ctx.newProps, "closeOnOverlayClick") == Bool(false) then Noop else CloseButtonPress(ctx)
  }

  /** `ModalOverlay` renders a box and, inside it, a touch-capture region. */
  datatype OverlayView = OverlayView(box: Props, capture: Props)

  /** The box takes the caller's props except `children`, with `style` forced
      to `modalOverlayStyle`; the context's `modalOverlayProps` are not used.
      The capture region has that style, is not accessible, and presses run
      `BackdropPress`. */
  function OverlayViewOf(ctx: ContextValue, explicit: Props): (r: OverlayView)
    ensures r.box.Keys == (explicit.Keys - {"children"}) + {"style"}
    ensures r.box["style"] == Get(ctx.newProps, "modalOverlayStyle")
    ensures forall k :: k in explicit && k != "children" && k != "style" ==> r.box[k] == explicit[k]
    ensures r.capture.Keys == {"style", "accessible", "onPress"}
    ensures r.capture["style"] == Get(ctx.newProps, "modalOverlayStyle")
    ensures r.capture["accessible"] == Bool(false)
    ensures r.capture["onPress"] == Fn(BackdropPress(ctx))
  {
    var style := Get(ctx.newProps, "modalOverlayStyle");
    OverlayView(
      Override(explicit - {"children"}, map["style" := style]),
      map["style" := style, "accessible" := Bool(false), "onPress" := Fn(BackdropPress(ctx))])
  }

  /** Without an enclosing Modal the slots fall back silently: the plain slots
      and the button show exactly the caller's props (plus the handler), the
      content is 60% wide unless told otherwise, and both presses dismiss
      through no-ops. */
  lemma SlotsWithoutProvider(slot: Slot, explicit: Props)
    ensures SlotProps(DefaultContext(), slot, explicit) == explicit
    ensures "width" !in explicit ==> ContentProps(DefaultContext(), explicit)["width"] == Str("60%")
    ensures CloseButtonPress(DefaultContext()) == Dismiss(Noop, Noop)
    ensures BackdropPress(DefaultContext()) == Dismiss(Noop, Noop)
    ensures CloseButtonViewOf(DefaultContext(), explicit).button == explicit["onPress" := Fn(Dismiss(Noop, Noop))]
  {
    var d := DefaultContext();
    assert Spread(Get(d.newProps, SlotKey(slot))) == map[];
    assert Spread(Get(d.newProps, "modalCloseButtonProps")) == map[];
  }
}
