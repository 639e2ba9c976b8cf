/** The Modal's props and the pure decisions it derives from them when it
    presents itself: the options record handed to `setOverlay`
    (index.tsx:123-128), the choice between a backdrop slot and an empty box
    (index.tsx:102) and the layout of the container (index.tsx:96-101). */
module ModalOptions {
  import opened JsProps

  /** The props of `Modal` that this model follows. `rest` is what remains
      after destructuring (index.tsx:79); it holds `closeOnOverlayClick` and is
      what the theme resolver sees. Callbacks are identified by a number. */
  datatype ModalProps = ModalProps(
    isOpen: bool,
    onClose: Option<nat>,
    onShow: Option<nat>,
    justifyContent: Value,
    alignItems: Value,
    overlayColor: Value,
    overlayVisible: Value,
    rest: Props)

  /** The options record passed to `setOverlay`. */
  datatype OverlayOptions = OverlayOptions(
    onClose: Option<nat>,
    closeOnPress: bool,
    backgroundColor: Value,
    disableOverlay: bool)

  /** What stands before the children: the `ModalOverlay` backdrop or an empty box. */
  datatype Backdrop = EmptyBox | OverlaySlot

  /** The options record. Only an explicit `false` turns off closing on press
      (so an absent prop means true), only an explicit `false` disables the
      overlay, and a falsy colour becomes undefined. */
  function OptionsFor(p: ModalProps): (o: OverlayOptions)
    ensures o.onClose == p.onClose
    ensures !o.closeOnPress <==> Get(p.rest, "closeOnOverlayClick") == Bool(false)
    ensures "closeOnOverlayClick" !in p.rest ==> o.closeOnPress
    ensures o.disableOverlay <==> p.overlayVisible == Bool(false)
    ensures Truthy(o.backgroundColor) <==> Truthy(p.overlayColor)
    ensures Truthy(p.overlayColor) ==> o.backgroundColor == p.overlayColor
    ensures !Truthy(p.overlayColor) ==> o.backgroundColor == Undefined
  {
    OverlayOptions(
      p.onClose,
      if Get(p.rest, "closeOnOverlayClick") == Bool(false) then false else true,
      if Truthy(p.overlayColor) then p.overlayColor else Undefined,
      if p.overlayVisible == Bool(false) then true else false)
  }

  /** The backdrop is rendered unless the caller passed `closeOnOverlayClick`
      as exactly `false`; the same test decides the registry's `closeOnPress`. */
  function BackdropFor(p: ModalProps): (b: Backdrop)
    ensures b == OverlaySlot <==> Get(p.rest, "closeOnOverlayClick") != Bool(false)
    ensures b == OverlaySlot <==> OptionsFor(p).closeOnPress
  {
    if Get(p.rest, "closeOnOverlayClick") == Bool(false) then EmptyBox else OverlaySlot
  }

  /** The props of the box that wraps the backdrop and the children: the theme's
      `modalProps`, then `justifyContent` and `alignItems`, each `'center'`
      only when the caller's value is undefined or null. */
  function ContainerProps(newProps: Props, p: ModalProps): (r: Props)
    ensures r.Keys == Spread(Get(newProps, "modalProps")).Keys + {"justifyContent", "alignItems"}
    ensures !Nullish(p.justifyContent) ==> r["justifyContent"] == p.justifyContent
    ensures Nullish(p.justifyContent) ==> r["justifyContent"] == Str("center")
    ensures !Nullish(p.alignItems) ==> r["alignItems"] == p.alignItems
    ensures Nullish(p.alignItems) ==> r["alignItems"] == Str("center")
    ensures forall k :: k in r && k != "justifyContent" && k != "alignItems" ==>
              k in Spread(Get(newProps, "modalProps")) && r[k] == Spread(Get(newProps, "modalProps"))[k]
  {
    Override(Spread(Get(newProps, "modalProps")),
             map["justifyContent" := Coalesce(p.justifyContent, Str("center")),
                 "alignItems" := Coalesce(p.alignItems, Str("center"))])
  }
}
