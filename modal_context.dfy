/** The value the Modal publishes to its slots through `ModalContext`
    (index.tsx:45-62 for the default, index.tsx:90-95 for the provider). */
module ModalContext {
  import opened JsProps

  /** `{ visible, toggleVisible, toggleOnClose, newProps }`. */
  datatype ContextValue = ContextValue(
    visible: bool,
    toggleVisible: Closure,
    toggleOnClose: Closure,
    newProps: Props)

  /** The slot maps of the default `newProps`, all empty objects. */
  const DefaultSlotKeys: set<string> := {
    "modalOverlayStyle", "modalCloseButtonStyle", "modalCloseButtonProps", "modalFooterProps",
    "modalBodyProps", "modalContentProps", "modalHeaderProps", "modalOverlayProps"
  }

  /** The context a slot reads when no Modal encloses it. */
  function DefaultContext(): (c: ContextValue)
    ensures !c.visible
    ensures c.toggleVisible == Noop && c.toggleOnClose == Noop
    ensures Get(c.newProps, "_width") == Str("60%") && Get(c.newProps, "size") == Str("md")
    ensures Get(c.newProps, "closeOnOverlayClick") == Bool(true)
    ensures forall k :: k in DefaultSlotKeys ==> Get(c.newProps, k) == Obj(map[])
    ensures c.newProps.Keys == DefaultSlotKeys + {"_width", "size", "closeOnOverlayClick"}
  {
    var empty := Obj(map[]);
    ContextValue(false, Noop, Noop, map[
      "_width" := Str("60%"),
      "size" := Str("md"),
      "modalOverlayStyle" := empty,
      "closeOnOverlayClick" := Bool(true),
      "modalCloseButtonStyle" := empty,
      "modalCloseButtonProps" := empty,
      "modalFooterProps" := empty,
      "modalBodyProps" := empty,
      "modalContentProps" := empty,
      "modalHeaderProps" := empty,
      "modalOverlayProps" := empty
    ])
  }

  /** The value a Modal provides: its current `isVisible`, the state setter,
      the caller's `onClose` or a no-op when none was supplied, and the
      theme-resolved props. */
  function ProviderValue(isVisible: bool, onClose: Option<nat>, newProps: Props): (c: ContextValue)
    ensures c.visible == isVisible && c.newProps == newProps
    ensures c.toggleVisible == SetIsVisible
    ensures c.toggleOnClose == Noop <==> onClose.None?
    ensures onClose.Some? ==> c.toggleOnClose == OnCloseProp(onClose.value)
  {
    ContextValue(isVisible, SetIsVisible,
                 if onClose.Some? then OnCloseProp(onClose.value) else Noop,
                 newProps)
  }

  /** The shape every provider value has. */
  predicate IsProviderValue(c: ContextValue) {
    c.toggleVisible == SetIsVisible && (c.toggleOnClose == Noop || c.toggleOnClose.OnCloseProp?)
  }
}
