# NativeBase Modal: a Dafny model

This project models the decision logic of the `Modal` composite of NativeBase
(`src/components/composites/Modal/index.tsx`). Rendering is left out. Three
parts are modelled.

- **The controller.** `Modal` keeps an `isVisible` state that starts `true`.
  An effect fires on mount and whenever `isOpen` changes:
  - when `isOpen` is true it hands content, an options record and a
    completion callback to the overlay registry's `setOverlay`;
  - when `isOpen` is false it calls `closeOverlay`;
  - either way it then sets `isVisible := isOpen`.

  The close button and the backdrop dismiss the modal from inside: they set
  `isVisible := false` and call `onClose(false)`. They never touch the
  registry.
- **The option mapping.** The options record, the choice between the
  `ModalOverlay` backdrop and an empty box, and the container layout
  (`justifyContent`/`alignItems` with `??`).
- **The slots.** `ModalHeader`, `ModalBody`, `ModalFooter`, `ModalContent`,
  `ModalCloseButton` and `ModalOverlay` read `ModalContext` and merge its
  maps with their own props, following JavaScript's object-spread order.
  `ModalContent` resolves its width through the `||` chain
  `_width || size || '75%'`. Outside any Modal the context has a default
  value.

JavaScript values are a datatype (`JsProps.Value`). A props object is a
`map<string, Value>`, and an absent key reads as `undefined`. `Truthy` and
`Nullish` give the semantics of `||` and `??`, and `Override` is
`{...base, ...over}`. The function values that flow through the props are the
`Closure` datatype: the no-op, the `isVisible` setter, the caller's `onClose`,
and the dismissal handler `Dismiss(toggleVisible, toggleOnClose)`. The
controller is a class, `ModalController.Modal`. Its fields are:
- the latest props and the theme-resolved props;
- `isVisible`;
- `overlay`, the content the registry presents for this modal (`None` when
  nothing is presented);
- `log`, every call the modal made on the registry (`setOverlay`,
  `closeOverlay`) or on the caller (`onClose`, `onShow`).

Each method is specified by a pure function on `ModalState`.
`ModalTraces.Run` folds those functions over sequences of events. The trace
lemmas are proved about `Run`.

The registry (`useOverlay`) and the theme resolver (`useThemeProps`) are not
part of this model. The registry is seen through four things: the effect of its
two entry points on `overlay`, its running of the completion callback, and
its taking the content away by itself (it is handed `onClose` and
`closeOnPress` and may act on them). The theme resolver is an arbitrary function
`theme: Props -> Props`, fixed when the modal is mounted.

What the code does, and some behaviour one might expect that it does not have:
- Closing by turning `isOpen` false calls only `closeOverlay`. The Modal
  itself never calls `onClose` on that path (`RendersNeverCallCaller`). It
  only hands `onClose` to the registry in the options record.
- When `isOpen` starts false, the mount calls `closeOverlay` once
  (`RegistryCallsFromMount`).
- Nothing makes dismissal happen exactly once. Every press of the close
  button calls `onClose(false)` again (`EveryPressCallsOnClose`).
- After an internal dismissal, `isVisible` is false, but the registry still
  presents the content and `isOpen` is unchanged (`Inv`,
  `CloseButtonPressed`).
- Whether the backdrop is rendered, and the registry's `closeOnPress`, read
  the caller's `closeOnOverlayClick`. Whether a backdrop tap does anything
  reads the theme-resolved `newProps.closeOnOverlayClick`. The two can
  disagree (`BackdropPresenceAndTapReadDifferentProps`).
- A slot rendered outside any Modal is not an error. It silently reads the
  default context, and its dismissal handler runs two no-ops
  (`SlotsWithoutProvider`).
- `ModalOverlay` does not use the context's `modalOverlayProps`. Its own
  props are the base, and `style` is always the context's
  `modalOverlayStyle` (`OverlayViewOf`).
- The content handed to `setOverlay` closes over the context value of the
  render that fired the effect. Its `visible` is the `isVisible` from before
  the effect (`Presentation`). Presses act on that captured context.

## Model

| member | source | states |
|---|---|---|
| `ModalContext.DefaultContext` | src/components/composites/Modal/index.tsx:45-62 | with no provider: `visible` is false, both toggles are no-ops, `_width` is '60%', `size` is 'md', `closeOnOverlayClick` is true, every slot map is an empty object, and there are no other keys |
| `ModalContext.ProviderValue` | src/components/composites/Modal/index.tsx:90-95 | the provided value carries the current `isVisible` and `newProps`; `toggleVisible` is the state setter; `toggleOnClose` is the caller's `onClose`, or a no-op exactly when none was supplied |
| `ModalOptions.OptionsFor` | src/components/composites/Modal/index.tsx:123-128 | `closeOnPress` is false iff the caller's `closeOnOverlayClick` is exactly `false`, so it is true when the prop is absent; `disableOverlay` is true iff `overlayVisible` is exactly `false`; `backgroundColor` is `overlayColor` when truthy, else undefined; `onClose` is passed through |
| `ModalOptions.BackdropFor` | src/components/composites/Modal/index.tsx:102 | the backdrop slot is rendered iff the caller's `closeOnOverlayClick` is not exactly `false`, which is exactly when the registry's `closeOnPress` is true; otherwise an empty box |
| `ModalOptions.ContainerProps` | src/components/composites/Modal/index.tsx:96-101 | `justifyContent` and `alignItems` are the caller's values unless undefined or null, then 'center', so '' and `false` are kept; they override the theme's `modalProps`; the keys are exactly those of `modalProps` plus these two, and every other key keeps its `modalProps` value |
| `ModalSlots.SlotProps` | src/components/composites/Modal/index.tsx:174-198 | Header, Body and Footer: the keys are the context slot map's plus the caller's; a key the caller gives takes the caller's value; every other key keeps the context value |
| `ModalSlots.ContentWidth` | src/components/composites/Modal/index.tsx:184 | the width is `_width` when truthy, else `size` when truthy, else '75%'; it is always truthy |
| `ModalSlots.ContentProps` | src/components/composites/Modal/index.tsx:179-188 | an explicit `width` wins; otherwise the computed width replaces any `width` in `modalContentProps`; other keys are the caller's over the context's |
| `ModalSlots.CloseButtonViewOf` | src/components/composites/Modal/index.tsx:200-217 | the wrapper takes `modalCloseButtonStyle`; the button's props are `modalCloseButtonProps` overridden by the caller's, except `onPress`, which is always the dismissal handler built from the context's toggles, even when the caller gave one |
| `ModalSlots.BackdropPress` | src/components/composites/Modal/index.tsx:229-236 | the tap handler is a no-op when the theme-resolved `closeOnOverlayClick` is exactly `false`; otherwise it is the close button's dismissal |
| `ModalSlots.OverlayViewOf` | src/components/composites/Modal/index.tsx:219-237 | the box keeps the caller's props except `children`, with `style` forced to `modalOverlayStyle`; the context's `modalOverlayProps` are ignored; the touch region has that style, is not accessible, and its `onPress` is `BackdropPress` |
| `ModalSlots.SlotsWithoutProvider` | src/components/composites/Modal/index.tsx:45-62 | under the default context: plain slots show exactly the caller's props; the content is '60%' wide unless the caller sets `width`; the close button and backdrop handlers dismiss through two no-ops |
| `ModalController.Presentation` | src/components/composites/Modal/index.tsx:106-132 | the content handed to `setOverlay` carries the provider value of the render that fired the effect (its `visible` is the pre-effect `isVisible`), the container layout `ContainerProps`, the backdrop choice, the options record, and the `onShow` of that render |
| `ModalController.Effect` | src/components/composites/Modal/index.tsx:106-140 | afterwards `isVisible == isOpen`, whatever it was before; when open, exactly one `setOverlay` call is logged and the content is presented; when closed, exactly one `closeOverlay` call and nothing is presented; no caller callback runs; the invariant holds |
| `ModalController.Mounted` | src/components/composites/Modal/index.tsx:83-140 | `isVisible` starts true and the effect runs once at mount, so the first state has `isVisible == isOpen` and a log of exactly one registry call |
| `ModalController.Rerendered` | src/components/composites/Modal/index.tsx:106-140 | a render whose `isOpen` equals the previous one changes only the props; one that differs is exactly `Effect` on the new props, so `isVisible == isOpen` and exactly one registry call is logged; the invariant is preserved |
| `ModalController.Invoked` | src/components/composites/Modal/index.tsx:210-213 | running the dismissal closure, or any toggle, never changes the props or the registry, and only appends `onClose` calls to the log |
| `ModalController.CloseButtonPressed` | src/components/composites/Modal/index.tsx:200-217 | a close-button press makes `isVisible` false and logs `onClose(false)` when `onClose` was supplied (nothing when it was not); the registry and the props are unchanged |
| `ModalController.BackdropPressed` | src/components/composites/Modal/index.tsx:219-236 | a backdrop press changes nothing when the captured `closeOnOverlayClick` is exactly `false`; otherwise it is exactly a close-button press |
| `ModalController.BackdropPresenceAndTapReadDifferentProps` | src/components/composites/Modal/index.tsx:102 | with the caller's `closeOnOverlayClick` absent and the theme's `false`, the backdrop is rendered and `closeOnPress` is true, but the tap handler is a no-op |
| `ModalController.EmptyStringKeptByLayoutSkippedByWidth` | src/components/composites/Modal/index.tsx:99-100 | an empty `justifyContent` is kept by the container's `??`, while an empty `_width` is skipped by the content width's or-chain |
| `ModalController.RegistryDismissed` | src/components/composites/Modal/index.tsx:123-128 | when the registry takes the content away by itself, nothing is presented; the Modal's props, `isVisible` and log are unchanged, and the invariant is preserved |
| `ModalController.Shown` | src/components/composites/Modal/index.tsx:129-131 | the completion callback calls `onShow` exactly when one was supplied to the effect that presented the content; nothing else changes |
| `ModalController.Modal.Mount` | src/components/composites/Modal/index.tsx:83-140 | mounting leaves the instance valid, with `isVisible == isOpen` and content presented iff `isOpen` |
| `ModalController.Modal.SetOverlay` | src/components/composites/Modal/index.tsx:109-132 | the registry presents the given content and the call is logged with its options; nothing else changes |
| `ModalController.Modal.CloseOverlay` | src/components/composites/Modal/index.tsx:135 | the registry presents nothing and the call is logged; nothing else changes |
| `ModalController.Modal.RunEffect` | src/components/composites/Modal/index.tsx:106-140 | the new state is `Effect` of the old one |
| `ModalController.Modal.Rerender` | src/components/composites/Modal/index.tsx:89-140 | the new state is `Rerendered` of the old one, with the props re-resolved through the theme; the instance stays valid |
| `ModalController.Modal.Invoke` | src/components/composites/Modal/index.tsx:92-93 | running a closure changes the state as `Invoked` says; run with `false`, as the press handlers do, it keeps the instance valid |
| `ModalController.Modal.PressCloseButton` | src/components/composites/Modal/index.tsx:210-213 | `isVisible` becomes false, `onClose(false)` is logged if supplied, and the registry and props stay as they were; the instance stays valid |
| `ModalController.Modal.PressBackdrop` | src/components/composites/Modal/index.tsx:229-236 | the new state is `BackdropPressed` of the old one; the instance stays valid |
| `ModalController.Modal.OverlayShown` | src/components/composites/Modal/index.tsx:129-131 | the new state is `Shown` of the old one |
| `ModalController.Modal.RegistryDismiss` | src/components/composites/Modal/index.tsx:123-128 | the new state is `RegistryDismissed` of the old one; the instance stays valid |
| `ModalTraces.Step` | src/components/composites/Modal/index.tsx:106-140 | every event, including the registry taking content away, preserves the invariant: content is presented only while `isOpen`, the presented context is a provider value, and `isVisible` implies `isOpen` |
| `ModalTraces.StepRegistryCalls` | src/components/composites/Modal/index.tsx:106-140 | one event adds a `setOverlay` call iff it turns `isOpen` true, a `closeOverlay` call iff it turns `isOpen` false, and no registry call otherwise |
| `ModalTraces.RegistryCallsFollowEdges` | src/components/composites/Modal/index.tsx:106-140 | over any event sequence, `setOverlay` is called once per false-to-true edge of `isOpen` and `closeOverlay` once per true-to-false edge; presses never call the registry |
| `ModalTraces.RegistryCallsFromMount` | src/components/composites/Modal/index.tsx:84-140 | counting from mount, the first render adds one `setOverlay` when `isOpen` starts true and one `closeOverlay` when it starts false |
| `ModalTraces.RunKeepsInv` | src/components/composites/Modal/index.tsx:84-136 | the invariant holds after any sequence of renders, presses, completions and registry dismissals |
| `ModalTraces.RendersNeverCallCaller` | src/components/composites/Modal/index.tsx:106-140 | renders alone, however `isOpen` toggles, never call `onClose` or `onShow` |
| `ModalTraces.OnlyCompletionsCallOnShow` | src/components/composites/Modal/index.tsx:129-131 | `onShow` is called only by the completion callback: a run without completions adds no `onShow` call |
| `ModalTraces.EveryPressCallsOnClose` | src/components/composites/Modal/index.tsx:210-213 | `n` close-button presses log `onClose(false)` exactly `n` times; the registry keeps presenting, and `isVisible` is false after the first press |

## Left out

- Rendering is not modelled: `Box`, `View`, `CloseButton`, `TouchableOpacity` and the styled `StyledModal` (index.tsx:29-43). Slots are modelled only through the props they compute.
- The `KeyboardAvoidingView` and `Platform.OS` wrapping (index.tsx:112-120), and the `ref`, `id`/`nativeID` and `h="100%"` of the outer box are left out. They are platform layout and do not change any decision.
- The commented-out React Native modal (index.tsx:141-170) is dead code. Focus handling (`initialFocusRef`, `finalFocusRef`) and `motionPreset` are used only there, so they are not modelled.
- `closeOverlayInMobile` (index.tsx:85-88) is defined but never called, so it is not modelled.
- `useOverlay` (core/Overlay) is not part of this model. Its content is treated as opaque. The model does not say when it runs the completion callback, or what it does with the options' `onClose` and `closeOnPress`. It does not model stacking or replacement between several modals either. `setOverlay` sets `overlay`, `closeOverlay` clears it, the completion may run at any later point while the content is presented, and the registry may clear `overlay` by itself. Whatever else it does when it clears `overlay` by itself, such as calling `onClose`, is not modelled.
- Unmounting the Modal is not modelled. The effect returns no cleanup function, so unmounting an open Modal leaves its content presented by the registry.
- `useThemeProps` (hooks) is not part of this model. It is an arbitrary function of the remaining props, fixed at mount.
- `ModalController.Invoked`: a function the caller supplies (`Closure.Opaque`) is treated as having no effect on the modal's state, because its body is not available.
- `memo` and `forwardRef` are left out. The effect's `[isOpen]` dependency list is modelled as "the effect fires at mount and on a render whose `isOpen` differs from the previous render's".
- Presses and completions are events on the presented content. A `Modal` method requires that content to be presented. In a trace, such an event is dropped when nothing is presented.
- `children` are opaque and are not modelled.
- Spreading a string (`{..."ab"}` copies indexed characters) is modelled as spreading nothing. Numbers are integers, so NaN and -0 (both falsy) are not represented.
- `isOpen` is a boolean. A non-boolean `isOpen` (for example undefined) would be stored as-is by `setIsVisible`; that case is not modelled.
- `onClose` and `onShow` are modelled as either absent or a function. A truthy value that is not a function is not represented.
- `src/components/composites/Alert/types.tsx` holds only type declarations and is not modelled.
