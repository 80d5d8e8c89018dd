# Portfolio UI logic, modelled in Dafny

This project models the parts of a personal portfolio site that carry real
logic. Everything else on the site is static markup. The modelled parts are:

- **The demo form** (`FormExample`). The validator gives each field at most
  one exact message. The rules are: required after `trim()`, a minimum
  untrimmed length, and the email regular expression
  `^[^\s@]+@[^\s@]+\.[^\s@]+$`. The component state is `formData`, `errors`
  and `isSubmitting`. `handleChange` and `handleSubmit` update it, and the
  simulated submission's completion resets it.
- **The accessible form components**: `TextInput`, `SelectInput`,
  `TextArea`, `FormField`, `Label` and `ErrorMessage`. Each one is a pure
  function from its props to a record of what it renders. That covers:
  - the element id, with its `-error` and `-helper` suffixes;
  - `aria-describedby`, `aria-invalid` and `aria-required`;
  - the class lists built with `filter(Boolean).join(' ')`;
  - which helper, error, placeholder and required-marker nodes appear;
  - how spread props and `cloneElement` merge with the computed attributes.

  It also covers `TextArea`'s change handler order and its ref fan-out.
- **The particle background** (`ParticleSystem`). This is a class holding:
  - the effect's array of particles;
  - the container's children;
  - the pending timeouts, on a discrete millisecond clock;
  - the repeating interval.

  The model has these steps: the effect's 50 staggered creations, the
  600 ms interval, each particle's 30 s removal, and the cleanup as the
  code writes it. The environment advances the clock by firing the earliest
  pending timer.
- **The scroll-reveal hook** (`useScrollReveal`). The latch `isVisible` is
  set by the first intersecting callback batch while the component is
  mounted. The element is observed only if it is rendered, and observation
  ends with a reveal or a cleanup only while `ref.current` still holds the
  element, that is, while the component is mounted.
- **The navigation bar**. Its state is `isScrolled`, `isMobileMenuOpen` and
  the window scroll listener. Its class names are derived from those two
  flags.

The form's field values are sequences of UTF-16 code units, as in
JavaScript, because `length` and the regular expression count code units. The
components' string props are Dafny strings, since they are only tested for
emptiness, compared and concatenated. An omitted optional string prop is the
empty string: the core only tests such props for truthiness. The whitespace
that `trim()` strips and `\s` matches is the
ECMAScript WhiteSpace and LineTerminator set, listed code point by code
point. A CSS-module class name is modelled as its key, for example
`formField--error`. The proofs only use that each is a single token. The
browser reads a class or id-reference list by splitting on ASCII whitespace
(tab, line feed, form feed, carriage return and space) and dropping empty
pieces (`TokenList.Words`), as the HTML Living Standard defines
space-separated tokens. The class-list lemmas are stated in those terms.

The particle cleanup at `particle-system.tsx:49-56` only clears the
interval and detaches the listed particles. The stagger and removal
timeouts stay pending, and a later creation still appends to the captured
container and to the array. The model does exactly that:
`ParticleSystem.ParticleSystem.Create` is allowed after `Cleanup`.

The scroll-reveal cleanup and callback read `ref.current` again. On unmount
React has already detached the ref by then, so the cleanup skips `unobserve`
and an element not yet revealed stays observed. A batch delivered to that
discarded observer changes nothing: setting state on an unmounted component
is a no-op and the ref is null. `ScrollReveal.RevealHook.Unmount` and
`ScrollReveal.RevealHook.OnEntries` state this.

## Model

| member | source | states |
|---|---|---|
| FormExample.With | client/src/components/forms/FormExample.tsx:34 | The named field takes the new value; every other field keeps its own. |
| FormExample.Validate | client/src/components/forms/FormExample.tsx:46-72 | Only name, email, role and message can have an error, and every recorded message is a non-empty string. |
| FormExample.ValidateFields | client/src/components/forms/FormExample.tsx:46-72 | A field has an entry exactly when its own rule, applied to its own value, yields a message, and the entry is that message. |
| FormExample.NameRule | client/src/components/forms/FormExample.tsx:49-53 | 'Name is required' exactly when the value is all whitespace. 'Name must be at least 2 characters' exactly when it is one non-whitespace code unit. Otherwise no message. |
| FormExample.EmailRule | client/src/components/forms/FormExample.tsx:55-59 | 'Email is required' exactly when the value is all whitespace. 'Please enter a valid email address' exactly when it is not blank and not email-shaped. No message exactly when it is email-shaped. |
| EmailPattern.MatchesIff | client/src/components/forms/FormExample.tsx:57 | The pattern matches a string exactly when it has no whitespace and exactly one '@', not the first unit, followed later by a '.' with at least one code unit on each side. |
| FormExample.RoleRule | client/src/components/forms/FormExample.tsx:61-63 | 'Please select a role' exactly when the role is the empty string; the role is not trimmed. |
| FormExample.MessageRule | client/src/components/forms/FormExample.tsx:65-69 | 'Message is required' exactly when the value is all whitespace. 'Message must be at least 10 characters' exactly when it is not blank but shorter than 10 code units. Otherwise no message. |
| FormExample.ValidateEmptyIff | client/src/components/forms/FormExample.tsx:46-79 | Validation finds no error exactly when all four rules are met. The rules are stated without the validator; the custom field plays no part. |
| FormExample.ValidateIndependent | client/src/components/forms/FormExample.tsx:46-72 | Changing one field leaves every other field's error, or its absence, unchanged. |
| JsText.TrimEmptyIff | client/src/components/forms/FormExample.tsx:49 | `!s.trim()` holds exactly when every code unit is whitespace. |
| JsText.TrimStartShape | client/src/components/forms/FormExample.tsx:49 | `trimStart` removes a whitespace prefix and keeps a suffix that starts with non-whitespace. |
| JsText.TrimEndShape | client/src/components/forms/FormExample.tsx:49 | `trimEnd` removes a whitespace suffix and keeps a prefix that ends with non-whitespace. |
| JsText.TrimSlice | client/src/components/forms/FormExample.tsx:49 | A trimmed string is a slice of the original, and a non-empty one starts and ends with non-whitespace. |
| FormExample.FormState.constructor | client/src/components/forms/FormExample.tsx:19-28 | All five fields start empty, there are no errors, and no submission is running. |
| FormExample.FormState.HandleChange | client/src/components/forms/FormExample.tsx:30-44 | Only the named field changes. Only that field's error is removed, and only if it is non-empty. `isSubmitting` is unchanged. Every error shown stays the one validation gives for the current data. |
| FormExample.FormState.HandleSubmit | client/src/components/forms/FormExample.tsx:74-84 | With validation errors, the error map becomes exactly those errors and no submission starts. Without them, `isSubmitting` becomes true and the (empty) error map is kept. |
| FormExample.FormState.CompleteSubmit | client/src/components/forms/FormExample.tsx:87-100 | The completed submission resets all five fields to '' and ends submitting; no error is shown. |
| Field.IdOf | client/src/components/forms/TextInput.tsx:56-57 | The id is the provided id when it is non-empty, otherwise the auto id. |
| Field.IdsDistinct | client/src/components/forms/TextInput.tsx:58-59 | The error id and helper id extend the id, differ from it and from each other, and are single tokens when the id is one. |
| Field.DescribedBy | client/src/components/forms/TextInput.tsx:63-66 | The attribute is absent exactly when there is neither helper text nor an error. Otherwise it is the helper id, the error id, or both in that order, separated by one space. |
| Field.DescribedByWords | client/src/components/forms/TextInput.tsx:63-66 | For a token id, the browser reads the helper id (when there is helper text) and then the error id (when there is an error). |
| Field.DescribedByNames | client/src/components/forms/TextInput.tsx:63-66 | `aria-describedby` names the helper id exactly when there is helper text and the error id exactly when there is an error, and nothing else. It names the helper id even when an error hides the helper. |
| Field.ContainerClassesWords | client/src/components/forms/TextInput.tsx:68-73 | The container's classes are formField, then the error class iff there is an error, then the disabled class iff disabled, then the caller's classes. No stray spaces when those are well-formed. |
| Field.LabelClasses | client/src/components/forms/TextInput.tsx:82-84 | The label's extra class is the visually-hidden class iff `hideLabel`, otherwise the empty string. |
| Field.HelperNode | client/src/components/forms/TextInput.tsx:109-113 | The helper paragraph appears iff there is helper text and no error, with the helper id, the helper class and the text. |
| TextInput.InputClassesWords | client/src/components/forms/TextInput.tsx:75-80 | The input's classes are input, then the error class iff there is an error, then `inputClassName`, then `className`, with empties dropped. |
| TextInput.Render | client/src/components/forms/TextInput.tsx:56-117 | Every rendered piece, tied to the props. The label points at the input's id, and `type` defaults to 'text'. `aria-invalid` holds iff the error node is shown, and `aria-required` and `disabled` follow the props. The spread holds the props not destructured. The helper appears iff there is helper text and no error, and the error node iff there is an error. |
| TextInput.AttributesOf | client/src/components/forms/TextInput.tsx:97-107 | In the DOM attributes, every spread prop wins over the computed one; the others keep the computed values. |
| TextInput.SpreadWins | client/src/components/forms/TextInput.tsx:40-107 | `id`, `type`, the class and `disabled` are destructured, so they are always the component's own. Any passed-on prop replaces a computed `aria-*` value. |
| TextInput.DescribedByReferences | client/src/components/forms/TextInput.tsx:63-115 | Every id `aria-describedby` names belongs to a rendered node, except the helper id when both helper text and an error are present. Every rendered helper or error node is named. |
| SelectInput.WrapperClassesWords | client/src/components/forms/SelectInput.tsx:89-92 | The wrapper's classes are selectWrapper plus its error class iff there is an error. |
| SelectInput.SelectClassesWords | client/src/components/forms/SelectInput.tsx:94-99 | The select's classes are select, then the error class iff there is an error, then `selectClassName`, then `className`, with empties dropped. |
| SelectInput.OptionList | client/src/components/forms/SelectInput.tsx:127-140 | A disabled, empty-valued placeholder option comes first iff there is placeholder text. Then each given option follows in order, with its own value, label and disabled flag. |
| SelectInput.OptionListContents | client/src/components/forms/SelectInput.tsx:127-140 | Every supplied option is rendered, and the only other option is the placeholder. |
| SelectInput.Render | client/src/components/forms/SelectInput.tsx:70-155 | The same id, label, `aria-*`, helper and error composition as the text input, plus the wrapper's error class and the option list. |
| TextArea.TextareaClassesWords | client/src/components/forms/TextArea.tsx:113-119 | The textarea's classes are textarea, then the auto-resize class iff `autoResize`, then the error class iff there is an error, then `textareaClassName`, then `className`. |
| TextArea.Render | client/src/components/forms/TextArea.tsx:61-156 | The shared composition, with `rows` defaulting to 4 and the spread holding the props not destructured. |
| TextArea.HandleChange | client/src/components/forms/TextArea.tsx:82-85 | A change resizes iff `autoResize` is set and the element is mounted. It then forwards the event, last, to `onChange` iff one was given. |
| TextArea.SetRefs | client/src/components/forms/TextArea.tsx:88-97 | The element goes to the internal ref, to an object ref's `current`, or as one more call to a function ref. |
| FormField.MergeChildWins | client/src/components/forms/FormField.tsx:80-88 | The child keeps every prop it sets itself and receives each injected prop it lacks: id, `aria-invalid`, `aria-describedby`, `aria-required`, `disabled`. |
| FormField.Render | client/src/components/forms/FormField.tsx:56-111 | The injected id is the derived one the label points at. `aria-invalid` holds iff the error node is shown. `aria-describedby` follows the helper-then-error rule. The container classes, helper and error node follow the shared rules. |
| FormField.LabelAssociation | client/src/components/forms/FormField.tsx:80-98 | The label stays attached iff the child sets no id of its own or sets the derived one. The child is marked invalid on an error iff it does not override `aria-invalid`. |
| Label.ClassesWords | client/src/components/forms/Label.tsx:40-44 | The label's classes are label, then its error class iff `error`, then the caller's classes. |
| Label.Render | client/src/components/forms/Label.tsx:28-62 | `htmlFor` is the given one. The required marker appears iff `required`, with `requiredText` defaulting to '(required)'. The other props are passed on. |
| Label.AttributesOfRender | client/src/components/forms/Label.tsx:36-52 | Passed-on props cannot replace `htmlFor` or the class; every other attribute is the passed-on one. |
| ErrorMessage.ClassesWords | client/src/components/forms/ErrorMessage.tsx:32-35 | The error region's classes are errorMessage then the caller's classes. |
| ErrorMessage.Render | client/src/components/forms/ErrorMessage.tsx:27-53 | Nothing renders iff the message is empty. Otherwise the region carries the given id and `role="alert"`, `aria-live="polite"`, `aria-atomic="true"`, the icon iff `showIcon` (default true), and the text. |
| Props.Spread | client/src/components/forms/FormField.tsx:80-88 | Object spread holds the keys of both, the later object winning. |
| Props.Rest | client/src/components/forms/TextInput.tsx:39-53 | The rest of a destructuring holds every key but the named ones, each with its value. |
| Props.OrUndefined | client/src/components/forms/TextInput.tsx:103 | The `\|\| undefined` half of `describedBy \|\| undefined`: undefined exactly for the empty list, which `Field.DescribedBy` gives as `None` exactly when neither helper text nor error is present; otherwise the joined string. |
| TokenList.BuildIsJoinCompact | client/src/components/forms/TextInput.tsx:68-73 | The class-list builder is `filter(Boolean)` followed by `join(' ')`. |
| TokenList.BuildEmptyIff | client/src/components/forms/TextInput.tsx:63-66 | A built list is empty exactly when every entry is empty, which is when `describedBy \|\| undefined` leaves the attribute off. |
| TokenList.WordsBuild | client/src/components/forms/TextInput.tsx:68-73 | The tokens the browser reads from a built list are the tokens of its entries, in order. |
| TokenList.BuildWellFormed | client/src/components/forms/TextInput.tsx:68-73 | A list built from well-formed entries has no leading, trailing or doubled space. |
| ParticleSystem.ParticleSystem.constructor | client/src/components/particle-system.tsx:3-11 | Before the effect runs there are no particles, no children, no timers, and the clock is at 0. |
| ParticleSystem.ParticleSystem.Effect | client/src/components/particle-system.tsx:7-47 | Without a container nothing is created or scheduled. With one, exactly 50 creations are pending, the i-th due i × 200 ms from now, and the interval is due 600 ms from now. |
| ParticleSystem.ParticleSystem.Create | client/src/components/particle-system.tsx:13-38 | A fresh particle is appended to the array and to the container, and its removal is scheduled 30000 ms from now. The invariant is kept. |
| ParticleSystem.ParticleSystem.Expire | client/src/components/particle-system.tsx:30-37 | An attached particle is detached. Its one entry is spliced out of the array, leaving one entry fewer in each and the others in order. A detached particle changes nothing. |
| ParticleSystem.ParticleSystem.FireTimeout | client/src/components/particle-system.tsx:30-43 | The clock reaches the earliest timeout, which leaves the pending list and runs its creation or removal. The invariant is kept. |
| ParticleSystem.ParticleSystem.FireInterval | client/src/components/particle-system.tsx:47 | The clock reaches the interval, which creates a particle and comes due again 600 ms later. |
| ParticleSystem.ParticleSystem.Cleanup | client/src/components/particle-system.tsx:49-56 | The interval stops and the container ends empty. The array is not emptied and no pending timeout is cancelled. |
| ParticleSystem.DetachAll | client/src/components/particle-system.tsx:51-55 | Detaching each listed particle that is still attached leaves the container's children minus the listed ones, in order. |
| ParticleSystem.IndexOf | client/src/components/particle-system.tsx:33 | `indexOf` returns the first index of the particle, and -1 exactly when it does not occur. |
| ParticleSystem.SpliceIsKeep | client/src/components/particle-system.tsx:33-36 | Splicing out the index of a particle that occurs once removes that particle and nothing else. |
| ParticleSystem.KeepOneLess | client/src/components/particle-system.tsx:31-36 | Removing a particle that occurs once leaves exactly one entry fewer. |
| ParticleSystem.BooksBeforeCleanup | client/src/components/particle-system.tsx:24-36 | Before cleanup, the array is the created particles minus the expired ones, in creation order. It has no duplicates and equals the container's children. |
| ParticleSystem.BooksNoDup | client/src/components/particle-system.tsx:14-27 | In every state, neither the array nor the container holds a particle twice. |
| ParticleSystem.BooksCreate | client/src/components/particle-system.tsx:24-27 | A creation appends a particle not yet attached and keeps the bookkeeping invariant. |
| ParticleSystem.BooksExpire | client/src/components/particle-system.tsx:31-36 | An expiry of an attached particle keeps the bookkeeping invariant, with that particle counted as expired. |
| ParticleSystem.BooksCleanup | client/src/components/particle-system.tsx:51-55 | The cleanup's detaching leaves the container empty and keeps the bookkeeping invariant, with every listed particle detached. |
| ParticleSystem.ScheduledCreate | client/src/components/particle-system.tsx:30-38 | A fresh particle's removal joins the pending ones, so every attached particle still has its removal pending. |
| ParticleSystem.SpliceKeepsSchedule | client/src/components/particle-system.tsx:30-38 | Taking out a fired timer keeps every attached particle's removal pending, unless it was that particle's removal. |
| ParticleSystem.SpliceKeepsTimed | client/src/components/particle-system.tsx:42-47 | Taking out a timer leaves no other pending timer overdue. |
| ScrollReveal.Resolve | client/src/hooks/use-scroll-reveal.tsx:9-10 | An omitted threshold is 0.1 and an omitted root margin is '0px 0px -100px 0px'; a given one is used as is. |
| ScrollReveal.RevealIff | client/src/hooks/use-scroll-reveal.tsx:16-23 | After a run of callbacks the element is visible exactly when it already was or some batch's first entry intersected. Later entries of a batch never matter. |
| ScrollReveal.RevealLatches | client/src/hooks/use-scroll-reveal.tsx:17-23 | Once visible, no further callback makes `isVisible` false again. |
| ScrollReveal.RevealHook.constructor | client/src/hooks/use-scroll-reveal.tsx:10-12 | `isVisible` starts false, the component is mounted, nothing is observed, and the options are resolved. |
| ScrollReveal.RevealHook.Effect | client/src/hooks/use-scroll-reveal.tsx:14-33 | In a mounted component the element is observed exactly when it is rendered; `isVisible` is unchanged. |
| ScrollReveal.RevealHook.OnEntries | client/src/hooks/use-scroll-reveal.tsx:16-24 | Only the first entry counts. While mounted, an intersecting one sets `isVisible` and ends the observation. After unmount, and for any other batch, nothing changes. |
| ScrollReveal.RevealHook.Cleanup | client/src/hooks/use-scroll-reveal.tsx:35-39 | The observation ends exactly when `ref.current` still holds the element, that is, while mounted; otherwise it goes on. `isVisible` is left as it was. |
| ScrollReveal.RevealHook.Unmount | client/src/hooks/use-scroll-reveal.tsx:35-39 | The component is unmounted and the ref detached before the cleanup, so the cleanup skips `unobserve`: the observation stays as it was, and so does `isVisible`. |
| ScrollReveal.RevealHook.Rerender | client/src/hooks/use-scroll-reveal.tsx:14-40 | In a mounted component, changed options run the cleanup and then the effect, which observes a rendered element again even after the reveal. Unchanged options run nothing. `isVisible` keeps its value. |
| Navigation.NavigationBar.constructor | client/src/components/navigation.tsx:9-10 | The bar starts not scrolled with the menu closed. |
| Navigation.NavigationBar.Mount | client/src/components/navigation.tsx:12-17 | The effect registers the scroll listener and changes neither flag. |
| Navigation.NavigationBar.OnScroll | client/src/components/navigation.tsx:13-15 | After a scroll event, `isScrolled` holds exactly when `scrollY` is strictly greater than 50; the menu is untouched. |
| Navigation.NavigationBar.ToggleMenu | client/src/components/navigation.tsx:72 | The menu button flips `isMobileMenuOpen` and nothing else. |
| Navigation.NavigationBar.ScrollToSection | client/src/components/navigation.tsx:21-27 | The menu closes exactly when the target section exists; otherwise no state changes. |
| Navigation.NavigationBar.Unmount | client/src/components/navigation.tsx:18 | The cleanup removes the listener and changes neither flag. |
| Navigation.NavigationClassWords | client/src/components/navigation.tsx:29-31 | The bar's classes are the base class and then the scrolled class iff scrolled, otherwise the transparent class. |
| Navigation.MobileMenuClassWords | client/src/components/navigation.tsx:33-35 | The mobile menu's classes are the base class and then the open class iff open, otherwise the closed class. |

## Left out

- The random size, position, duration and delay of each particle (`particle-system.tsx:17-22`): floating-point randomness with no effect on the bookkeeping.
- The particle's class name and style writes, and `TextArea`'s height writes from `scrollHeight` (`TextArea.tsx:70-76`). These are DOM layout effects; `TextArea.HandleChange` records only whether the resize runs.
- The `useEffect` in `TextArea` that resizes on mount (`TextArea.tsx:78-80`): it is the same DOM write.
- The intersection test itself, that is, how the browser applies the threshold and root margin. An entry is given as its `isIntersecting` flag.
- `scrollIntoView` and its options in `scrollToSection`. `Navigation.NavigationBar.ScrollToSection` is given whether `document.getElementById` finds the section.
- framer-motion animations and hover effects, icons, `alert` and `console.log`.
- The 1000 ms delay of the simulated submission. Its callback is the separate step `FormExample.FormState.CompleteSubmit`.
- The generated names of CSS modules. Each class is its key, and only its being one token is used.
- `useId`'s generated value: the auto id is a parameter.
- Forwarding `ref` to `<input>`, `<select>` and `<label>`: React attaches the element. Only `TextArea`'s own ref fan-out is modelled (`TextArea.SetRefs`).
- FormExample.FormState.HandleChange: handles only the five field names the form renders, not an arbitrary `name` key.
- FormExample.FormState.HandleSubmit: requires that no submission is running. While one is running the submit button and every input are disabled (`FormExample.tsx:128-203`), so the handler cannot run.
- Particle identities come from a counter: each creation makes a fresh `<div>`. A particle's `parentNode` is non-null exactly when it is among the container's children.
- ParticleSystem.ParticleSystem.FireTimeout: timers run one at a time, earliest first, chosen by a precondition. Two timers due at the same millisecond run in either order.
- Unicode tables are not consulted: the whitespace set of `trim()` and `\s` is listed explicitly.
- The rest of the site: static page markup and text, the constant tables, routing, build configuration, and the animation wrapper around `isVisible`.
- ScrollReveal.RevealHook: the ref'd element is either rendered on every render or on none. A ref that is attached to a different element, or that comes and goes between renders, is not modelled.
- ScrollReveal.Resolve: the threshold is a `real`, so `-0` and `NaN` are not modelled, nor is the `Object.is` comparison of the effect's dependencies on them.
