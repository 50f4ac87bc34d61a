# welcome-ui-sample components, modelled in Dafny

This project models the behaviour of the two UI components of a small React
component library and of the validating form on the TextField example page.

- **Button** (`button.dfy`, module `ButtonComponent`) is a pure function from
  props to one `<button>`. It builds its class string from the base class, the
  variant class, the size class (left out at medium size), the disabled class
  and the caller's class name. It writes `type`, `className`, `disabled`,
  `onClick`, `data-testid` and `aria-label` after spreading the remaining props,
  so those six win over anything spread.
- **TextField** (`text_field.dfy`, module `TextFieldComponent`) is a labelled
  input. It is *controlled* when the caller passes `value`, and *uncontrolled*
  otherwise. An uncontrolled field owns one string, its internal value, seeded
  from `defaultValue || ""`. `TextFieldInstance` is a class holding that string,
  the mode fixed at mount, and the two ids from `useId`.
  - `HandleChange` overwrites the internal value only when the field is
    uncontrolled. In both modes it forwards the raw value to `onChange`.
  - The ghost field `onChangeCalls` records what `onChange` received.
  - `Render` is a pure function. From the props, the CSS module, the internal
    value and the two ids it gives the container, label, input and helper
    attributes: classes, `aria-describedby`, `aria-invalid`, the required marker
    and the test ids `{testId}-input` and `{testId}-helper`.
- **Demo form** (`text_field_entry.dfy`, module `TextFieldEntry`) is the
  example page's `InteractiveExample`. Its two controlled fields hold a name and
  an email. The name is rejected when shorter than two code units. The email is
  rejected when it is non-empty and does not match
  `^[^\s@]+@[^\s@]+\.[^\s@]+$`. Submit goes ahead only when neither check
  reports an error.
  - The pattern is hand-coded as `MatchesEmailPattern`.
  - `MatchesRegex` states what the regular expression means: three runs of
    `[^\s@]+` joined by `@` and `.`.
  - `EmailPatternIsRegex` proves the two agree on every string.

Shared pieces:
- `common.dfy` (module `Common`) holds the size and variant enums, optional
  props, element ids and CSS modules. A CSS module is a map from key to class
  name, and a key it lacks reads as `undefined`.
- `class_names.dfy` (module `ClassNames`) models `[...].filter(Boolean).join(" ")`.
  It also models how the DOM splits a class attribute into class names:
  `Tokens` splits at ASCII white space and keeps repeats, and `element.classList`
  is that list with repeats dropped. `TokensOfClassList` proves that, when no
  entry holds white space, the split gives exactly the truthy entries, in order. Membership (`HasClass`,
  `classList.contains`) is the same with or without repeats.

Details the model keeps from the code:
- `value.length` counts UTF-16 code units, so one character outside the Basic
  Multilingual Plane is a valid two-unit name (`Utf16Length`).
- `\s` is JavaScript's white-space class, not just ASCII white space.
- The helper's class is a template literal, not a filtered list. An undefined
  CSS class prints there as `undefined`, and without the error class the string
  ends in a space.
- Without a `testId` the input's test id is the string `undefined-input`.
- In controlled mode, typing a character at the end of the value makes
  `onChange` receive the shown value plus that character, while the field keeps showing `value`.
- A disabled input receives no keystrokes, so typing into it changes nothing
  and calls nothing.
- `onChange` is called only when it is given (`onChange?.(...)`).
- Ids are unique only among fields that draw from one `IdSource`, which stands
  for one React root. `IdSource` records every id it has handed out.
- Enum props are closed datatypes, as the TypeScript unions make them, so no
  other value can be passed.

## Model

| member | source | states |
|---|---|---|
| `ClassNames.Compact` | src/components/TextField/TextField.tsx:44 | `filter(Boolean)`: the truthy entries, in order, by definition; its contract says it never lengthens the list, and `CompactMembers` says which entries are kept |
| `ClassNames.Join` | src/components/TextField/TextField.tsx:45 | `join(" ")`: characterised by `TokensOfJoin` (splitting gives the parts back) and `JoinEndsWithLast` |
| `ClassNames.ClassList` | src/components/TextField/TextField.tsx:37-45 | the filter-and-join class string; `TokensOfClassList` proves it splits back into the truthy entries when no entry holds white space |
| `ClassNames.CompactMembers` | src/components/TextField/TextField.tsx:37-45 | `filter(Boolean)` keeps exactly the non-empty strings among the entries and drops `undefined`, `false` and `""` |
| `ClassNames.TokensOfJoin` | src/components/TextField/TextField.tsx:44-45 | reading back the tokens of `join(" ")` gives the joined parts when each part is one non-empty class name |
| `ClassNames.TokensOfClassList` | src/components/Button/Button.tsx:16-24 | when no entry holds white space, a class string built by filter-and-join splits at white space into exactly its truthy entries, in order (repeats kept) |
| `ClassNames.CompactLast` | src/components/Button/Button.tsx:21-23 | a truthy last entry is the last element after filtering |
| `ClassNames.JoinEndsWithLast` | src/components/Button/Button.tsx:24 | the joined string ends with the last part, after a space when there are several parts |
| `TextFieldComponent.Resolve` | src/components/TextField/TextField.tsx:10-19 | omitted props take their defaults (size medium, not disabled, no error, not required, type text, class name `""`); given props are kept |
| `TextFieldComponent.InitialValue` | src/components/TextField/TextField.tsx:22 | the seed is `defaultValue` when it is given and `""` otherwise (for strings `\|\|` agrees with `??`) |
| `TextFieldComponent.IsControlled` | src/components/TextField/TextField.tsx:26 | a field is controlled iff `value` is given; `DisplayedValueRule` states what that decides |
| `TextFieldComponent.DisplayedValue` | src/components/TextField/TextField.tsx:27 | the shown value: `value` when controlled, the internal value otherwise, as `DisplayedValueRule` proves of the render |
| `TextFieldComponent.Render` | src/components/TextField/TextField.tsx:51-84 | the rendered attributes; characterised by `DisplayedValueRule`, `AccessibilityAttributes`, `TestIds` and the class-token lemmas |
| `TextFieldComponent.DisplayedValueRule` | src/components/TextField/TextField.tsx:26-27 | a controlled field shows `value`, and its whole render does not depend on the internal value; an uncontrolled field shows its internal value |
| `TextFieldComponent.ContainerClasses` | src/components/TextField/TextField.tsx:37-45 | the container class string; `ContainerClassTokens` gives its class names |
| `TextFieldComponent.InputClasses` | src/components/TextField/TextField.tsx:47-49 | the input class string; `InputClassTokens` gives its class names |
| `TextFieldComponent.HelperClasses` | src/components/TextField/TextField.tsx:77 | the helper class template literal; `HelperClassTokens` gives its class names |
| `TextFieldComponent.ContainerClassTokens` | src/components/TextField/TextField.tsx:37-45 | the container's tokens are, in order: container, size, disabled if disabled, error if in error, then the caller's class unless it is empty; a non-empty caller class is present |
| `TextFieldComponent.InputClassTokens` | src/components/TextField/TextField.tsx:47-49 | the input's tokens are the input class, then the error class when in error; a defined, distinct error class is present iff `error` |
| `TextFieldComponent.HelperClassTokens` | src/components/TextField/TextField.tsx:77 | the helper's tokens are the helper class, then the error-text class when in error |
| `TextFieldComponent.ShowsHelper` | src/components/TextField/TextField.tsx:69-74 | `helperText` is truthy: given and non-empty; `AccessibilityAttributes` states that the helper and `aria-describedby` appear exactly then |
| `TextFieldComponent.AccessibilityAttributes` | src/components/TextField/TextField.tsx:53-82 | the helper is rendered, and referenced by `aria-describedby`, iff the helper text is non-empty; the helper id differs from the input id; the label's `htmlFor` is the input id; `aria-invalid` equals `error`; the `*` marker and `required` follow `required` |
| `TextFieldComponent.InputTestId` | src/components/TextField/TextField.tsx:71 | `${testId}-input`; `TestIds` and `InputTestIdInjective` characterise it |
| `TextFieldComponent.HelperTestId` | src/components/TextField/TextField.tsx:78 | `${testId}-helper`; `TestIds` characterises it |
| `TextFieldComponent.TestIds` | src/components/TextField/TextField.tsx:71-78 | the input's and helper's test ids are `testId` plus `-input` and `-helper`; all three test ids differ; without a `testId` the input's is `undefined-input` |
| `TextFieldComponent.InputTestIdInjective` | src/components/TextField/TextField.tsx:71 | equal input test ids come from `testId`s that print the same (an omitted one prints as `undefined`, so it and the string "undefined" give the same test id) |
| `TextFieldComponent.KeystrokeValues` | src/components/TextField/tests/TextField.test.tsx:36-46 | typing N characters yields N change values, and when the field keeps what is typed the last is the shown value followed by the whole text |
| `TextFieldComponent.IdSource.UseId` | src/components/TextField/TextField.tsx:23-24 | each call hands out an id not in the record of ids handed out before, adds it to that record, and keeps every recorded id below the counter |
| `TextFieldComponent.TextFieldInstance.constructor` | src/components/TextField/TextField.tsx:22-26 | mounting fixes the mode from whether `value` is given and seeds the internal value from `defaultValue`; it takes two distinct ids that the id source had not handed out before |
| `TextFieldComponent.TextFieldInstance.HandleChange` | src/components/TextField/TextField.tsx:29-35 | an uncontrolled field keeps the new raw value, a controlled one keeps its internal value; `onChange`, when given, receives the raw value exactly once |
| `TextFieldComponent.TextFieldInstance.TypeText` | src/components/TextField/tests/TextField.test.tsx:130-138 | typing a text into an enabled uncontrolled field appends it and sends `onChange` each cumulative value; an enabled controlled field keeps showing `value`, and `onChange` gets `value` plus each typed character; a disabled field changes nothing and calls nothing |
| `ButtonComponent.Variant` | src/components/Button/Button.tsx:6 | the variant, `primary` when omitted; `OmittedPropsTakeDefaults` characterises it |
| `ButtonComponent.Size` | src/components/Button/Button.tsx:7 | the size, `medium` when omitted; `OmittedPropsTakeDefaults` characterises it |
| `ButtonComponent.Disabled` | src/components/Button/Button.tsx:8 | the disabled flag, `false` when omitted; `OmittedPropsTakeDefaults` characterises it |
| `ButtonComponent.CustomClass` | src/components/Button/Button.tsx:10 | the caller's class name, `""` when omitted; `OmittedPropsTakeDefaults` characterises it |
| `ButtonComponent.ButtonType` | src/components/Button/Button.tsx:12 | the `type`, `"button"` when omitted; `OmittedPropsTakeDefaults` characterises it |
| `ButtonComponent.AriaLabel` | src/components/Button/Button.tsx:13 | the `aria-label`, `""` when omitted; `OmittedPropsTakeDefaults` characterises it |
| `ButtonComponent.OmittedPropsTakeDefaults` | src/components/Button/Button.tsx:4-15 | omitting a prop renders the same as passing its default: variant primary, size medium, not disabled, type `button`, class name and aria-label `""` |
| `ButtonComponent.ButtonClasses` | src/components/Button/Button.tsx:16-24 | the button class string; `ButtonClassTokens`, `MediumSizeEmitsNoSizeClass` and `CustomClassComesLast` characterise it |
| `ButtonComponent.ButtonClassTokens` | src/components/Button/Button.tsx:16-24 | the button's tokens are, in order: base, variant, size unless medium, disabled if disabled, then the caller's class unless it is empty |
| `ButtonComponent.MediumSizeEmitsNoSizeClass` | src/components/Button/Button.tsx:19 | at medium size the class string does not depend on the stylesheet's medium class, whatever its value and whether it exists |
| `ButtonComponent.CustomClassComesLast` | src/components/Button/Button.tsx:21 | a non-empty caller class ends the class string, after a space when anything precedes it, and is the last token |
| `ButtonComponent.Rest` | src/components/Button/Button.tsx:14 | `...rest`: the passed attributes without the destructured props; `NamedAttributesOverrideRest` states it |
| `ButtonComponent.NamedAttributes` | src/components/Button/Button.tsx:29-34 | the six attributes written after the spread; `NamedAttributesOverrideRest` states they win |
| `ButtonComponent.Render` | src/components/Button/Button.tsx:26-38 | the rendered `<button>`: spread first, named attributes after; `NamedAttributesOverrideRest` and `ClicksReachOnClick` characterise it |
| `ButtonComponent.NamedAttributesOverrideRest` | src/components/Button/Button.tsx:27-34 | the six named attributes take the component's values whatever was spread, other passed attributes are kept, and destructured props never reach the element |
| `ButtonComponent.Activate` | src/components/Button/Button.tsx:31-32 | one activation runs the rendered `onClick` unless the rendered `disabled` is set; `ClicksReachOnClick` states it over n activations |
| `ButtonComponent.ClicksReachOnClick` | src/components/Button/Button.tsx:31-32 | over n activations, an enabled button with `onClick` runs it exactly n times, and a disabled one never runs it |
| `TextFieldEntry.Utf16Length` | src/views/TextField/Entry.tsx:14 | `length` in UTF-16 code units; `Utf16LengthBounds` bounds it and `NameHasError` uses it |
| `TextFieldEntry.Utf16LengthBounds` | src/views/TextField/Entry.tsx:14 | `length` lies between the number of characters and twice that number |
| `TextFieldEntry.NameHasError` | src/views/TextField/Entry.tsx:13-17 | a name is an error iff it is empty or a single Basic Multilingual Plane character |
| `TextFieldEntry.MatchesRegex` | src/views/TextField/Entry.tsx:20 | what the regular expression matches; `EmailPatternIsRegex` ties it to the hand-coded test |
| `TextFieldEntry.MatchesEmailPattern` | src/views/TextField/Entry.tsx:20 | the hand-coded test; `EmailPatternIsRegex` and `EmailPatternShape` characterise it |
| `TextFieldEntry.EmailPatternIsRegex` | src/views/TextField/Entry.tsx:20 | the hand-coded test accepts exactly the strings that `^[^\s@]+@[^\s@]+\.[^\s@]+$` matches |
| `TextFieldEntry.PatternMatchesRegex` | src/views/TextField/Entry.tsx:20 | every string the hand-coded test accepts splits into the three runs the pattern needs |
| `TextFieldEntry.RegexMatchesPattern` | src/views/TextField/Entry.tsx:20 | every string the pattern matches passes the hand-coded test |
| `TextFieldEntry.EmailPatternShape` | src/views/TextField/Entry.tsx:20 | an email matches iff it has no white space and exactly one `@`, a non-empty local part, and a domain with a `.` that is neither its first nor its last character |
| `TextFieldEntry.MatchHasShape` | src/views/TextField/Entry.tsx:20 | every matching email has that shape |
| `TextFieldEntry.ShapeMatches` | src/views/TextField/Entry.tsx:20 | every string of that shape matches |
| `TextFieldEntry.EmailHasError` | src/views/TextField/Entry.tsx:19-24 | an email is an error iff it is non-empty and the pattern does not match it, so the empty email is never an error |
| `TextFieldEntry.CanSubmit` | src/views/TextField/Entry.tsx:36-44 | submit goes ahead iff the name has at least two code units and the email is empty or matches; an empty name always blocks it, and an empty email never does |
| `TextFieldEntry.NameExamples` | src/components/TextField/tests/TextField.e2e.spec.ts:68-76 | "A" is a name error and "John Doe" is not |
| `TextFieldEntry.InvalidEmailRejected` | src/components/TextField/tests/TextField.e2e.spec.ts:79-82 | "invalid-email" is an email error |
| `TextFieldEntry.GoodEmailAccepted` | src/components/TextField/tests/TextField.e2e.spec.ts:84-87 | "john@example.com" is not an email error |
| `TextFieldEntry.ExampleFormSubmits` | src/components/TextField/tests/TextField.e2e.spec.ts:89-90 | the form holding "John Doe" and "john@example.com" submits |
| `TextFieldEntry.NameFieldProps` | src/views/TextField/Entry.tsx:51-64 | the props the form passes to the name field; `NameFieldShowsFormState` states what they render |
| `TextFieldEntry.EmailFieldProps` | src/views/TextField/Entry.tsx:65-79 | the props the form passes to the email field; `EmailFieldShowsFormState` states what they render |
| `TextFieldEntry.NameFieldShowsFormState` | src/views/TextField/Entry.tsx:51-64 | the name field shows the stored name, is invalid iff the name is in error, is required, and shows the helper text its flag selects, linked by `aria-describedby` |
| `TextFieldEntry.EmailFieldShowsFormState` | src/views/TextField/Entry.tsx:65-79 | the same for the email field, which has input type email |
| `TextFieldEntry.InteractiveExample.constructor` | src/views/TextField/Entry.tsx:8-11 | the form starts with an empty name and email and no errors |
| `TextFieldEntry.InteractiveExample.ValidateName` | src/views/TextField/Entry.tsx:13-17 | returns the name verdict and stores it as the name's error flag |
| `TextFieldEntry.InteractiveExample.ValidateEmail` | src/views/TextField/Entry.tsx:19-24 | returns the email verdict and stores it as the email's error flag |
| `TextFieldEntry.InteractiveExample.HandleNameChange` | src/views/TextField/Entry.tsx:26-29 | afterwards the stored name is the new value and its error flag is that value's verdict |
| `TextFieldEntry.InteractiveExample.HandleEmailChange` | src/views/TextField/Entry.tsx:31-34 | afterwards the stored email is the new value and its error flag is that value's verdict |
| `TextFieldEntry.InteractiveExample.HandleSubmit` | src/views/TextField/Entry.tsx:36-44 | re-validates both stored values, and records a submission iff neither is in error |

## Left out

- React itself is not modelled: the DOM, JSX trees, reconciliation, and `useState` scheduling and batching. State updates take effect at once. A render is the pure function `Render`.
- `useId`'s string format is not modelled. An id is an abstract serial from an `IdSource`.
- The contents of the CSS modules are not modelled. A stylesheet is any map from key to class name. Visual and layout checks are left out.
- Switching a field between controlled and uncontrolled after mount is not modelled: `HandleChange` and `TypeText` require the props' mode to match the mode fixed at mount. The source leaves this case unspecified.
- Native browser semantics are stated as assumptions, not derived. `Activate` says a disabled button receives no click. Native `required` constraint validation, label click-to-focus, and `onFocus`/`onBlur` delivery are not modelled; those two handlers are only passed through to the input.
- A parent that changes `value` in response to `onChange` is not composed with a `TextFieldInstance`. For the demo form, the field props and the form handlers are modelled separately.
- `alert`, `e.preventDefault()`, the static markup in `Examples`, and `createRoot` are not modelled. A submit that passes the gate is recorded in the ghost sequence `submissions`.
- The regular-expression engine is not modelled. The email pattern is hand-coded and proved equal to the pattern's meaning.
- `children` and the Button's `type` are modelled as plain strings.
- Lone UTF-16 surrogates are not modelled: a Dafny `string` holds only Unicode scalar values, while a JavaScript string may hold an unpaired surrogate, which counts 1 toward `length` and matches `[^\s@]`. `Utf16Length`, `NameHasError` and `MatchesEmailPattern` cover only strings without one.
- src/utilities/shared/shared.tsx, src/main.tsx, src/App.tsx, src/views/Button/Entry.tsx and the build, lint and test configuration are not part of this model.
- TypeText: does not model the browser's value sanitisation. A `number` input reports non-numeric text as `""`. `email` and `url` inputs drop leading and trailing white space. Every single-line input strips line breaks. The model reports the shown value plus the typed character for every input type and every character.
- Duplicate class names: `classList` drops a repeated class name (for instance when two CSS-module keys map to the same class), and `Tokens` keeps it. The token-list lemmas are stated about `Tokens`; `HasClass` membership is the same either way.
- TokensOfClassList: states the split only when no entry holds white space. An entry such as a caller class "a b" splits into several class names, so the split is then not the filtered list.
- ContainerClassTokens: states the token list only when every CSS-module class name and the caller's `className` hold no white space. A class name with a space in it is read as several tokens.
- InputClassTokens: states the token list only when every CSS-module class name is a single token.
- HelperClassTokens: states the token list only when both helper classes are defined, non-empty and single tokens. Otherwise the string holds `undefined` or a trailing space, as `HelperClasses` computes.
- ButtonClassTokens: states the token list only when every CSS-module class name and the caller's `className` hold no white space.
- CustomClassComesLast: states that the caller's class is the last token only when no class name holds white space. The string-level suffix holds in every case.
