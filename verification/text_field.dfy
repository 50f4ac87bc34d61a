/** The TextField component: its props, the attributes it renders, and the one
    piece of state an instance owns, the value it shows when nobody controls it. */
module TextFieldComponent {
  import opened Common
  import opened ClassNames

  /** The `type` prop: the input types the component accepts. */
  datatype InputType = Text | Email | Password | Number | Tel | Url

  /** `TextFieldProps`; every prop may be omitted (`None`). */
  datatype TextFieldProps = TextFieldProps(
    labelText: Option<string>,
    placeholder: Option<string>,
    value: Option<string>,
    defaultValue: Option<string>,
    size: Option<ComponentSize>,
    disabled: Option<bool>,
    error: Option<bool>,
    helperText: Option<string>,
    required: Option<bool>,
    inputType: Option<InputType>,
    onChange: Option<Handler>,
    onBlur: Option<Handler>,
    onFocus: Option<Handler>,
    className: Option<string>,
    testId: Option<string>)

  /** `<TextField />`: every prop omitted. */
  const NoProps := TextFieldProps(None, None, None, None, None, None, None, None,
                                  None, None, None, None, None, None, None)

  /** The props the component reads after its destructuring defaults apply. */
  datatype Settings = Settings(
    size: ComponentSize,
    disabled: bool,
    error: bool,
    required: bool,
    inputType: InputType,
    className: string)

  /** The destructuring defaults: an omitted prop takes its default, a given one is kept. */
  function Resolve(p: TextFieldProps): (s: Settings)
    ensures p.size.Some? ==> s.size == p.size.value
    ensures p.size.None? ==> s.size == Medium
    ensures p.disabled.Some? ==> s.disabled == p.disabled.value
    ensures p.disabled.None? ==> !s.disabled
    ensures p.error.Some? ==> s.error == p.error.value
    ensures p.error.None? ==> !s.error
    ensures p.required.Some? ==> s.required == p.required.value
    ensures p.required.None? ==> !s.required
    ensures p.inputType.Some? ==> s.inputType == p.inputType.value
    ensures p.inputType.None? ==> s.inputType == Text
    ensures p.className.Some? ==> s.className == p.className.value
    ensures p.className.None? ==> s.className == ""
  {
    Settings(p.size.GetOr(Medium), p.disabled.GetOr(false), p.error.GetOr(false),
             p.required.GetOr(false), p.inputType.GetOr(Text), p.className.GetOr(""))
  }

  /** The seed of the internal value, `defaultValue || ""`. An empty default and an
      omitted one both seed `""`, so `||` agrees with `??` here. */
  function InitialValue(defaultValue: Option<string>): (r: string)
    ensures r == defaultValue.GetOr("")
  {
    if defaultValue.Some? && defaultValue.value != "" then defaultValue.value else ""
  }

  /** `value !== undefined` */
  predicate IsControlled(p: TextFieldProps) {
    p.value.Some?
  }

  /** `inputValue`: the value the input shows. */
  function DisplayedValue(p: TextFieldProps, internalValue: string): string {
    if IsControlled(p) then p.value.value else internalValue
  }

  /** `containerClasses` */
  function ContainerClasses(p: TextFieldProps, styles: Styles): string {
    var s := Resolve(p);
    ClassList([
      Lookup(styles, "container"),
      Lookup(styles, SizeKey(s.size)),
      if s.disabled then Lookup(styles, "disabled") else None,
      if s.error then Lookup(styles, "error") else None,
      Some(s.className)
    ])
  }

  /** `inputClasses` */
  function InputClasses(error: bool, styles: Styles): string {
    ClassList([Lookup(styles, "input"), if error then Lookup(styles, "inputError") else None])
  }

  /** The helper's class, a template literal rather than a filtered list: an
      undefined class prints as "undefined", and without the error the string
      keeps its trailing space. */
  function HelperClasses(error: bool, styles: Styles): string {
    TemplateText(Lookup(styles, "helperText")) + " "
      + (if error then TemplateText(Lookup(styles, "errorText")) else "")
  }

  /** `helperText` is truthy: given and non-empty. */
  predicate ShowsHelper(p: TextFieldProps) {
    p.helperText.Some? && p.helperText.value != ""
  }

  /** `${testId}-input` */
  function InputTestId(testId: Option<string>): string {
    TemplateText(testId) + "-input"
  }

  /** `${testId}-helper` */
  function HelperTestId(testId: Option<string>): string {
    TemplateText(testId) + "-helper"
  }

  datatype ContainerView = ContainerView(className: string, testId: Option<string>)

  datatype LabelView = LabelView(
    htmlFor: ElementId,
    className: Option<string>,
    text: Option<string>,
    requiredMarker: bool)

  datatype InputView = InputView(
    id: ElementId,
    inputType: InputType,
    className: string,
    placeholder: Option<string>,
    value: string,
    disabled: bool,
    required: bool,
    onBlur: Option<Handler>,
    onFocus: Option<Handler>,
    ariaDescribedBy: Option<ElementId>,
    ariaInvalid: bool,
    testId: string)

  datatype HelperView = HelperView(id: ElementId, className: string, testId: string, text: string)

  /** What one render of the component puts on the page. */
  datatype TextFieldView = TextFieldView(
    container: ContainerView,
    labelView: LabelView,
    input: InputView,
    helper: Option<HelperView>)

  /** The render function: props, the CSS module, the instance's internal value and
      its two ids to the rendered attributes. */
  function Render(p: TextFieldProps, styles: Styles, internalValue: string,
                  inputId: ElementId, helperTextId: ElementId): TextFieldView
  {
    var s := Resolve(p);
    TextFieldView(
      ContainerView(ContainerClasses(p, styles), p.testId),
      LabelView(inputId, Lookup(styles, "label"), p.labelText, s.required),
      InputView(
        inputId, s.inputType, InputClasses(s.error, styles), p.placeholder,
        DisplayedValue(p, internalValue), s.disabled, s.required, p.onBlur, p.onFocus,
        if ShowsHelper(p) then Some(helperTextId) else None,
        s.error, InputTestId(p.testId)),
      if ShowsHelper(p)
      then Some(HelperView(helperTextId, HelperClasses(s.error, styles),
                           HelperTestId(p.testId), p.helperText.value))
      else None)
  }

  /** A controlled field shows `value` and its whole render is independent of the
      internal value; an uncontrolled one shows its internal value. */
  lemma DisplayedValueRule(p: TextFieldProps, styles: Styles, a: string, b: string,
                           inputId: ElementId, helperTextId: ElementId)
    ensures IsControlled(p) ==> Render(p, styles, a, inputId, helperTextId).input.value == p.value.value
    ensures IsControlled(p) ==> Render(p, styles, a, inputId, helperTextId) == Render(p, styles, b, inputId, helperTextId)
    ensures !IsControlled(p) ==> Render(p, styles, a, inputId, helperTextId).input.value == a
  {
  }

  /** The container's class tokens are, in order: the container class, the size
      class, the disabled class when disabled, the error class when in error, and
      the caller's class name unless it is empty. */
  lemma ContainerClassTokens(p: TextFieldProps, styles: Styles)
    requires ClassNamesAreTokens(styles)
    requires NoSeparator(Resolve(p).className)
    ensures var s := Resolve(p);
      Tokens(ContainerClasses(p, styles))
      == Present(Lookup(styles, "container"))
         + (Present(Lookup(styles, SizeKey(s.size)))
         + ((if s.disabled then Present(Lookup(styles, "disabled")) else [])
         + ((if s.error then Present(Lookup(styles, "error")) else [])
         + (if s.className != "" then [s.className] else []))))
    ensures Resolve(p).className != "" ==> HasClass(ContainerClasses(p, styles), Resolve(p).className)
  {
    var s := Resolve(p);
    var a, b := Lookup(styles, "container"), Lookup(styles, SizeKey(s.size));
    var c := if s.disabled then Lookup(styles, "disabled") else None;
    var d := if s.error then Lookup(styles, "error") else None;
    var e := Some(s.className);
    var entries := [a, b, c, d, e];
    assert ContainerClasses(p, styles) == ClassList(entries);
    forall x | x in entries && x.Some?
      ensures NoSeparator(x.value)
    {
    }
    TokensOfClassList(entries);
    CompactFive(a, b, c, d, e);
  }

  /** The input's class tokens are the input class followed by the error class when
      in error; a distinct, defined error class is present exactly when `error`. */
  lemma InputClassTokens(error: bool, styles: Styles)
    requires ClassNamesAreTokens(styles)
    ensures Tokens(InputClasses(error, styles))
            == Present(Lookup(styles, "input")) + (if error then Present(Lookup(styles, "inputError")) else [])
    ensures Truthy(Lookup(styles, "inputError")) && Lookup(styles, "inputError") != Lookup(styles, "input")
            ==> (HasClass(InputClasses(error, styles), styles["inputError"]) <==> error)
  {
    var entries := [Lookup(styles, "input"), if error then Lookup(styles, "inputError") else None];
    TokensOfClassList(entries);
    CompactTwo(entries[0], entries[1]);
  }

  /** With both helper classes defined as single class names, the helper's tokens
      are the helper class followed by the error-text class when in error. */
  lemma HelperClassTokens(error: bool, styles: Styles)
    requires "helperText" in styles && styles["helperText"] != "" && NoSeparator(styles["helperText"])
    requires "errorText" in styles && styles["errorText"] != "" && NoSeparator(styles["errorText"])
    ensures Tokens(HelperClasses(error, styles))
            == [styles["helperText"]] + (if error then [styles["errorText"]] else [])
  {
    var h, e := styles["helperText"], styles["errorText"];
    var tail := if error then e else "";
    assert HelperClasses(error, styles) == h + (" " + tail);
    TokensOfName(h, " " + tail);
    TokensAfterSpace(tail);
    if error {
      TokensOfName(e, []);
      assert e + [] == e;
    }
  }

  /** Helper text and accessibility: the helper is rendered and referenced by
      `aria-describedby` exactly when the helper text is non-empty; the label
      points at the input; `aria-invalid`, the required marker, `required` and
      `disabled` follow their props. */
  lemma AccessibilityAttributes(p: TextFieldProps, styles: Styles, internalValue: string,
                                inputId: ElementId, helperTextId: ElementId)
    requires inputId != helperTextId
    ensures var v, s := Render(p, styles, internalValue, inputId, helperTextId), Resolve(p);
      && (v.helper.Some? <==> ShowsHelper(p))
      && (v.input.ariaDescribedBy.Some? <==> ShowsHelper(p))
      && (v.helper.Some? ==> v.input.ariaDescribedBy == Some(v.helper.value.id)
                             && v.helper.value.id != v.input.id
                             && v.helper.value.text == p.helperText.value)
      && v.labelView.htmlFor == v.input.id
      && v.input.ariaInvalid == s.error
      && v.labelView.requiredMarker == s.required && v.input.required == s.required
      && v.input.disabled == s.disabled
  {
  }

  /** The three test ids: the container carries `testId` itself, the input and the
      helper carry it with "-input" and "-helper" appended, so the three differ;
      without a `testId` the input's is "undefined-input". */
  lemma TestIds(testId: Option<string>)
    ensures InputTestId(testId) != HelperTestId(testId)
    ensures testId.Some? ==> InputTestId(testId) != testId.value && HelperTestId(testId) != testId.value
    ensures testId.Some? ==> InputTestId(testId)[..|testId.value|] == testId.value
    ensures testId.None? ==> InputTestId(testId) == "undefined-input"
  {
    assert |InputTestId(testId)| + 1 == |HelperTestId(testId)|;
  }

  /** The input's test id determines the `testId` it came from (up to an omitted
      one printing as "undefined"). */
  lemma InputTestIdInjective(a: Option<string>, b: Option<string>)
    requires InputTestId(a) == InputTestId(b)
    ensures TemplateText(a) == TemplateText(b)
  {
    var x, y := TemplateText(a), TemplateText(b);
    assert |x| == |y|;
    assert x == InputTestId(a)[..|x|];
    assert y == InputTestId(b)[..|y|];
  }

  /** The raw value the input reports after each keystroke of `text` typed at the
      end of a field showing `shown`: cumulative when the field keeps what is typed,
      one character past the same shown value when it does not. */
  function KeystrokeValues(shown: string, text: string, keeps: bool): (r: seq<string>)
    ensures |r| == |text|
    ensures keeps && text != [] ==> r[|r| - 1] == shown + text
  {
    seq(|text|, i requires 0 <= i < |text| => if keeps then shown + text[..i + 1] else shown + [text[i]])
  }

  /** React's `useId` within one root: it never hands out the same id twice.
      `issued` records every id handed out so far. */
  class IdSource {
    var next: nat
    ghost var issued: set<ElementId>

    /** Every id handed out lies below the counter. */
    ghost predicate Valid()
      reads this
    {
      forall id :: id in issued ==> id.serial < next
    }

    constructor ()
      ensures Valid() && next == 0 && issued == {}
    {
      next := 0;
      issued := {};
    }

    method UseId() returns (id: ElementId)
      requires Valid()
      modifies this
      ensures Valid()
      ensures id !in old(issued) && issued == old(issued) + {id}
      ensures id == ElementId(old(next)) && next == old(next) + 1
    {
      id := ElementId(next);
      next := next + 1;
      issued := issued + {id};
    }
  }

  /** One mounted TextField. Its mode and its two ids are fixed at mount; its
      internal value changes only through `HandleChange`. `onChangeCalls` records
      the arguments the caller's `onChange` has received. */
  class TextFieldInstance {
    const isControlled: bool
    const inputId: ElementId
    const helperTextId: ElementId
    var internalValue: string
    ghost var onChangeCalls: seq<string>

    /** Mount: the mode from the first props, the internal value from
        `defaultValue`, two fresh ids. */
    constructor (props: TextFieldProps, ids: IdSource)
      requires ids.Valid()
      modifies ids
      ensures isControlled == IsControlled(props)
      ensures internalValue == InitialValue(props.defaultValue)
      ensures onChangeCalls == []
      ensures ids.Valid()
      ensures inputId != helperTextId
      ensures inputId !in old(ids.issued) && helperTextId !in old(ids.issued)
      ensures ids.issued == old(ids.issued) + {inputId, helperTextId}
      ensures inputId == ElementId(old(ids.next)) && helperTextId == ElementId(old(ids.next) + 1)
      ensures ids.next == old(ids.next) + 2
    {
      var first := ids.UseId();
      var second := ids.UseId();
      isControlled := IsControlled(props);
      inputId, helperTextId := first, second;
      internalValue := InitialValue(props.defaultValue);
      onChangeCalls := [];
    }

    /** What the instance renders for the current props. */
    function View(props: TextFieldProps, styles: Styles): TextFieldView
      reads this
    {
      Render(props, styles, internalValue, inputId, helperTextId)
    }

    /** `handleChange`: an uncontrolled field keeps the new raw value; a controlled
        one keeps nothing. Either way `onChange`, when given, receives the raw value
        once, and the field then shows the new value only when uncontrolled. */
    method HandleChange(props: TextFieldProps, newValue: string)
      requires IsControlled(props) == isControlled
      modifies this
      ensures internalValue == if isControlled then old(internalValue) else newValue
      ensures onChangeCalls == old(onChangeCalls) + (if props.onChange.Some? then [newValue] else [])
      ensures DisplayedValue(props, internalValue)
              == if isControlled then props.value.value else newValue
    {
      if !isControlled {
        internalValue := newValue;
      }
      if props.onChange.Some? {
        onChangeCalls := onChangeCalls + [newValue];
      }
    }

    /** A user typing `text` at the end of the input, one change event per
        character, with the props unchanged throughout. A disabled input receives
        no input events, so nothing changes. Otherwise, uncontrolled, the field ends
        with what it showed followed by `text`, and `onChange` sees each cumulative
        value; controlled, the field keeps showing `value` and `onChange` sees
        `value` plus the one character just typed. */
    method TypeText(props: TextFieldProps, text: string)
      requires IsControlled(props) == isControlled
      modifies this
      ensures internalValue
              == if isControlled || Resolve(props).disabled then old(internalValue) else old(internalValue) + text
      ensures DisplayedValue(props, internalValue)
              == if isControlled then props.value.value
                 else if Resolve(props).disabled then old(internalValue)
                 else old(internalValue) + text
      ensures onChangeCalls == old(onChangeCalls)
              + (if props.onChange.Some? && !Resolve(props).disabled
                 then KeystrokeValues(old(DisplayedValue(props, internalValue)), text, !isControlled)
                 else [])
    {
      if Resolve(props).disabled {
        return;
      }
      ghost var shown := DisplayedValue(props, internalValue);
      ghost var calls := KeystrokeValues(shown, text, !isControlled);
      var i := 0;
      while i < |text|
        invariant 0 <= i <= |text|
        invariant internalValue == if isControlled then old(internalValue) else old(internalValue) + text[..i]
        invariant onChangeCalls == old(onChangeCalls) + (if props.onChange.Some? then calls[..i] else [])
      {
        var newValue := DisplayedValue(props, internalValue) + [text[i]];
        assert calls[i] == newValue by {
          if !isControlled {
            assert text[..i + 1] == text[..i] + [text[i]];
          }
        }
        assert calls[..i + 1] == calls[..i] + [newValue];
        HandleChange(props, newValue);
        i := i + 1;
      }
      assert text[..i] == text;
      assert calls[..i] == calls;
    }
  }

  /** The component tests' typing scenario, replayed on the model as a verified
      method: five keystrokes into an uncontrolled field with `onChange`. */
  method UncontrolledTypingScenario() {
    var ids := new IdSource();
    var typed := NoProps.(onChange := Some(1));
    var field := new TextFieldInstance(typed, ids);
    assert !Resolve(typed).disabled;
    field.TypeText(typed, "hello");
    assert |field.onChangeCalls| == 5 && field.onChangeCalls[4] == "hello";
    assert field.View(typed, map[]).input.value == "hello";
  }

  /** One keystroke into a controlled field, mounted beside another field from the
      same id source: the field keeps showing `value`, and the two fields' ids
      are disjoint. */
  method ControlledTypingScenario() {
    var ids := new IdSource();
    var first := new TextFieldInstance(NoProps, ids);
    var fixed := NoProps.(value := Some("fixed"), onChange := Some(2));
    var other := new TextFieldInstance(fixed, ids);
    assert {first.inputId, first.helperTextId} !! {other.inputId, other.helperTextId};
    assert !Resolve(fixed).disabled;
    other.TypeText(fixed, "x");
    assert |other.onChangeCalls| == 1 && other.onChangeCalls[0] == "fixedx";
    assert other.View(fixed, map[]).input.value == "fixed";
  }
}
