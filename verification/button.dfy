/** The Button component: a pure function from props to one button element,
    whose class names come from the variant, the size and the disabled flag. */
module ButtonComponent {
  import opened Common
  import opened ClassNames

  /** A rendered attribute value; `Undefined` is an attribute React leaves off. */
  datatype Attr = Text(text: string) | Flag(flag: bool) | Callback(handler: Handler) | Undefined

  /** `ButtonProps`: the named props, each of which may be omitted, and `others`,
      every further attribute the caller passed, by name. */
  datatype ButtonProps = ButtonProps(
    children: string,
    variant: Option<ComponentVariant>,
    size: Option<ComponentSize>,
    disabled: Option<bool>,
    onClick: Option<Handler>,
    className: Option<string>,
    testId: Option<string>,
    buttonType: Option<string>,
    ariaLabel: Option<string>,
    others: map<string, Attr>)

  /** The prop names the component takes out by destructuring; `...rest` holds
      everything else. */
  const Destructured: set<string> :=
    {"children", "variant", "size", "disabled", "onClick", "className", "testId", "type", "aria-label"}

  /** The attributes the component writes after `{...rest}`. */
  const Named: set<string> :=
    {"type", "className", "disabled", "onClick", "data-testid", "aria-label"}

  /** `rest` */
  function Rest(p: ButtonProps): map<string, Attr> {
    p.others - Destructured
  }

  /** The destructuring defaults. */
  function Variant(p: ButtonProps): ComponentVariant { p.variant.GetOr(Primary) }
  function Size(p: ButtonProps): ComponentSize { p.size.GetOr(Medium) }
  function Disabled(p: ButtonProps): bool { p.disabled.GetOr(false) }
  function CustomClass(p: ButtonProps): string { p.className.GetOr("") }
  function ButtonType(p: ButtonProps): string { p.buttonType.GetOr("button") }
  function AriaLabel(p: ButtonProps): string { p.ariaLabel.GetOr("") }

  /** `buttonClasses` */
  function ButtonClasses(p: ButtonProps, styles: Styles): string {
    ClassList([
      Lookup(styles, "button"),
      Lookup(styles, VariantKey(Variant(p))),
      if Size(p) != Medium then Lookup(styles, SizeKey(Size(p))) else None,
      if Disabled(p) then Lookup(styles, "disabled") else None,
      Some(CustomClass(p))
    ])
  }

  /** The attributes written after the spread; an omitted `onClick` or `testId`
      is written as undefined. */
  function NamedAttributes(p: ButtonProps, styles: Styles): map<string, Attr> {
    map[
      "type" := Text(ButtonType(p)),
      "className" := Text(ButtonClasses(p, styles)),
      "disabled" := Flag(Disabled(p)),
      "onClick" := if p.onClick.Some? then Callback(p.onClick.value) else Undefined,
      "data-testid" := if p.testId.Some? then Text(p.testId.value) else Undefined,
      "aria-label" := Text(AriaLabel(p))
    ]
  }

  /** The rendered `<button>`: its attributes and its content. */
  datatype ButtonView = ButtonView(attributes: map<string, Attr>, children: string)

  /** The render function: `{...rest}` first, the named attributes after it. */
  function Render(p: ButtonProps, styles: Styles): ButtonView {
    ButtonView(Rest(p) + NamedAttributes(p, styles), p.children)
  }

  /** Omitting a prop renders exactly as passing its default: variant primary,
      size medium, not disabled, type "button", empty class name and aria-label. */
  lemma OmittedPropsTakeDefaults(p: ButtonProps, styles: Styles)
    ensures Render(p, styles)
            == Render(p.(variant := Some(Variant(p)), size := Some(Size(p)),
                         disabled := Some(Disabled(p)), className := Some(CustomClass(p)),
                         buttonType := Some(ButtonType(p)), ariaLabel := Some(AriaLabel(p))), styles)
    ensures p.variant.None? ==> Variant(p) == Primary
    ensures p.size.None? ==> Size(p) == Medium
    ensures p.disabled.None? ==> !Disabled(p)
    ensures p.className.None? ==> CustomClass(p) == ""
    ensures p.buttonType.None? ==> ButtonType(p) == "button"
    ensures p.ariaLabel.None? ==> AriaLabel(p) == ""
  {
  }

  /** The button's class tokens are, in order: the base class, the variant class,
      the size class unless the size is medium, the disabled class when disabled,
      and the caller's class name unless it is empty. */
  lemma ButtonClassTokens(p: ButtonProps, styles: Styles)
    requires ClassNamesAreTokens(styles)
    requires NoSeparator(CustomClass(p))
    ensures Tokens(ButtonClasses(p, styles))
            == Present(Lookup(styles, "button"))
               + (Present(Lookup(styles, VariantKey(Variant(p))))
               + ((if Size(p) != Medium then Present(Lookup(styles, SizeKey(Size(p)))) else [])
               + ((if Disabled(p) then Present(Lookup(styles, "disabled")) else [])
               + (if CustomClass(p) != "" then [CustomClass(p)] else []))))
  {
    var a, b := Lookup(styles, "button"), Lookup(styles, VariantKey(Variant(p)));
    var c := if Size(p) != Medium then Lookup(styles, SizeKey(Size(p))) else None;
    var d := if Disabled(p) then Lookup(styles, "disabled") else None;
    var e := Some(CustomClass(p));
    var entries := [a, b, c, d, e];
    assert ButtonClasses(p, styles) == ClassList(entries);
    forall x | x in entries && x.Some?
      ensures NoSeparator(x.value)
    {
    }
    TokensOfClassList(entries);
    CompactFive(a, b, c, d, e);
  }

  /** At medium size the class string does not depend on the stylesheet's medium
      class at all: whatever it is, or if it is missing, no size class is emitted. */
  lemma MediumSizeEmitsNoSizeClass(p: ButtonProps, styles: Styles, other: string)
    requires Size(p) == Medium
    ensures ButtonClasses(p, styles) == ButtonClasses(p, styles["medium" := other])
    ensures ButtonClasses(p, styles) == ButtonClasses(p, styles - {"medium"})
  {
    assert VariantKey(Variant(p)) != "medium";
    assert Lookup(styles["medium" := other], VariantKey(Variant(p))) == Lookup(styles, VariantKey(Variant(p)));
    assert Lookup(styles - {"medium"}, VariantKey(Variant(p))) == Lookup(styles, VariantKey(Variant(p)));
  }

  /** A non-empty custom class name ends the class string, after a space when
      anything precedes it, and is then the last class token. */
  lemma CustomClassComesLast(p: ButtonProps, styles: Styles)
    requires CustomClass(p) != ""
    ensures var r, c := ButtonClasses(p, styles), CustomClass(p);
      |c| <= |r| && r[|r| - |c|..] == c && (|c| < |r| ==> r[|r| - |c| - 1] == ' ')
    ensures ClassNamesAreTokens(styles) && NoSeparator(CustomClass(p))
            ==> var t := Tokens(ButtonClasses(p, styles)); t != [] && t[|t| - 1] == CustomClass(p)
  {
    var entries := [
      Lookup(styles, "button"),
      Lookup(styles, VariantKey(Variant(p))),
      if Size(p) != Medium then Lookup(styles, SizeKey(Size(p))) else None,
      if Disabled(p) then Lookup(styles, "disabled") else None,
      Some(CustomClass(p))
    ];
    CompactLast(entries);
    var parts := Compact(entries);
    JoinEndsWithLast(parts);
    if ClassNamesAreTokens(styles) && NoSeparator(CustomClass(p)) {
      ButtonClassTokens(p, styles);
    }
  }

  /** Every named attribute has the value the component computes, whatever the
      caller spread; every other attribute the caller passed is kept unchanged;
      the props the component destructures never reach the element. */
  lemma NamedAttributesOverrideRest(p: ButtonProps, styles: Styles)
    ensures var a := Render(p, styles).attributes;
      && a.Keys == (p.others.Keys - Destructured) + Named
      && (forall k :: k in Named ==> a[k] == NamedAttributes(p, styles)[k])
      && (forall k :: k in p.others && k !in Destructured && k !in Named ==> a[k] == p.others[k])
    ensures var a := Render(p, styles).attributes;
      && a["disabled"] == Flag(Disabled(p))
      && a["data-testid"] == (if p.testId.Some? then Text(p.testId.value) else Undefined)
      && a["className"] == Text(ButtonClasses(p, styles))
  {
  }

  /** One user activation of a rendered button: the host dispatches no click to a
      disabled button; otherwise an `onClick` callback, if there is one, runs once. */
  function Activate(view: ButtonView): seq<Handler> {
    var attrs := view.attributes;
    if "disabled" in attrs && attrs["disabled"] == Flag(true) then []
    else if "onClick" in attrs && attrs["onClick"].Callback? then [attrs["onClick"].handler]
    else []
  }

  /** The callbacks run by `n` activations in a row. */
  function ActivateTimes(view: ButtonView, n: nat): seq<Handler> {
    if n == 0 then [] else ActivateTimes(view, n - 1) + Activate(view)
  }

  /** An enabled button with an `onClick` runs it once per activation; a disabled
      one never runs it, however often it is activated. */
  lemma {:induction false} ClicksReachOnClick(p: ButtonProps, styles: Styles, n: nat)
    ensures var calls := ActivateTimes(Render(p, styles), n);
      && (Disabled(p) || p.onClick.None? ==> calls == [])
      && (!Disabled(p) && p.onClick.Some? ==> |calls| == n && forall i :: 0 <= i < n ==> calls[i] == p.onClick.value)
  {
    if n > 0 {
      ClicksReachOnClick(p, styles, n - 1);
    }
  }
}
