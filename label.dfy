/** The `Label` component: a `<label>` with an optional required marker. */
module Label {
  import opened Wrappers
  import opened TokenList
  import opened Props
  import Styles

  const DefaultRequiredText: string := "(required)"

  /** The props the component destructures; every other prop is passed on to `<label>`. */
  const OwnKeys: set<PropName> :=
    {HtmlFor, Required, RequiredText, Error, ClassName, Children}

  /** Props of `Label`; an omitted `className` is "", an omitted boolean is false. */
  datatype LabelProps = LabelProps(
    htmlFor: string,
    required: bool,
    requiredText: Option<string>,
    error: bool,
    className: string,
    text: string,
    rest: Props)

  /** `<span className={label__required} aria-label="required"> * <span …>{requiredText}</span></span>` */
  datatype RequiredMarker = RequiredMarker(className: string, ariaLabel: string, textClassName: string, text: string)

  /**
   * The rendered `<label>`: the attributes the component writes, the
   * passed-on props spread after them, its children's text and the marker.
   */
  datatype LabelView = LabelView(
    htmlFor: string,
    className: string,
    spread: Props,
    text: string,
    marker: Option<RequiredMarker>)

  /** The `<label>`'s attributes as the DOM sees them: the spread props are applied last. */
  function Attributes(v: LabelView): Props {
    Spread(map[HtmlFor := Str(v.htmlFor), ClassName := Str(v.className)], v.spread)
  }

  /**
   * `[label, error && label--error, className]` joined: the base class, the
   * error class exactly when `error`, then the caller's classes.
   */
  function Classes(error: bool, className: string): string {
    Build([Styles.Label, Entry(error, Styles.LabelError), className])
  }

  lemma ClassesWords(error: bool, className: string)
    ensures Words(Classes(error, className)) == [Styles.Label] + When(error, Styles.LabelError) + Words(className)
    ensures WellFormed(className) ==> WellFormed(Classes(error, className))
  {
    Styles.TextTokens();
    EntryWords(error, Styles.LabelError);
    ClassListOfThree(Styles.Label, Entry(error, Styles.LabelError), className);
  }

  /**
   * The label points at `htmlFor` and carries the composed classes; every
   * prop it does not destructure is passed on; it shows its text, and shows
   * the required marker, with `requiredText` defaulting to "(required)",
   * exactly when `required`.
   */
  function Render(p: LabelProps): (v: LabelView)
    ensures v.htmlFor == p.htmlFor && v.className == Classes(p.error, p.className)
    ensures v.spread.Keys == p.rest.Keys - OwnKeys
    ensures forall k :: k in v.spread ==> v.spread[k] == p.rest[k]
    ensures v.text == p.text
    ensures v.marker.Some? <==> p.required
    ensures v.marker.Some? ==> v.marker.value.text == p.requiredText.GetOr(DefaultRequiredText)
                               && v.marker.value.ariaLabel == "required"
  {
    var marker :=
      if p.required
      then Some(RequiredMarker(Styles.LabelRequired, "required", Styles.LabelRequiredText,
                               p.requiredText.GetOr(DefaultRequiredText)))
      else None;
    LabelView(p.htmlFor, Classes(p.error, p.className), Rest(p.rest, OwnKeys), p.text, marker)
  }

  /**
   * The passed-on props cannot replace the label's `htmlFor` or its class:
   * both are destructured, so the rendered attributes keep the component's
   * values, and every other attribute is the passed-on one.
   */
  lemma AttributesOfRender(p: LabelProps)
    ensures var a := Attributes(Render(p));
      && a.Keys == {HtmlFor, ClassName} + (p.rest.Keys - OwnKeys)
      && a[HtmlFor] == Str(p.htmlFor)
      && a[ClassName] == Str(Classes(p.error, p.className))
      && forall k :: k in a && k !in {HtmlFor, ClassName} ==> a[k] == p.rest[k]
  {
  }
}
