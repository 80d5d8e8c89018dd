/** The `SelectInput` component: label, a wrapped `<select>` with its options, helper text and error message. */
module SelectInput {
  import opened Wrappers
  import opened TokenList
  import opened Props
  import opened Field
  import Styles
  import Label
  import ErrorMessage

  /** The props the component destructures; the rest is spread onto `<select>`. */
  const OwnKeys: set<PropName> :=
    {LabelText, Id, Options, Placeholder, Error, HelperText, HideLabel, Required, Disabled,
     ContainerClassName, SelectClassName, ClassName}

  /** One entry of the `options` prop (`labelText` is its `label`); an omitted `disabled` is false. */
  datatype SelectOption = SelectOption(value: string, labelText: string, disabled: bool)

  /** A rendered `<option value={…} disabled={…}>{text}</option>`. */
  datatype OptionView = OptionView(value: string, disabled: bool, text: string)

  /** Props of `SelectInput`; an omitted string is "", an omitted boolean is false. */
  datatype SelectInputProps = SelectInputProps(
    labelText: string,
    id: string,
    options: seq<SelectOption>,
    placeholder: string,
    error: string,
    helperText: string,
    hideLabel: bool,
    required: bool,
    disabled: bool,
    containerClassName: string,
    selectClassName: string,
    className: string,
    rest: Props)

  /** The rendered `<select>`: the attributes the component writes, the props spread after them, and its options. */
  datatype SelectElement = SelectElement(
    id: string,
    className: string,
    ariaInvalid: bool,
    ariaDescribedBy: Option<string>,
    ariaRequired: bool,
    disabled: bool,
    spread: Props,
    options: seq<OptionView>)

  /** The rendered container: its class, the label, the wrapper's class, the `<select>`, the helper and the error region. */
  datatype SelectInputView = SelectInputView(
    containerClass: string,
    labelNode: Label.LabelView,
    wrapperClass: string,
    select: SelectElement,
    helper: Option<Helper>,
    errorMessage: Option<ErrorMessage.ErrorView>)

  /** `[selectWrapper, hasError && selectWrapper--error]` joined. */
  function WrapperClasses(hasError: bool): string {
    Build([Styles.SelectWrapper, Entry(hasError, Styles.SelectWrapperError)])
  }

  /** The wrapper reads as its base class, then the error class exactly when there is an error. */
  lemma WrapperClassesWords(hasError: bool)
    ensures Words(WrapperClasses(hasError)) == [Styles.SelectWrapper] + When(hasError, Styles.SelectWrapperError)
    ensures WellFormed(WrapperClasses(hasError))
  {
    Styles.ControlTokens();
    EntryWords(hasError, Styles.SelectWrapperError);
    ClassListOfTwo(Styles.SelectWrapper, Entry(hasError, Styles.SelectWrapperError));
  }

  /** `[select, hasError && select--error, selectClassName, className]` joined. */
  function SelectClasses(hasError: bool, selectClassName: string, className: string): string {
    Build([Styles.Select, Entry(hasError, Styles.SelectError), selectClassName, className])
  }

  /**
   * The select reads as its base class, the error class exactly when there
   * is an error, then the two caller-supplied lists in that order.
   */
  lemma SelectClassesWords(hasError: bool, selectClassName: string, className: string)
    ensures Words(SelectClasses(hasError, selectClassName, className))
      == [Styles.Select] + When(hasError, Styles.SelectError) + Words(selectClassName) + Words(className)
    ensures WellFormed(selectClassName) && WellFormed(className) ==>
      WellFormed(SelectClasses(hasError, selectClassName, className))
  {
    Styles.ControlTokens();
    EntryWords(hasError, Styles.SelectError);
    ClassListOfFour(Styles.Select, Entry(hasError, Styles.SelectError), selectClassName, className);
  }

  /** `options.map(…)`: one `<option>` per entry, in the given order. */
  function OptionViews(options: seq<SelectOption>): (r: seq<OptionView>)
    ensures |r| == |options|
    ensures forall i :: 0 <= i < |options| ==>
      r[i] == OptionView(options[i].value, options[i].disabled, options[i].labelText)
  {
    if options == [] then []
    else [OptionView(options[0].value, options[0].disabled, options[0].labelText)] + OptionViews(options[1..])
  }

  /** The placeholder option `<option value="" disabled>`, rendered before the options when there is placeholder text. */
  function OptionList(placeholder: string, options: seq<SelectOption>): (r: seq<OptionView>)
    ensures var k := if placeholder != "" then 1 else 0;
      && |r| == |options| + k
      && (placeholder != "" ==> r[0] == OptionView("", true, placeholder))
      && forall i :: 0 <= i < |options| ==>
           r[i + k] == OptionView(options[i].value, options[i].disabled, options[i].labelText)
  {
    (if placeholder != "" then [OptionView("", true, placeholder)] else []) + OptionViews(options)
  }

  /**
   * The rendered field: the same id, label, `aria-*`, helper and error
   * composition as `TextInput`, with the error also marking the wrapper, and
   * the placeholder option (if any) followed by the given options.
   */
  function Render(p: SelectInputProps, autoId: string): (v: SelectInputView)
    ensures v.select.id == IdOf(p.id, autoId) && v.labelNode.htmlFor == v.select.id
    ensures v.select.className == SelectClasses(p.error != "", p.selectClassName, p.className)
    ensures v.wrapperClass == WrapperClasses(p.error != "")
    ensures v.select.ariaInvalid <==> v.errorMessage.Some?
    ensures v.select.ariaRequired == p.required && v.select.disabled == p.disabled
    ensures v.select.ariaDescribedBy == DescribedBy(p.helperText, p.error, v.select.id)
    ensures v.select.spread.Keys == p.rest.Keys - OwnKeys
    ensures forall k :: k in v.select.spread ==> v.select.spread[k] == p.rest[k]
    ensures v.select.options == OptionList(p.placeholder, p.options)
    ensures v.containerClass == ContainerClasses(p.error != "", p.disabled, p.containerClassName)
    ensures v.helper == HelperNode(p.helperText, p.error != "", v.select.id)
    ensures v.errorMessage.Some? <==> p.error != ""
    ensures v.errorMessage.Some? ==>
      v.errorMessage.value.id == ErrorId(v.select.id) && v.errorMessage.value.text == p.error
    ensures v.labelNode.marker.Some? <==> p.required
    ensures v.labelNode.text == p.labelText
    ensures v.labelNode.className == Label.Classes(p.error != "", LabelClasses(p.hideLabel))
  {
    var id := IdOf(p.id, autoId);
    var hasError := p.error != "";
    var labelNode := Label.Render(Label.LabelProps(id, p.required, None, hasError, LabelClasses(p.hideLabel), p.labelText, map[]));
    var select := SelectElement(id, SelectClasses(hasError, p.selectClassName, p.className), hasError,
                                DescribedBy(p.helperText, p.error, id), p.required, p.disabled,
                                Rest(p.rest, OwnKeys), OptionList(p.placeholder, p.options));
    var err := ErrorMessage.Render(ErrorMessage.ErrorMessageProps(ErrorId(id), p.error, None, ""));
    SelectInputView(ContainerClasses(hasError, p.disabled, p.containerClassName), labelNode,
                    WrapperClasses(hasError), select, HelperNode(p.helperText, hasError, id), err)
  }

  /**
   * Every option the caller supplies is rendered, with its own value, label
   * and disabled flag, and the only other option is the disabled,
   * empty-valued placeholder, shown first.
   */
  lemma OptionListContents(placeholder: string, options: seq<SelectOption>)
    ensures var opts := OptionList(placeholder, options);
      && (forall o :: o in options ==> OptionView(o.value, o.disabled, o.labelText) in opts)
      && (forall w :: w in opts ==>
            (placeholder != "" && w == OptionView("", true, placeholder))
            || exists o :: o in options && w == OptionView(o.value, o.disabled, o.labelText))
  {
    var opts := OptionList(placeholder, options);
    forall o | o in options
      ensures OptionView(o.value, o.disabled, o.labelText) in opts
    {
      var i :| 0 <= i < |options| && options[i] == o;
      OptionListHas(placeholder, options, i);
    }
    forall w | w in opts
      ensures (placeholder != "" && w == OptionView("", true, placeholder))
              || exists o :: o in options && w == OptionView(o.value, o.disabled, o.labelText)
    {
      var j :| 0 <= j < |opts| && opts[j] == w;
      OptionListOnly(placeholder, options, j);
    }
  }

  lemma OptionListHas(placeholder: string, options: seq<SelectOption>, i: int)
    requires 0 <= i < |options|
    ensures OptionView(options[i].value, options[i].disabled, options[i].labelText) in OptionList(placeholder, options)
  {
    var opts := OptionList(placeholder, options);
    var k := if placeholder != "" then 1 else 0;
    assert opts[i + k] == OptionView(options[i].value, options[i].disabled, options[i].labelText);
  }

  lemma OptionListOnly(placeholder: string, options: seq<SelectOption>, j: int)
    requires 0 <= j < |OptionList(placeholder, options)|
    ensures var w := OptionList(placeholder, options)[j];
      (placeholder != "" && w == OptionView("", true, placeholder))
      || exists o :: o in options && w == OptionView(o.value, o.disabled, o.labelText)
  {
    var k := if placeholder != "" then 1 else 0;
    if j >= k {
      var o := options[j - k];
      assert o in options;
      assert OptionList(placeholder, options)[(j - k) + k] == OptionView(o.value, o.disabled, o.labelText);
    }
  }
}
