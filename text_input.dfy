/** The `TextInput` component: label, `<input>`, helper text and error message. */
module TextInput {
  import opened Wrappers
  import opened TokenList
  import opened Props
  import opened Field
  import Styles
  import Label
  import ErrorMessage

  const DefaultType: string := "text"

  /** The props the component destructures; the rest is spread onto `<input>`. */
  const OwnKeys: set<PropName> :=
    {LabelText, Id, Type, Error, HelperText, HideLabel, Required, Disabled, ContainerClassName, InputClassName, ClassName}

  /** Props of `TextInput`; an omitted string is "", an omitted boolean is false. */
  datatype TextInputProps = TextInputProps(
    labelText: string,
    id: string,
    inputType: Option<string>,
    error: string,
    helperText: string,
    hideLabel: bool,
    required: bool,
    disabled: bool,
    containerClassName: string,
    inputClassName: string,
    className: string,
    rest: Props)

  /**
   * The rendered `<input>`: the attributes the component writes, then the
   * props it passes on, spread after them.
   */
  datatype InputElement = InputElement(
    id: string,
    inputType: string,
    className: string,
    ariaInvalid: bool,
    ariaDescribedBy: Option<string>,
    ariaRequired: bool,
    disabled: bool,
    spread: Props)

  /** The `<input>`'s attributes as the DOM sees them: a spread prop replaces the component's value. */
  function Attributes(e: InputElement): Props {
    Spread(map[Id := Str(e.id),
               Type := Str(e.inputType),
               ClassName := Str(e.className),
               AriaInvalid := Flag(e.ariaInvalid),
               AriaDescribedBy := OrUndefined(e.ariaDescribedBy),
               AriaRequired := Flag(e.ariaRequired),
               Disabled := Flag(e.disabled)],
           e.spread)
  }

  /** The rendered container: its class, the label, the `<input>`, the helper and the error region. */
  datatype TextInputView = TextInputView(
    containerClass: string,
    labelNode: Label.LabelView,
    input: InputElement,
    helper: Option<Helper>,
    errorMessage: Option<ErrorMessage.ErrorView>)

  /**
   * `[input, hasError && input--error, inputClassName, className]` joined:
   * the base class, the error class exactly when there is an error, then
   * the two caller-supplied class lists in that order.
   */
  function InputClasses(hasError: bool, inputClassName: string, className: string): string {
    Build([Styles.Input, Entry(hasError, Styles.InputError), inputClassName, className])
  }

  lemma InputClassesWords(hasError: bool, inputClassName: string, className: string)
    ensures Words(InputClasses(hasError, inputClassName, className))
      == [Styles.Input] + When(hasError, Styles.InputError) + Words(inputClassName) + Words(className)
    ensures WellFormed(inputClassName) && WellFormed(className) ==>
      WellFormed(InputClasses(hasError, inputClassName, className))
  {
    Styles.ControlTokens();
    EntryWords(hasError, Styles.InputError);
    ClassListOfFour(Styles.Input, Entry(hasError, Styles.InputError), inputClassName, className);
  }

  /**
   * The rendered field. The label points at the input's id, which is the
   * given id or else the generated one; the type defaults to "text"; the
   * input is invalid exactly when the error region is shown and required
   * exactly when `required`, and `aria-describedby` names the helper and
   * error ids that apply. The props the component does not destructure are
   * passed on to the input. The helper paragraph appears only with helper
   * text and no error; the label's marker only when `required`.
   */
  function Render(p: TextInputProps, autoId: string): (v: TextInputView)
    ensures v.input.id == IdOf(p.id, autoId) && v.labelNode.htmlFor == v.input.id
    ensures v.input.inputType == p.inputType.GetOr(DefaultType)
    ensures v.input.className == InputClasses(p.error != "", p.inputClassName, p.className)
    ensures v.input.ariaInvalid <==> v.errorMessage.Some?
    ensures v.input.ariaRequired == p.required && v.input.disabled == p.disabled
    ensures v.input.ariaDescribedBy == DescribedBy(p.helperText, p.error, v.input.id)
    ensures v.input.spread.Keys == p.rest.Keys - OwnKeys
    ensures forall k :: k in v.input.spread ==> v.input.spread[k] == p.rest[k]
    ensures v.containerClass == ContainerClasses(p.error != "", p.disabled, p.containerClassName)
    ensures v.helper.Some? <==> p.helperText != "" && p.error == ""
    ensures v.helper.Some? ==> v.helper.value.id == HelperId(v.input.id) && v.helper.value.text == p.helperText
    ensures v.errorMessage.Some? <==> p.error != ""
    ensures v.errorMessage.Some? ==>
      v.errorMessage.value.id == ErrorId(v.input.id) && v.errorMessage.value.text == p.error
    ensures v.labelNode.marker.Some? <==> p.required
    ensures v.labelNode.text == p.labelText
    ensures v.labelNode.className == Label.Classes(p.error != "", LabelClasses(p.hideLabel))
  {
    var id := IdOf(p.id, autoId);
    var hasError := p.error != "";
    var labelNode := Label.Render(Label.LabelProps(id, p.required, None, hasError, LabelClasses(p.hideLabel), p.labelText, map[]));
    var input := InputElement(id, p.inputType.GetOr(DefaultType), InputClasses(hasError, p.inputClassName, p.className),
                              hasError, DescribedBy(p.helperText, p.error, id), p.required, p.disabled,
                              Rest(p.rest, OwnKeys));
    var err := ErrorMessage.Render(ErrorMessage.ErrorMessageProps(ErrorId(id), p.error, None, ""));
    TextInputView(ContainerClasses(hasError, p.disabled, p.containerClassName), labelNode, input,
                  HelperNode(p.helperText, hasError, id), err)
  }

  /**
   * Spread props are applied after the computed attributes and win; the
   * others keep the component's values.
   */
  lemma AttributesOf(e: InputElement)
    ensures var a := Attributes(e);
      && a.Keys == {Id, Type, ClassName, AriaInvalid, AriaDescribedBy, AriaRequired, Disabled} + e.spread.Keys
      && (forall k :: k in e.spread ==> a[k] == e.spread[k])
      && (Id !in e.spread ==> a[Id] == Str(e.id))
      && (Type !in e.spread ==> a[Type] == Str(e.inputType))
      && (ClassName !in e.spread ==> a[ClassName] == Str(e.className))
      && (AriaInvalid !in e.spread ==> a[AriaInvalid] == Flag(e.ariaInvalid))
      && (AriaDescribedBy !in e.spread ==> a[AriaDescribedBy] == OrUndefined(e.ariaDescribedBy))
      && (AriaRequired !in e.spread ==> a[AriaRequired] == Flag(e.ariaRequired))
      && (Disabled !in e.spread ==> a[Disabled] == Flag(e.disabled))
  {
  }

  /**
   * In the rendered input, `id`, `type`, `className` and `disabled` are
   * destructured and so always the component's own; a passed-on prop, which
   * can only be an `aria-*` attribute or one the component does not write,
   * replaces the computed value.
   */
  lemma SpreadWins(p: TextInputProps, autoId: string)
    ensures var v := Render(p, autoId); var a := Attributes(v.input);
      && (forall k :: k in p.rest && k !in OwnKeys ==> k in a && a[k] == p.rest[k])
      && Id in a && a[Id] == Str(IdOf(p.id, autoId))
      && Type in a && a[Type] == Str(p.inputType.GetOr(DefaultType))
      && ClassName in a && a[ClassName] == Str(v.input.className)
      && Disabled in a && a[Disabled] == Flag(p.disabled)
      && (AriaInvalid !in p.rest ==> AriaInvalid in a && a[AriaInvalid] == Flag(p.error != ""))
      && (AriaRequired !in p.rest ==> AriaRequired in a && a[AriaRequired] == Flag(p.required))
      && (AriaDescribedBy !in p.rest ==>
            AriaDescribedBy in a && a[AriaDescribedBy] == OrUndefined(v.input.ariaDescribedBy))
  {
    var v := Render(p, autoId);
    AttributesOf(v.input);
    assert Id !in v.input.spread && Type !in v.input.spread;
    assert ClassName !in v.input.spread && Disabled !in v.input.spread;
  }

  /**
   * Every id that `aria-describedby` names is the id of a node on the page,
   * with one exception: with both helper text and an error, the helper id is
   * still named although the helper paragraph is not rendered. The rendered
   * helper and error nodes are always named.
   */
  lemma DescribedByReferences(p: TextInputProps, autoId: string)
    requires IsToken(IdOf(p.id, autoId))
    ensures var v, id := Render(p, autoId), IdOf(p.id, autoId);
      var refs := if v.input.ariaDescribedBy.Some? then Words(v.input.ariaDescribedBy.value) else [];
      && (forall r :: r in refs ==>
            (v.helper.Some? && r == v.helper.value.id)
            || (v.errorMessage.Some? && r == v.errorMessage.value.id)
            || (r == HelperId(id) && p.helperText != "" && p.error != ""))
      && (v.helper.Some? ==> v.helper.value.id in refs)
      && (v.errorMessage.Some? ==> v.errorMessage.value.id in refs)
      && (p.helperText != "" && p.error != "" ==> HelperId(id) in refs && v.helper.None?)
  {
    DescribedByNames(p.helperText, p.error, IdOf(p.id, autoId));
  }
}
