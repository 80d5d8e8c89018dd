/**
 * The `FormField` component: a label, any child control with the
 * accessibility props injected into it, helper text and error message.
 */
module FormField {
  import opened Wrappers
  import opened TokenList
  import opened Props
  import opened Field
  import Label
  import ErrorMessage

  /** The props `FormField` injects into its child. */
  const InjectedKeys: set<PropName> := {Id, AriaInvalid, AriaDescribedBy, AriaRequired, Disabled}

  /** Props of `FormField`; `child` holds the child element's own props; an omitted string is "", an omitted boolean is false. */
  datatype FormFieldProps = FormFieldProps(
    labelText: string,
    id: string,
    child: Props,
    error: string,
    helperText: string,
    required: bool,
    disabled: bool,
    hideLabel: bool,
    className: string)

  /** The props `FormField` computes for its child. */
  datatype Injection = Injection(
    id: string,
    ariaInvalid: bool,
    ariaDescribedBy: Option<string>,
    ariaRequired: bool,
    disabled: bool)

  /** `{ id, 'aria-invalid', 'aria-describedby': describedBy || undefined, 'aria-required', disabled }` */
  function InjectedProps(j: Injection): Props {
    map[Id := Str(j.id),
        AriaInvalid := Flag(j.ariaInvalid),
        AriaDescribedBy := OrUndefined(j.ariaDescribedBy),
        AriaRequired := Flag(j.ariaRequired),
        Disabled := Flag(j.disabled)]
  }

  /** `cloneElement(children, { ...injected, ...children.props })`: the cloned child's props. */
  function Merge(j: Injection, own: Props): Props {
    Spread(InjectedProps(j), own)
  }

  /**
   * The child keeps every prop it already has and receives each injected
   * one it lacks.
   */
  lemma MergeChildWins(j: Injection, own: Props)
    ensures var m := Merge(j, own);
      && m.Keys == InjectedKeys + own.Keys
      && (forall k :: k in own ==> m[k] == own[k])
      && (Id !in own ==> m[Id] == Str(j.id))
      && (AriaInvalid !in own ==> m[AriaInvalid] == Flag(j.ariaInvalid))
      && (AriaDescribedBy !in own ==> m[AriaDescribedBy] == OrUndefined(j.ariaDescribedBy))
      && (AriaRequired !in own ==> m[AriaRequired] == Flag(j.ariaRequired))
      && (Disabled !in own ==> m[Disabled] == Flag(j.disabled))
  {
  }

  /** The rendered container: its class, the label, the child with what is injected into it, the helper and the error region. */
  datatype FormFieldView = FormFieldView(
    containerClass: string,
    labelNode: Label.LabelView,
    injected: Injection,
    child: Props,
    helper: Option<Helper>,
    errorMessage: Option<ErrorMessage.ErrorView>)

  /**
   * The rendered field. The child receives the id (given or generated, the
   * one the label points at), `aria-invalid` exactly when the error region
   * is shown, `aria-describedby` naming the helper and error ids that
   * apply, `aria-required` and `disabled`, each unless it sets that prop
   * itself.
   */
  function Render(p: FormFieldProps, autoId: string): (v: FormFieldView)
    ensures v.injected.id == IdOf(p.id, autoId) && v.labelNode.htmlFor == v.injected.id
    ensures v.injected.ariaInvalid <==> v.errorMessage.Some?
    ensures v.injected.ariaDescribedBy == DescribedBy(p.helperText, p.error, v.injected.id)
    ensures v.injected.ariaRequired == p.required && v.injected.disabled == p.disabled
    ensures v.child == Merge(v.injected, p.child)
    ensures v.containerClass == ContainerClasses(p.error != "", p.disabled, p.className)
    ensures v.helper == HelperNode(p.helperText, p.error != "", v.injected.id)
    ensures v.errorMessage.Some? <==> p.error != ""
    ensures v.errorMessage.Some? ==>
      v.errorMessage.value.id == ErrorId(v.injected.id) && v.errorMessage.value.text == p.error
    ensures v.labelNode.marker.Some? <==> p.required
    ensures v.labelNode.text == p.labelText
    ensures v.labelNode.className == Label.Classes(p.error != "", LabelClasses(p.hideLabel))
  {
    var id := IdOf(p.id, autoId);
    var hasError := p.error != "";
    var labelNode := Label.Render(Label.LabelProps(id, p.required, None, hasError, LabelClasses(p.hideLabel), p.labelText, map[]));
    var injected := Injection(id, hasError, DescribedBy(p.helperText, p.error, id), p.required, p.disabled);
    var err := ErrorMessage.Render(ErrorMessage.ErrorMessageProps(ErrorId(id), p.error, None, ""));
    FormFieldView(ContainerClasses(hasError, p.disabled, p.className), labelNode, injected, Merge(injected, p.child),
                  HelperNode(p.helperText, hasError, id), err)
  }

  /**
   * Because the child's own props win, the label stays attached to the
   * control exactly when the child sets no id of its own or sets the same
   * one; likewise the child is marked invalid on an error exactly when it
   * does not set `aria-invalid` to something else itself.
   */
  lemma LabelAssociation(p: FormFieldProps, autoId: string)
    ensures var v := Render(p, autoId);
      && Id in v.child && AriaInvalid in v.child
      && (v.child[Id] == Str(v.labelNode.htmlFor) <==> Id !in p.child || p.child[Id] == Str(IdOf(p.id, autoId)))
      && (v.child[AriaInvalid] == Flag(p.error != "") <==>
            AriaInvalid !in p.child || p.child[AriaInvalid] == Flag(p.error != ""))
  {
    var v := Render(p, autoId);
    MergeChildWins(v.injected, p.child);
  }
}
