/**
 * The `TextArea` component: label, `<textarea>`, helper text and error
 * message, with optional auto-resize, a change handler that resizes before
 * forwarding the event, and a ref callback that fans the element out to the
 * component's own ref and the forwarded one.
 */
module TextArea {
  import opened Wrappers
  import opened TokenList
  import opened Props
  import opened Field
  import Styles
  import Label
  import ErrorMessage

  const DefaultRows: int := 4

  /** The props the component destructures; the rest is spread onto `<textarea>`. */
  const OwnKeys: set<PropName> :=
    {LabelText, Id, Error, HelperText, HideLabel, Required, Disabled, Rows, AutoResize,
     ContainerClassName, TextareaClassName, ClassName, OnChange}

  /** A change handler the caller passes in, known only by its identity. */
  type Handler = nat

  /** Props of `TextArea`; an omitted string is "", an omitted boolean is false. */
  datatype TextAreaProps = TextAreaProps(
    labelText: string,
    id: string,
    error: string,
    helperText: string,
    hideLabel: bool,
    required: bool,
    disabled: bool,
    rows: Option<int>,
    autoResize: bool,
    containerClassName: string,
    textareaClassName: string,
    className: string,
    onChange: Option<Handler>,
    rest: Props)

  /**
   * The rendered `<textarea>`: the attributes the component writes, then the
   * props it passes on. Its `onChange` is always the component's own
   * `handleChange`, since the caller's handler is destructured.
   */
  datatype TextareaElement = TextareaElement(
    id: string,
    className: string,
    rows: int,
    ariaInvalid: bool,
    ariaDescribedBy: Option<string>,
    ariaRequired: bool,
    disabled: bool,
    spread: Props)

  /** The rendered container: its class, the label, the `<textarea>`, the helper and the error region. */
  datatype TextAreaView = TextAreaView(
    containerClass: string,
    labelNode: Label.LabelView,
    textarea: TextareaElement,
    helper: Option<Helper>,
    errorMessage: Option<ErrorMessage.ErrorView>)

  /** `[textarea, autoResize && textarea--autoResize, hasError && textarea--error, textareaClassName, className]` joined. */
  function TextareaClasses(autoResize: bool, hasError: bool, textareaClassName: string, className: string): string {
    Build([Styles.TextArea, Entry(autoResize, Styles.TextAreaAutoResize), Entry(hasError, Styles.TextAreaError),
           textareaClassName, className])
  }

  /**
   * The textarea reads as its base class, the auto-resize class exactly when
   * `autoResize`, the error class exactly when there is an error, then the
   * two caller-supplied lists in that order.
   */
  lemma TextareaClassesWords(autoResize: bool, hasError: bool, textareaClassName: string, className: string)
    ensures Words(TextareaClasses(autoResize, hasError, textareaClassName, className))
      == [Styles.TextArea] + When(autoResize, Styles.TextAreaAutoResize) + When(hasError, Styles.TextAreaError)
         + Words(textareaClassName) + Words(className)
    ensures WellFormed(textareaClassName) && WellFormed(className) ==>
      WellFormed(TextareaClasses(autoResize, hasError, textareaClassName, className))
  {
    Styles.TextTokens();
    EntryWords(autoResize, Styles.TextAreaAutoResize);
    EntryWords(hasError, Styles.TextAreaError);
    ClassListOfFive(Styles.TextArea, Entry(autoResize, Styles.TextAreaAutoResize),
                    Entry(hasError, Styles.TextAreaError), textareaClassName, className);
  }

  /**
   * The rendered field: the same id, label, `aria-*`, helper and error
   * composition as `TextInput`; `rows` defaults to 4.
   */
  function Render(p: TextAreaProps, autoId: string): (v: TextAreaView)
    ensures v.textarea.id == IdOf(p.id, autoId) && v.labelNode.htmlFor == v.textarea.id
    ensures v.textarea.rows == p.rows.GetOr(DefaultRows)
    ensures v.textarea.className == TextareaClasses(p.autoResize, p.error != "", p.textareaClassName, p.className)
    ensures v.textarea.ariaInvalid <==> v.errorMessage.Some?
    ensures v.textarea.ariaRequired == p.required && v.textarea.disabled == p.disabled
    ensures v.textarea.ariaDescribedBy == DescribedBy(p.helperText, p.error, v.textarea.id)
    ensures v.textarea.spread.Keys == p.rest.Keys - OwnKeys
    ensures forall k :: k in v.textarea.spread ==> v.textarea.spread[k] == p.rest[k]
    ensures v.containerClass == ContainerClasses(p.error != "", p.disabled, p.containerClassName)
    ensures v.helper == HelperNode(p.helperText, p.error != "", v.textarea.id)
    ensures v.errorMessage.Some? <==> p.error != ""
    ensures v.errorMessage.Some? ==>
      v.errorMessage.value.id == ErrorId(v.textarea.id) && v.errorMessage.value.text == p.error
    ensures v.labelNode.marker.Some? <==> p.required
    ensures v.labelNode.text == p.labelText
    ensures v.labelNode.className == Label.Classes(p.error != "", LabelClasses(p.hideLabel))
  {
    var id := IdOf(p.id, autoId);
    var hasError := p.error != "";
    var labelNode := Label.Render(Label.LabelProps(id, p.required, None, hasError, LabelClasses(p.hideLabel), p.labelText, map[]));
    var textarea := TextareaElement(id, TextareaClasses(p.autoResize, hasError, p.textareaClassName, p.className),
                                    p.rows.GetOr(DefaultRows), hasError, DescribedBy(p.helperText, p.error, id),
                                    p.required, p.disabled, Rest(p.rest, OwnKeys));
    var err := ErrorMessage.Render(ErrorMessage.ErrorMessageProps(ErrorId(id), p.error, None, ""));
    TextAreaView(ContainerClasses(hasError, p.disabled, p.containerClassName), labelNode, textarea,
                 HelperNode(p.helperText, hasError, id), err)
  }

  /** What one change event does, in order. */
  datatype ChangeEffect =
    | Resize              // the height is reset and set to the content's height
    | Forward(h: Handler) // the caller's `onChange` receives the event

  /**
   * `handleChange`: `handleResize()` then `onChange?.(e)`. The resize acts
   * only with `autoResize` and a mounted element.
   */
  function HandleChange(autoResize: bool, mounted: bool, onChange: Option<Handler>): (r: seq<ChangeEffect>)
    ensures Resize in r <==> autoResize && mounted
    ensures (exists h :: Forward(h) in r) <==> onChange.Some?
    ensures onChange.Some? ==> r[|r| - 1] == Forward(onChange.value)
    ensures |r| <= 2 && forall i :: 0 <= i < |r| - 1 ==> r[i] == Resize
  {
    (if autoResize && mounted then [Resize] else [])
    + (match onChange case Some(h) => [Forward(h)] case None => [])
  }

  /** A DOM element, known only by its identity. */
  type Element = nat

  /** A ref object `{ current }`. */
  class RefObject {
    var current: Option<Element>

    constructor()
      ensures current == None
    {
      current := None;
    }
  }

  /** The arguments a function ref has been called with, in order. */
  class CallLog {
    var calls: seq<Option<Element>>

    constructor()
      ensures calls == []
    {
      calls := [];
    }
  }

  /** The `ref` forwarded to the component: none, a function ref or an object ref. */
  datatype ForwardedRef = NoRef | FunctionRef(log: CallLog) | ObjectRef(target: RefObject)

  /** The objects `SetRefs` may write for a forwarded ref. */
  function RefFrame(ref: ForwardedRef): set<object> {
    match ref
    case NoRef => {}
    case FunctionRef(log) => {log}
    case ObjectRef(target) => {target}
  }

  /**
   * `setRefs`: the element (or null on unmount) goes to the component's own
   * ref, then to the forwarded ref, by calling it when it is a function and
   * by assigning its `current` when it is an object.
   */
  method SetRefs(own: RefObject, ref: ForwardedRef, element: Option<Element>)
    modifies own, RefFrame(ref)
    ensures own.current == element
    ensures ref.ObjectRef? ==> ref.target.current == element
    ensures ref.FunctionRef? ==> ref.log.calls == old(ref.log.calls) + [element]
  {
    own.current := element;
    match ref {
      case NoRef =>
      case FunctionRef(log) =>
        log.calls := log.calls + [element];
      case ObjectRef(target) =>
        target.current := element;
    }
  }
}
