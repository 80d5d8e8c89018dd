/**
 * The composition that TextInput, SelectInput, TextArea and FormField share:
 * the control's id and the ids of its error and helper nodes, the
 * `aria-describedby` list, the container and label class lists, and the
 * helper paragraph.
 */
module Field {
  import opened Wrappers
  import opened TokenList
  import Styles

  const ErrorSuffix: string := "-error"
  const HelperSuffix: string := "-helper"

  /** `providedId || autoId`: the given id unless it is empty. */
  function IdOf(providedId: string, autoId: string): (id: string)
    ensures providedId != "" ==> id == providedId
    ensures providedId == "" ==> id == autoId
    ensures id == "" <==> providedId == "" && autoId == ""
  {
    if providedId != "" then providedId else autoId
  }

  /** `${id}-error` */
  function ErrorId(id: string): string {
    id + ErrorSuffix
  }

  /** `${id}-helper` */
  function HelperId(id: string): string {
    id + HelperSuffix
  }

  /**
   * The three ids a field uses never collide, each suffixed id keeps the
   * control's id as its prefix, and for a token id the suffixed ids are
   * tokens too.
   */
  lemma IdsDistinct(id: string)
    ensures ErrorId(id) != HelperId(id) && ErrorId(id) != id && HelperId(id) != id
    ensures ErrorId(id)[..|id|] == id && HelperId(id)[..|id|] == id
    ensures IsToken(id) ==> IsToken(ErrorId(id)) && IsToken(HelperId(id))
  {
    assert |ErrorId(id)| == |id| + 6 && |HelperId(id)| == |id| + 7;
    if IsToken(id) {
      assert NoAsciiSpace(ErrorSuffix) && NoAsciiSpace(HelperSuffix);
      forall k | 0 <= k < |ErrorId(id)| ensures !IsAsciiSpace(ErrorId(id)[k]) {
        if k < |id| { assert ErrorId(id)[k] == id[k]; } else { assert ErrorId(id)[k] == ErrorSuffix[k - |id|]; }
      }
      forall k | 0 <= k < |HelperId(id)| ensures !IsAsciiSpace(HelperId(id)[k]) {
        if k < |id| { assert HelperId(id)[k] == id[k]; } else { assert HelperId(id)[k] == HelperSuffix[k - |id|]; }
      }
    }
  }

  /**
   * `[helperText && helperId, error && errorId].filter(Boolean).join(' ') || undefined`:
   * the helper id when there is helper text, then the error id when there
   * is an error, one space between them, and no attribute at all when
   * neither is present.
   */
  function DescribedBy(helperText: string, error: string, id: string): (r: Option<string>)
    ensures r.None? <==> helperText == "" && error == ""
    ensures helperText != "" && error == "" ==> r == Some(HelperId(id))
    ensures helperText == "" && error != "" ==> r == Some(ErrorId(id))
    ensures helperText != "" && error != "" ==> r == Some(HelperId(id) + " " + ErrorId(id))
  {
    var h := Entry(helperText != "", HelperId(id));
    var e := Entry(error != "", ErrorId(id));
    var s := Build([h, e]);
    BuildTwo(h, e);
    IdsDistinct(id);
    if s == "" then None else Some(s)
  }

  /**
   * For a token id the browser reads from `aria-describedby` the helper id
   * when there is helper text, then the error id when there is an error.
   */
  lemma DescribedByWords(helperText: string, error: string, id: string)
    requires IsToken(id)
    ensures DescribedBy(helperText, error, id).Some? ==>
      Words(DescribedBy(helperText, error, id).value)
        == When(helperText != "", HelperId(id)) + When(error != "", ErrorId(id))
  {
    var hid, eid := HelperId(id), ErrorId(id);
    var h, e := Entry(helperText != "", hid), Entry(error != "", eid);
    IdsDistinct(id);
    BuildTwo(h, e);
    WordsBuild([h, e]);
    assert [h, e] == [h] + [e];
    WordsOfAllAppend([h], [e]);
    WordsOfAllWhen(helperText != "", hid);
    WordsOfAllWhen(error != "", eid);
  }

  /**
   * For a token id, `aria-describedby` names the helper id exactly when there
   * is helper text and the error id exactly when there is an error, and
   * nothing else. So it names the helper paragraph whenever that is shown,
   * and still names the helper id when an error hides the paragraph.
   */
  lemma DescribedByNames(helperText: string, error: string, id: string)
    requires IsToken(id)
    ensures var d := DescribedBy(helperText, error, id);
      var refs := if d.Some? then Words(d.value) else [];
      && (HelperId(id) in refs <==> helperText != "")
      && (ErrorId(id) in refs <==> error != "")
      && (forall r :: r in refs ==> r == HelperId(id) || r == ErrorId(id))
      && (HelperNode(helperText, error != "", id).Some? ==> HelperNode(helperText, error != "", id).value.id in refs)
      && (helperText != "" && error != "" ==> HelperId(id) in refs && HelperNode(helperText, error != "", id).None?)
  {
    DescribedByWords(helperText, error, id);
    IdsDistinct(id);
  }

  /**
   * `[formField, hasError && formField--error, disabled && formField--disabled, extra]`
   * joined: the browser reads the base class, then the error class exactly
   * when there is an error, then the disabled class exactly when disabled,
   * then the caller's own classes; no stray spaces when the caller's have none.
   */
  function ContainerClasses(hasError: bool, disabled: bool, extra: string): string {
    Build([Styles.FormField, Entry(hasError, Styles.FormFieldError), Entry(disabled, Styles.FormFieldDisabled), extra])
  }

  lemma ContainerClassesWords(hasError: bool, disabled: bool, extra: string)
    ensures Words(ContainerClasses(hasError, disabled, extra))
      == [Styles.FormField] + When(hasError, Styles.FormFieldError) + When(disabled, Styles.FormFieldDisabled) + Words(extra)
    ensures WellFormed(extra) ==> WellFormed(ContainerClasses(hasError, disabled, extra))
  {
    Styles.ControlTokens();
    EntryWords(hasError, Styles.FormFieldError);
    EntryWords(disabled, Styles.FormFieldDisabled);
    ClassListOfFour(Styles.FormField, Entry(hasError, Styles.FormFieldError),
                    Entry(disabled, Styles.FormFieldDisabled), extra);
  }

  /** `[hideLabel && label--visuallyHidden].filter(Boolean).join(' ')`. */
  function LabelClasses(hideLabel: bool): (r: string)
    ensures r == (if hideLabel then Styles.LabelVisuallyHidden else "")
  {
    var parts := [if hideLabel then Styles.LabelVisuallyHidden else ""];
    assert parts[1..] == [];
    assert Build(parts[1..]) == "";
    Build(parts)
  }

  /** The helper paragraph `<p id={helperId} className={helperText}>`. */
  datatype Helper = Helper(id: string, className: string, text: string)

  /** `helperText && !hasError && <p …>`: shown only without an error. */
  function HelperNode(helperText: string, hasError: bool, id: string): (r: Option<Helper>)
    ensures r.Some? <==> helperText != "" && !hasError
    ensures r.Some? ==> r.value == Helper(HelperId(id), Styles.HelperText, helperText)
  {
    if helperText != "" && !hasError then Some(Helper(HelperId(id), Styles.HelperText, helperText)) else None
  }
}
