/** The `ErrorMessage` component: an alert region that exists only for a message. */
module ErrorMessage {
  import opened Wrappers
  import opened TokenList
  import Styles

  /** Props of `ErrorMessage`; an omitted `message` or `className` is "". */
  datatype ErrorMessageProps = ErrorMessageProps(id: string, message: string, showIcon: Option<bool>, className: string)

  /** The rendered `<div role="alert" …>` with its optional icon and its text. */
  datatype ErrorView = ErrorView(
    id: string,
    className: string,
    role: string,
    ariaLive: string,
    ariaAtomic: string,
    icon: bool,
    text: string)

  /** `[errorMessage, className]` joined: the base class, then the caller's classes. */
  function Classes(className: string): string {
    Build([Styles.ErrorMessage, className])
  }

  lemma ClassesWords(className: string)
    ensures Words(Classes(className)) == [Styles.ErrorMessage] + Words(className)
    ensures WellFormed(className) ==> WellFormed(Classes(className))
  {
    Styles.TextTokens();
    ClassListOfTwo(Styles.ErrorMessage, className);
  }

  /**
   * Nothing is rendered exactly when the message is empty; otherwise the
   * region has the given id (the one `aria-describedby` names), announces
   * politely and atomically as an alert, shows the message, and shows the
   * icon when `showIcon`, which defaults to true.
   */
  function Render(p: ErrorMessageProps): (r: Option<ErrorView>)
    ensures r.None? <==> p.message == ""
    ensures r.Some? ==> r.value.id == p.id && r.value.text == p.message
    ensures r.Some? ==> r.value.role == "alert" && r.value.ariaLive == "polite" && r.value.ariaAtomic == "true"
    ensures r.Some? ==> r.value.icon == p.showIcon.GetOr(true)
    ensures r.Some? ==> r.value.className == Classes(p.className)
  {
    if p.message == "" then None
    else Some(ErrorView(p.id, Classes(p.className), "alert", "polite", "true", p.showIcon.GetOr(true), p.message))
  }
}
