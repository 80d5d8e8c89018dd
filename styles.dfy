/**
 * Class names of the CSS modules `forms.module.css` and
 * `navigation.module.css`. A CSS module maps each key to a generated,
 * non-empty class name without spaces; the model uses the keys themselves as
 * those names, and the proofs rely only on each being one token.
 */
module Styles {
  import opened TokenList

  const FormField: string := "formField"
  const FormFieldError: string := "formField--error"
  const FormFieldDisabled: string := "formField--disabled"
  const Input: string := "input"
  const InputError: string := "input--error"
  const Select: string := "select"
  const SelectError: string := "select--error"
  const SelectWrapper: string := "selectWrapper"
  const SelectWrapperError: string := "selectWrapper--error"
  const TextArea: string := "textarea"
  const TextAreaAutoResize: string := "textarea--autoResize"
  const TextAreaError: string := "textarea--error"
  const HelperText: string := "helperText"
  const Label: string := "label"
  const LabelError: string := "label--error"
  const LabelVisuallyHidden: string := "label--visuallyHidden"
  const LabelRequired: string := "label__required"
  const LabelRequiredText: string := "label__required-text"
  const ErrorMessage: string := "errorMessage"
  const ErrorMessageIcon: string := "errorMessage__icon"
  const ErrorMessageText: string := "errorMessage__text"

  const Navigation: string := "navigation"
  const NavigationScrolled: string := "navigation--scrolled"
  const NavigationTransparent: string := "navigation--transparent"
  const MobileMenu: string := "navigation__mobile-menu"
  const MobileMenuOpen: string := "navigation__mobile-menu--open"
  const MobileMenuClosed: string := "navigation__mobile-menu--closed"

  /** The container, input and select class names are single tokens. */
  lemma ControlTokens()
    ensures IsToken(FormField) && IsToken(FormFieldError) && IsToken(FormFieldDisabled)
    ensures IsToken(Input) && IsToken(InputError)
    ensures IsToken(Select) && IsToken(SelectError) && IsToken(SelectWrapper) && IsToken(SelectWrapperError)
  {
  }

  /** The textarea, helper, label and error class names are single tokens. */
  lemma TextTokens()
    ensures IsToken(TextArea) && IsToken(TextAreaAutoResize) && IsToken(TextAreaError) && IsToken(HelperText)
    ensures IsToken(Label) && IsToken(LabelError) && IsToken(LabelVisuallyHidden)
    ensures IsToken(LabelRequired) && IsToken(LabelRequiredText)
    ensures IsToken(ErrorMessage) && IsToken(ErrorMessageIcon) && IsToken(ErrorMessageText)
  {
  }

  /** The navigation class names are single tokens. */
  lemma NavigationTokens()
    ensures IsToken(Navigation) && IsToken(NavigationScrolled) && IsToken(NavigationTransparent)
    ensures IsToken(MobileMenu) && IsToken(MobileMenuOpen) && IsToken(MobileMenuClosed)
  {
  }
}
