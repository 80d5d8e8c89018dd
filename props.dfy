/**
 * React props and rendered element attributes as finite maps from prop name
 * to value. Object spread `{...base, ...over}` is the right-biased union of
 * the two maps, and destructuring `{a, b, ...rest}` leaves in `rest` every
 * key but the named ones.
 */
module Props {
  import opened Wrappers

  /** A prop value: a string, a boolean, a number, explicit `undefined`, or an object or function the core only passes on. */
  datatype PropValue = Str(s: string) | Flag(b: bool) | Num(n: int) | Undefined | Opaque(tag: nat)

  /** The spelling of every prop name that has its own constructor below. */
  const NamedProps: set<string> := {
    "id", "type", "className", "htmlFor", "disabled", "rows", "onChange",
    "aria-invalid", "aria-describedby", "aria-required",
    "label", "error", "helperText", "hideLabel", "required", "requiredText", "children",
    "containerClassName", "inputClassName", "selectClassName", "textareaClassName",
    "options", "placeholder", "autoResize"}

  /** Any other prop name, so that one attribute never has two keys. */
  type OtherName = n: string | n !in NamedProps witness "data-testid"

  /**
   * A prop name. The names the core reads, writes or destructures have their
   * own constructor (`LabelText` is the `label` prop); `Other` carries any
   * other name.
   */
  datatype PropName =
    | Id | Type | ClassName | HtmlFor | Disabled | Rows | OnChange
    | AriaInvalid | AriaDescribedBy | AriaRequired
    | LabelText | Error | HelperText | HideLabel | Required | RequiredText | Children
    | ContainerClassName | InputClassName | SelectClassName | TextareaClassName
    | Options | Placeholder | AutoResize
    | Other(name: OtherName)

  type Props = map<PropName, PropValue>

  /** `{...base, ...over}`: every key of either, the later object winning. */
  function Spread(base: Props, over: Props): (r: Props)
    ensures r.Keys == base.Keys + over.Keys
    ensures forall k :: k in over ==> r[k] == over[k]
    ensures forall k :: k in base && k !in over ==> r[k] == base[k]
  {
    base + over
  }

  /** The `...rest` of a destructuring that names `own`. */
  function Rest(p: Props, own: set<PropName>): (r: Props)
    ensures r.Keys == p.Keys - own
    ensures forall k :: k in r ==> r[k] == p[k]
  {
    p - own
  }

  /**
   * `s || undefined` once the emptiness test is done: `None` (the empty
   * joined list, see `Field.DescribedBy`) becomes `undefined`, so the
   * attribute is left off; any other value is passed as the string.
   */
  function OrUndefined(s: Option<string>): (v: PropValue)
    ensures v == Undefined <==> s.None?
    ensures s.Some? ==> v == Str(s.value)
  {
    match s
    case Some(x) => Str(x)
    case None => Undefined
  }
}
