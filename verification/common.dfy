/** Shared vocabulary of the component library: the size and variant enums of
    src/types/common.ts, optional props, element identities and CSS modules. */
module Common {

  /** An optional prop or value; `None` is JavaScript's `undefined`. */
  datatype Option<+T> = None | Some(value: T) {
    /** `x ?? d` */
    function GetOr(default: T): T {
      match this
      case Some(v) => v
      case None => default
    }
  }

  /** `ComponentSize` */
  datatype ComponentSize = Small | Medium | Large

  /** `ComponentVariant` */
  datatype ComponentVariant = Primary | Secondary | Accent | Warning | Danger | Info

  /** The key a CSS module uses for a size (`styles[size]`). */
  function SizeKey(size: ComponentSize): string {
    match size
    case Small => "small"
    case Medium => "medium"
    case Large => "large"
  }

  /** The key a CSS module uses for a variant (`styles[variant]`). */
  function VariantKey(variant: ComponentVariant): string {
    match variant
    case Primary => "primary"
    case Secondary => "secondary"
    case Accent => "accent"
    case Warning => "warning"
    case Danger => "danger"
    case Info => "info"
  }

  /** The identity of a callback a caller passes in (`onClick`, `onChange`, ...). */
  type Handler = nat

  /** An element id as React's `useId` hands it out: opaque, compared only for equality. */
  datatype ElementId = ElementId(serial: nat)

  /** A CSS module: the class name it exports under each key. */
  type Styles = map<string, string>

  /** `styles.key`: `undefined` when the stylesheet does not define the key. */
  function Lookup(styles: Styles, key: string): Option<string> {
    if key in styles then Some(styles[key]) else None
  }

  /** How a template literal prints a possibly undefined string: `${x}`. */
  function TemplateText(x: Option<string>): string {
    match x
    case Some(s) => s
    case None => "undefined"
  }
}
