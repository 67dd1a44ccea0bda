/**
 * The best-effort phone reveal on a detail page: look up the show-phone button,
 * click it, wait for the number to render, read the button's text. A missing
 * button and any failure along the way both end in a fixed fallback text.
 */
module Phone {

  /** How one awaited browser call ended: it resolved with a value, or it threw. */
  datatype Attempt<T> = Resolved(value: T) | Threw

  /** What each step of the reveal meets on the page. */
  datatype PhoneButton = PhoneButton(
    lookup: Attempt<bool>,    // querying the show-phone selector: whether a button was found
    clickThrows: bool,        // clicking the button throws
    settleThrows: bool,       // the fixed settle wait after the click throws
    read: Attempt<string>)    // reading the button's text content after the click

  /** The value kept when the page has no show-phone button. */
  const ButtonNotFound := "Botão não encontrado"

  /** The value kept when looking up, clicking, waiting or reading throws. */
  const ClickFailed := "Erro ao clicar"

  /** Some step of the reveal that actually runs throws. */
  predicate Faulted(b: PhoneButton)
  {
    || b.lookup.Threw?
    || (b.lookup.value && (b.clickThrows || b.settleThrows || b.read.Threw?))
  }

  /**
   * The phone value as a three-way choice: the not-found sentinel, the
   * click-error sentinel, or the text read after the click.
   */
  function PhoneValue(b: PhoneButton): (r: string)
    ensures b.lookup == Resolved(false) ==> r == ButtonNotFound
    ensures Faulted(b) ==> r == ClickFailed
    ensures b.lookup == Resolved(true) && !Faulted(b) ==> r == b.read.value
  {
    match b.lookup
    case Threw => ClickFailed
    case Resolved(found) =>
      if !found then ButtonNotFound
      else if b.clickThrows || b.settleThrows then ClickFailed
      else match b.read
        case Threw => ClickFailed
        case Resolved(text) => text
  }

  /** The reveal as the handler runs it: a default, overwritten by the read text or by the catch. */
  method RevealPhone(b: PhoneButton) returns (telefone: string)
    ensures telefone == PhoneValue(b)
  {
    telefone := ButtonNotFound;
    var threw := false;
    match b.lookup {
      case Threw =>
        threw := true;
      case Resolved(found) =>
        if found {
          if b.clickThrows || b.settleThrows {
            threw := true;
          } else {
            match b.read {
              case Threw => threw := true;
              case Resolved(text) => telefone := text;
            }
          }
        }
    }
    if threw {
      telefone := ClickFailed;
    }
  }
}
