/** Number(v), the coercion the comparators' subtraction and the percent
    fields apply, on the integers the model uses. */
module JsNumber {
  import opened JsString
  import opened JsValue

  predicate AllDigits(t: string) {
    forall i | 0 <= i < |t| :: IsDigit(t[i])
  }

  /** The integer a trimmed numeric text denotes: empty is 0, and otherwise
      decimal digits with an optional sign. */
  function NumberText(t: string): Option<int> {
    if t == "" then Some(0)
    else if AllDigits(t) then Some(DigitsValue(t))
    else if |t| >= 2 && (t[0] == '-' || t[0] == '+') && AllDigits(t[1..]) then
      var n: int := DigitsValue(t[1..]);
      Some(if t[0] == '-' then -n else n)
    else None
  }

  /** `Number(v)` on the values a percent field or input holds; None is NaN. */
  function ToNumber(v: Val): Option<int> {
    match v
    case Num(n) => Some(n)
    case Bool(b) => Some(if b then 1 else 0)
    case Null => Some(0)
    case Str(s) => NumberText(Trim(s))
    case _ => None
  }
}
