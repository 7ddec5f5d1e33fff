/** The values the backend stores in its JSON-like dictionaries, and the
    record the crawlers return. */
module Fields {
  import opened Wrappers
  import opened Text

  /** The Python format specifications the backend applies to numbers. */
  datatype Spec =
    | Comma2     // f"{x:,.2f}"
    | Fixed2     // f"{x:.2f}"
    | Comma2Pct  // f"{x:,.2f}%"
    | Fixed2Pct  // f"{x:.2f}%"
    | Fixed1Pct  // f"{x:.1f}%"
    | IntK       // f"{int(x)}K"
    | IntEok     // f"{int(x)}억$"

  /** The text a rendering of `spec` ends with, after the digits. */
  function Suffix(spec: Spec): string {
    match spec
    case Comma2Pct => "%"
    case Fixed2Pct => "%"
    case Fixed1Pct => "%"
    case IntK => "K"
    case IntEok => "억$"
    case Comma2 => ""
    case Fixed2 => ""
  }

  /** A dictionary value: a literal `str`, a number the backend rendered
      with an f-string (the string `prefix + format(x, spec)`, its digits
      left abstract), or a bare Python number. */
  datatype Field =
    | Str(s: string)
    | Fmt(prefix: string, spec: Spec, x: real)
    | Num(x: real)

  /** The sign the backend writes in front of a change: `"+"` for a
      non-negative one, nothing otherwise (a negative number brings its own
      minus sign). */
  function SignPrefix(x: real): (p: string)
    ensures p == "+" <==> x >= 0.0
    ensures p == "" <==> x < 0.0
  {
    if x >= 0.0 then "+" else ""
  }

  /** Python's `p in value` on a string field. A rendered number matches `p`
      only inside its prefix or suffix, because its digits, separators and
      minus sign are none of the characters of the patterns used here
      (`%`, `K` and `억$`). A bare number is not text. */
  predicate TextContains(f: Field, p: string) {
    match f
    case Str(s) => Contains(s, p)
    case Fmt(prefix, spec, _) => Contains(prefix + Suffix(spec), p)
    case Num(_) => false
  }

  /** What a crawler hands back: the value, change and percent as the page
      or API showed them, and the dates it knew. */
  datatype Reading = Reading(value: Field, change: Field, percent: Field, date: Option<string>, nextDate: Option<string>)
}
