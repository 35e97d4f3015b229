/** The text renderValue shows for a primitive value. */
module Render {
  import opened JsonValue

  /**
   * `null` shows as `null`, a string between double quotes with nothing
   * escaped, a number or a boolean as its plain text.
   */
  function RenderValue(v: Json): (text: string)
    requires !IsContainer(v)
    ensures v.Null? ==> text == "null"
    ensures v.Bool? ==> (text == "true" <==> v.b) && (text == "false" <==> !v.b)
    ensures v.Str? ==>
      |text| == |v.s| + 2 && text[0] == '"' && text[|text| - 1] == '"' && Unquote(text) == v.s
  {
    match v
    case Null => "null"
    case Str(s) => "\"" + s + "\""
    case Num(t) => t
    case Bool(b) => if b then "true" else "false"
  }

  /**
   * Text JavaScript prints for a number: an optional minus sign, then a
   * digit, `Infinity` or `NaN`.
   */
  predicate NumberText(t: string) {
    |t| > 0 && (t[0] == '-' || '0' <= t[0] <= '9' || t[0] == 'I' || t[0] == 'N')
  }

  /** Only the numbers keep their token text; the other primitives are fixed. */
  predicate WellFormedPrimitive(v: Json) {
    !IsContainer(v) && (v.Num? ==> NumberText(v.text))
  }

  /** Dropping the outer quotes of a rendered string gives the string back. */
  function Unquote(text: string): string
    requires |text| >= 2
  {
    text[1..|text| - 1]
  }

  /**
   * The rendering loses no information: two primitives that render to the
   * same text are the same value.
   */
  lemma RenderValueInjective(a: Json, b: Json)
    requires WellFormedPrimitive(a) && WellFormedPrimitive(b)
    ensures RenderValue(a) == RenderValue(b) ==> a == b
  {
    if RenderValue(a) == RenderValue(b) {
      if a.Str? || b.Str? {
        assert a.Str? && b.Str? by {
          assert RenderValue(a)[0] == '"';
        }
      } else if a.Num? || b.Num? {
        assert RenderValue(a)[0] != 'n' && RenderValue(a)[0] != 't' && RenderValue(a)[0] != 'f';
      }
    }
  }
}
