/** Metadata values and the truthiness tests cuesplit applies to optional strings. */
module Metadata {
  import opened Wrappers
  import opened Numbers
  import opened Dicts

  /** A metadata value: the tags, titles and names are strings, TRACKNUMBER and TRACKTOTAL integers. */
  datatype Value = Str(s: string) | Int(i: int)

  /** A metadata dictionary, in insertion order. */
  type Meta = Dict<Value>

  /** `str(v)` */
  function Render(v: Value): (r: string)
    ensures v.Str? ==> r == v.s
    ensures v.Int? ==> ParseInt(r) == Some(v.i)
  {
    match v
    case Str(s) => s
    case Int(i) => IntToStringRoundTrip(i); IntToString(i)
  }

  /** Python truthiness of an optional string: present and non-empty. */
  predicate Truthy(s: Option<string>) {
    s.Some? && s.value != ""
  }
}
