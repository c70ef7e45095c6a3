/** The null-safe stringifier of MyConvert.cs, over an abstract model of C# objects. */
module MyConvert {
  import opened Wrappers

  /**
   * A C# `object` reference as the stringifiers see it: null, `DBNull.Value`,
   * or some other object. `text` is what converting the object to text
   * yields; `None` means that conversion throws. The source converts in two
   * ways: `System.Convert.ToString`, which formats through the current
   * culture, and `string + object`, which calls the object's own `ToString()`
   * (null giving ""). The model takes both to yield the same `text`, with any
   * culture-specific formatting folded into it.
   */
  datatype Object = Null | DBNull | Boxed(text: Option<string>)

  /** A C# string passed where an `object` is expected. */
  function Box(s: string): (o: Object)
    ensures ConvertToString(o) == Some(s)
  {
    Boxed(Some(s))
  }

  /**
   * `System.Convert.ToString(object)`, failing with `None` when it throws.
   * The framework maps null and `DBNull.Value` to the empty string.
   */
  function ConvertToString(o: Object): Option<string> {
    match o
    case Null => Some("")
    case DBNull => Some("")
    case Boxed(t) => t
  }

  /** `MyConvert.ToString`: never throws; null, `DBNull` and failing conversions give "". */
  function ToString(input: Object): (s: string)
    ensures input.Null? || input.DBNull? ==> s == ""
    ensures ConvertToString(input).None? ==> s == ""
    ensures input.Boxed? && ConvertToString(input).Some? ==> s == ConvertToString(input).value
  {
    if input.Null? || input.DBNull? then
      ""
    else
      match ConvertToString(input)
      case Some(t) => t
      case None => ""
  }

  /** The wrapper adds nothing but the catch: it is the framework conversion with "" on failure. */
  lemma ToStringIsConvertOrEmpty(input: Object)
    ensures ToString(input) == ConvertToString(input).GetOr("")
  {
  }

  /** On a string argument the wrapper is the identity. */
  lemma ToStringOfString(s: string)
    ensures ToString(Box(s)) == s
  {
  }
}
