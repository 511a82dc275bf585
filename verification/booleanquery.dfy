/** `parseBooleanQuery` (src/utils/parseBooleanQuery.ts). */
module BooleanQuery {
  import opened Options

  /**
   * Reads an optional query-string value as a tri-state boolean: only the
   * exact strings "true" and "false" are understood; anything else, and a
   * missing value, is `undefined` (`None`).
   */
  function ParseBooleanQuery(value: Option<string>): (r: Option<bool>)
    ensures r == Some(true) <==> value == Some("true")
    ensures r == Some(false) <==> value == Some("false")
    ensures r == None <==> value != Some("true") && value != Some("false")
  {
    match value
    case Some(s) => if s == "true" then Some(true) else if s == "false" then Some(false) else None
    case None => None
  }

  /** How a boolean is written in a query string. */
  function QueryText(b: bool): string {
    if b then "true" else "false"
  }

  /** Parsing is a left inverse of writing, and every other text is rejected. */
  lemma ParseWrittenBoolean(b: bool, s: string)
    ensures ParseBooleanQuery(Some(QueryText(b))) == Some(b)
    ensures ParseBooleanQuery(Some(s)).Some? ==> QueryText(ParseBooleanQuery(Some(s)).value) == s
    ensures ParseBooleanQuery(Some("TRUE")) == None && ParseBooleanQuery(Some("1")) == None
  {
  }
}
