/**
  The language registry (`languageNames`): a read-only table from language
  code to display name. Its contents are not part of this model, so every
  operation takes the table as a parameter.
 */
module LanguageRegistry {
  import opened Wrappers

  type Registry = map<string, string>

  /**
    `languageNames[code]` is truthy: the code is a key and its display name
    is not the empty string (an empty string is falsy in JavaScript).
   */
  predicate Known(reg: Registry, code: string)
  {
    code in reg && reg[code] != ""
  }

  /** `languageNames[code]`, with `None` for `undefined`. */
  function NameOf(reg: Registry, code: string): (r: Option<string>)
    ensures r.Some? <==> code in reg
    ensures r.Some? ==> r.value == reg[code]
  {
    if code in reg then Some(reg[code]) else None
  }

  /** How a looked-up name renders inside a template literal. */
  function Show(name: Option<string>): string
  {
    match name
    case Some(n) => n
    case None => "undefined"
  }

}
