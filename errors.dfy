/** The sentinel errors a pattern validation can return, with `NoError`
    standing for Go's `nil`. The constructor names keep the Go identifiers,
    including the spelling of `ErrOneLevelWileCard`. */
module Errors {

  datatype PatternError =
    | NoError                 // nil
    | ErrInvalidPattern       // "pattern: invalid pattern string"
    | ErrOneLevelWileCard     // "pattern: invalid one level wildcard"
    | ErrMultiLevelWildCard   // "pattern: invalid multi level wildcard"

  /** The text `Error()` returns for each sentinel; nil has none. Every
      sentinel's text carries the package prefix "pattern: ". */
  function Message(e: PatternError): (m: string)
    ensures m == "" <==> e == NoError
    ensures e != NoError ==> |m| > 9 && m[..9] == "pattern: "
  {
    match e
    case NoError => ""
    case ErrInvalidPattern => "pattern: invalid pattern string"
    case ErrOneLevelWileCard => "pattern: invalid one level wildcard"
    case ErrMultiLevelWildCard => "pattern: invalid multi level wildcard"
  }
}
