/** The error kinds every component reports, and what `main` and the watch loop make of them. */
module Errors {

  /** `AppError`: one kind per failure class, each carrying a human-readable message. */
  datatype AppError =
    | Usage(msg: string)
    | Network(msg: string)
    | Json(msg: string)
    | Reduce(msg: string)
    | Outline(msg: string)
    | Io(msg: string)

  /** `AppError::exit_code`: the process exit status for a failed one-shot run. */
  function ExitCode(e: AppError): (code: int)
    ensures 1 <= code <= 4
    ensures code == 1 <==> e.Usage? || e.Network?
    ensures code == 2 <==> e.Json?
    ensures code == 3 <==> e.Reduce? || e.Outline?
    ensures code == 4 <==> e.Io?
    ensures IsUrlRelated(e) ==> code <= 2
  {
    match e
    case Usage(_) => 1
    case Network(_) => 1
    case Json(_) => 2
    case Reduce(_) => 3
    case Outline(_) => 3
    case Io(_) => 4
  }

  /** `AppError::is_url_related`: the failures a different endpoint might cure. */
  predicate IsUrlRelated(e: AppError)
  {
    match e
    case Network(_) => true
    case Json(_) => true
    case _ => false
  }

  /** `Display for AppError`: the carried message, unchanged, whatever the kind. */
  function Display(e: AppError): (s: string)
    ensures s == e.msg
  {
    match e
    case Usage(m) => m
    case Network(m) => m
    case Json(m) => m
    case Reduce(m) => m
    case Outline(m) => m
    case Io(m) => m
  }
}
