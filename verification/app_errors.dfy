/** The application's error hierarchy: every application error carries a
    message, an optional code and a context, and some kinds carry extra
    fields.  Its text shows the code in brackets when there is one.  The
    error-handling wrapper lets application errors through unchanged and
    turns any other failure into an application error with a fixed code. */
module AppErrors {
  import opened Wrappers

  /** The kinds of application error and the fields each adds. */
  datatype Kind =
    | General
    | DataValidation(fieldName: Option<string>, invalidValue: Option<string>)
    | DataProcessing
    | CommissionCalculation(employeeName: Option<string>, businessUnit: Option<string>)
    | Configuration
    | Authentication
    | Authorization(requiredRole: Option<string>, userRole: Option<string>)
    | Database
    | Export(exportFormat: Option<string>)
    | Import(filePath: Option<string>, lineNumber: Option<int>)
    | Analytics
    | BusinessRule(ruleName: Option<string>)

  datatype AppError = AppError(kind: Kind, message: string, errorCode: Option<string>, context: map<string, string>)

  /** Raising an application error: a missing context becomes empty. */
  function MakeError(kind: Kind, message: string, errorCode: Option<string>, context: Option<map<string, string>>): (e: AppError)
    ensures e.kind == kind && e.message == message && e.errorCode == errorCode
    ensures context.None? ==> e.context == map[]
    ensures context.Some? ==> e.context == context.value
  {
    AppError(kind, message, errorCode, context.GetOr(map[]))
  }

  /** The error's text: `[code] message` when the code is set and not
      empty, the bare message otherwise. */
  function Text(e: AppError): (t: string)
    ensures e.errorCode.None? || e.errorCode.value == "" ==> t == e.message
    ensures e.errorCode.Some? && e.errorCode.value != "" ==>
      |t| == |e.errorCode.value| + |e.message| + 3 && t[0] == '[' && t[|e.errorCode.value| + 1] == ']'
  {
    if e.errorCode.Some? && e.errorCode.value != "" then "[" + e.errorCode.value + "] " + e.message else e.message
  }

  /** The message always ends the text, so it can be read back off it. */
  lemma MessageEndsText(e: AppError)
    ensures |e.message| <= |Text(e)|
    ensures Text(e)[|Text(e)| - |e.message|..] == e.message
  {
  }

  /** A failure: an application error, or any other exception with its text. */
  datatype Failure = App(error: AppError) | Foreign(text: string)

  /** What a wrapped call does: return a value or fail. */
  datatype Outcome<T> = Returned(value: T) | Raised(failure: Failure)

  const UnexpectedCode := "UNEXPECTED_ERROR"

  /** `handle_exception` around the function `name` called with arguments
      whose text is `args`. */
  function Handle<T>(name: string, args: string, o: Outcome<T>): (r: Outcome<T>)
    ensures o.Returned? ==> r == o
    ensures o.Raised? && o.failure.App? ==> r == o
    ensures o.Raised? && o.failure.Foreign? ==>
      r == Raised(App(AppError(General, "Unexpected error in " + name + ": " + o.failure.text, Some(UnexpectedCode),
                               map["function" := name, "args" := args])))
    ensures r.Raised? ==> r.failure.App?
  {
    match o
    case Returned(_) => o
    case Raised(App(_)) => o
    case Raised(Foreign(t)) =>
      Raised(App(MakeError(General, "Unexpected error in " + name + ": " + t, Some(UnexpectedCode),
                           Some(map["function" := name, "args" := args]))))
  }

  /** Wrapping twice is wrapping once, and the wrapper fails exactly when
      the call does. */
  lemma HandleIdempotent<T>(name: string, args: string, o: Outcome<T>)
    ensures Handle(name, args, Handle(name, args, o)) == Handle(name, args, o)
    ensures Handle(name, args, o).Raised? <==> o.Raised?
  {
  }

  /** A wrapped foreign failure shows the fixed code and names the function. */
  lemma UnexpectedText<T>(name: string, args: string, t: string)
    ensures var r := Handle<T>(name, args, Raised(Foreign(t)));
      Text(r.failure.error) == "[" + UnexpectedCode + "] " + ("Unexpected error in " + name + ": " + t)
  {
  }
}
