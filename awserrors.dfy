/** The error normalisation shared by the three AWS adapters (the DynamoDB, S3 and SNS
    modules each have their own copy with their own texts). */
module AwsErrors {
  import opened Types

  /** The adapters' `isAwsError` guard: a non-null object with a `name` key. Every `Error`
      instance has `name` through its prototype, so it passes too. */
  predicate IsAwsError(e: Thrown) {
    e.ErrorInstance? || (e.PlainObject? && e.objName.Some?)
  }

  /** The `error instanceof Error` test of the adapters' second branch can only hold when the
      first branch was already taken: that second branch is dead code. */
  lemma InstanceofBranchUnreachable(e: Thrown)
    ensures e.ErrorInstance? ==> IsAwsError(e)
  {
  }

  /** `error.name` of an object that passed `IsAwsError`. */
  function NameOf(e: Thrown): string
    requires IsAwsError(e)
  {
    if e.ErrorInstance? then e.name else e.objName.value
  }

  /** `error.message`, `None` when the key is absent. */
  function OwnMessage(e: Thrown): Option<string> {
    match e
    case ErrorInstance(_, message, _, _) => Some(message)
    case PlainObject(_, message, _, _, _) => message
    case NonObject(_) => None
  }

  /** `error.message || fallback`: an absent or empty message falls back. */
  function MessageOr(e: Thrown, fallback: string): (m: string)
    ensures OwnMessage(e).Some? && OwnMessage(e).value != "" ==> m == OwnMessage(e).value
    ensures !(OwnMessage(e).Some? && OwnMessage(e).value != "") ==> m == fallback
  {
    match OwnMessage(e)
    case Some(msg) => if msg != "" then msg else fallback
    case None => fallback
  }

  /** `error.stack` of an object that passed `IsAwsError`. */
  function StackOf(e: Thrown): Option<string>
    requires IsAwsError(e)
  {
    if e.ErrorInstance? then e.stack else e.objStack
  }

  /** The three texts in which the adapters' copies differ. */
  datatype ErrorTexts = ErrorTexts(initial: string, awsFallback: string, unexpected: string)


  /** The normalised error an adapter throws for a caught value `e`. `development` stands for
      `NODE_ENV === 'development'`. The initial message `texts.initial` is overwritten on
      every path. */
  function Normalized(e: Thrown, texts: ErrorTexts, development: bool): (r: ApiError)
    ensures r.code.Some?
    ensures IsAwsError(e) <==> r.details == Some(Raised(e))
    ensures IsAwsError(e) ==> r.code == Some(NameOf(e)) && r.message == MessageOr(e, texts.awsFallback)
    ensures !IsAwsError(e) ==> r.code == Some(UnknownCode) && r.message == texts.unexpected
    ensures r.stack.Some? ==> development && IsAwsError(e)
    ensures IsAwsError(e) ==> r.stack == (if development then StackOf(e) else None)
    ensures !IsAwsError(e) ==> r.details == Some(Str(StringOf(e))) && r.stack.None?
  {
    if IsAwsError(e) then
      ApiError(MessageOr(e, texts.awsFallback), Some(NameOf(e)), Some(Raised(e)),
               if development then StackOf(e) else None)
    else
      ApiError(texts.unexpected, Some(UnknownCode), Some(Str(StringOf(e))), None)
  }
}
