/** Chip statuses as fprintd strings (crates/elanprint-algo/src/status.rs). */
module DbusStatus {
  import opened Core
  import opened Proto
  import opened EnrollMachine

  /** A verify status string: one of the listed constants, or any other text. */
  datatype VerifyText =
    | VMatch | VNoMatch | VSwipeTooShort | VNotCentered | VRemoveAndRetry | VDisconnected | VUnknownError
    | VOther(text: string)

  /** An enroll status string; retry-scan is known to clients but never sent by this daemon. */
  datatype EnrollText =
    | ECompleted | EFailed | EStagePassed | ESwipeTooShort | ENotCentered | ERemoveAndRetry
    | EDataFull | EDuplicate | EDisconnected | EUnknownError | ERetryScan
    | EOther(text: string)

  function RenderVerify(t: VerifyText): string {
    match t
    case VMatch => "verify-match"
    case VNoMatch => "verify-no-match"
    case VSwipeTooShort => "verify-swipe-too-short"
    case VNotCentered => "verify-finger-not-centered"
    case VRemoveAndRetry => "verify-remove-and-retry"
    case VDisconnected => "verify-disconnected"
    case VUnknownError => "verify-unknown-error"
    case VOther(text) => text
  }

  /** What a client comparing against the constants makes of a string. */
  function ReadVerify(s: string): VerifyText {
    if s == "verify-match" then VMatch
    else if s == "verify-no-match" then VNoMatch
    else if s == "verify-swipe-too-short" then VSwipeTooShort
    else if s == "verify-finger-not-centered" then VNotCentered
    else if s == "verify-remove-and-retry" then VRemoveAndRetry
    else if s == "verify-disconnected" then VDisconnected
    else if s == "verify-unknown-error" then VUnknownError
    else VOther(s)
  }

  function RenderEnroll(t: EnrollText): string {
    match t
    case ECompleted => "enroll-completed"
    case EFailed => "enroll-failed"
    case EStagePassed => "enroll-stage-passed"
    case ESwipeTooShort => "enroll-swipe-too-short"
    case ENotCentered => "enroll-finger-not-centered"
    case ERemoveAndRetry => "enroll-remove-and-retry"
    case EDataFull => "enroll-data-full"
    case EDuplicate => "enroll-duplicate"
    case EDisconnected => "enroll-disconnected"
    case EUnknownError => "enroll-unknown-error"
    case ERetryScan => "enroll-retry-scan"
    case EOther(text) => text
  }

  function ReadEnroll(s: string): EnrollText {
    if s == "enroll-completed" then ECompleted
    else if s == "enroll-failed" then EFailed
    else if s == "enroll-stage-passed" then EStagePassed
    else if s == "enroll-swipe-too-short" then ESwipeTooShort
    else if s == "enroll-finger-not-centered" then ENotCentered
    else if s == "enroll-remove-and-retry" then ERemoveAndRetry
    else if s == "enroll-data-full" then EDataFull
    else if s == "enroll-duplicate" then EDuplicate
    else if s == "enroll-disconnected" then EDisconnected
    else if s == "enroll-unknown-error" then EUnknownError
    else if s == "enroll-retry-scan" then ERetryScan
    else EOther(s)
  }

  /** No two constants are confused on the bus, so clients may be modelled on the tags. */
  lemma VerifyTextRoundTrip(t: VerifyText)
    requires !t.VOther?
    ensures ReadVerify(RenderVerify(t)) == t
  {
  }

  lemma EnrollTextRoundTrip(t: EnrollText)
    requires !t.EOther?
    ensures ReadEnroll(RenderEnroll(t)) == t
  {
    var s := RenderEnroll(t);
    assert |s| >= 13 && s[7] == match t
             case ECompleted => 'c' case EFailed => 'f' case EStagePassed => 's' case ESwipeTooShort => 's'
             case ENotCentered => 'f' case ERemoveAndRetry => 'r' case EDataFull => 'd' case EDuplicate => 'd'
             case EDisconnected => 'd' case EUnknownError => 'u' case _ => 'r';
    assert |s| == match t
             case ECompleted => 16 case EFailed => 13 case EStagePassed => 19 case ESwipeTooShort => 22
             case ENotCentered => 26 case ERemoveAndRetry => 23 case EDataFull => 16 case EDuplicate => 16
             case EDisconnected => 19 case EUnknownError => 20 case _ => 17;
    assert t == EDataFull ==> s[8] == 'a';
    assert t == EDuplicate ==> s[8] == 'u';
  }

  function VerifyRetry(r: Retry): VerifyText {
    match r
    case Dirty => VRemoveAndRetry
    case AreaTooSmall => VSwipeTooShort
    case _ => VNotCentered
  }

  function EnrollRetry(r: Retry): EnrollText {
    match r
    case Dirty => ERemoveAndRetry
    case AreaTooSmall => ESwipeTooShort
    case _ => ENotCentered
  }

  function VerifyStatusText(s: Status): VerifyText {
    match ClassifyVerify(s)
    case Success(Match(_)) => VMatch
    case Success(NoMatch) => VNoMatch
    case Success(TryAgain(r)) => VerifyRetry(r)
    case Failure(_) => VUnknownError
  }

  function EnrollFailure(e: EnrollError): EnrollText {
    match e
    case SlotLimit => EDataFull
    case Collision(_) => EDuplicate
    case Malformed(_) => EUnknownError
    case Device(_, _) => EFailed
    case UnexpectedReply => EFailed
  }
}
