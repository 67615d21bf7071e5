/** The client's decision automaton and its attempt budget (crates/elanprint-algo/src/session.rs, policy.rs). */
module Session {
  import opened Core
  import opened DbusStatus

  /** max_tries is clamped to at least one. */
  datatype AttemptPolicy = AttemptPolicy(maxTries: nat) {
    static function New(maxTries: byte): (p: Policy)
      ensures p.Allows(0)
      ensures maxTries >= 1 ==> forall used: nat :: p.Allows(used) <==> used < maxTries
    {
      AttemptPolicy(if maxTries < 1 then 1 else maxTries)
    }

    static function PamDefault(): Policy {
      New(3)
    }

    predicate Allows(used: nat) {
      used < maxTries
    }

    function Left(used: nat): nat {
      if used <= maxTries then maxTries - used else 0
    }
  }

  type Policy = p: AttemptPolicy | 1 <= p.maxTries <= 255 witness AttemptPolicy(3)

  datatype SessionState = Idle | Waiting(failures: nat) | Succeeded | Denied | LockedOut | Failed

  datatype Signal =
    | Status(result: VerifyText, done: bool)
    | FingerSelected(finger: string)
    | ReaderGone
    | Cancel

  datatype Hint = Touch | Center | Lift | TouchAgain

  datatype Action =
    | Prompt(hint: Hint)
    | Granted(user: string)
    | Deny(left: nat)
    | Locked
    | FailedWith(text: VerifyText)
    | WentIdle

  datatype SessionError = UnknownString(text: VerifyText) | NoSession

  type Answer = Result<Action, SessionError>

  datatype S = S(user: string, policy: Policy, state: SessionState, selected: Option<string>)

  function New(user: string, policy: Policy): S {
    S(user, policy, Idle, None)
  }

  function Begin(s: S): S {
    s.(state := Waiting(0))
  }

  predicate IsRetryText(t: VerifyText) {
    t.VSwipeTooShort? || t.VNotCentered? || t.VRemoveAndRetry?
  }

  function HintFor(t: VerifyText): Hint {
    if t.VNotCentered? then Center else if t.VRemoveAndRetry? then Lift else TouchAgain
  }

  function StepStatus(s: S, result: VerifyText, done: bool): (S, Answer) {
    if !s.state.Waiting? then (s, Failure(NoSession))
    else if result.VMatch? then
      if !done then (s, Failure(UnknownString(result)))
      else (s.(state := Succeeded), Success(Granted(s.user)))
    else if result.VNoMatch? then
      var used := s.state.failures + 1;
      if s.policy.Allows(used) then (s.(state := Waiting(used)), Success(Deny(s.policy.Left(used))))
      else (s.(state := LockedOut), Success(Locked))
    else if IsRetryText(result) then (s, Success(Prompt(HintFor(result))))
    else if result.VDisconnected? || result.VUnknownError? then (s.(state := Failed), Success(FailedWith(result)))
    else (s, Failure(UnknownString(result)))
  }

  function Step(s: S, signal: Signal): (S, Answer) {
    match signal
    case Cancel => (s.(state := Idle), Success(WentIdle))
    case ReaderGone => (s.(state := Failed), Success(FailedWith(VDisconnected)))
    case FingerSelected(finger) => (s.(selected := Some(finger)), Success(Prompt(Touch)))
    case Status(result, done) => StepStatus(s, result, done)
  }

  // ---------- the attempt budget ----------

  /** What a session is driven by: a begin, or a signal. */
  datatype Input = Started | Arrived(signal: Signal)

  function React(s: S, i: Input): (S, Answer) {
    match i
    case Started => (Begin(s), Success(Prompt(Touch)))
    case Arrived(signal) => Step(s, signal)
  }

  ghost function Play(s: S, inputs: seq<Input>): S {
    if inputs == [] then s else React(Play(s, inputs[..|inputs| - 1]), inputs[|inputs| - 1]).0
  }

  predicate IsNoMatch(i: Input) {
    i.Arrived? && i.signal.Status? && i.signal.result.VNoMatch?
  }

  /** No-match answers since the last begin. */
  ghost function Misses(inputs: seq<Input>): nat {
    if inputs == [] || inputs[|inputs| - 1].Started? then 0
    else Misses(inputs[..|inputs| - 1]) + if IsNoMatch(inputs[|inputs| - 1]) then 1 else 0
  }

  /** Grants handed out since the last begin. */
  ghost function Grants(s: S, inputs: seq<Input>): nat {
    if inputs == [] || inputs[|inputs| - 1].Started? then 0
    else
      var before := inputs[..|inputs| - 1];
      Grants(s, before) + if IsGrant(React(Play(s, before), inputs[|inputs| - 1]).1) then 1 else 0
  }

  predicate IsGrant(a: Answer) {
    a.Success? && a.value.Granted?
  }

  /** Over every history of begins and signals of a new session. */
  lemma {:induction false} AttemptBudget(user: string, policy: Policy, inputs: seq<Input>)
    ensures
      var s := Play(New(user, policy), inputs);
      && s.user == user && s.policy == policy
      && (s.state.Waiting? ==> s.state.failures == Misses(inputs) < policy.maxTries)
      && (s.state.Waiting? ==> Grants(New(user, policy), inputs) == 0)
      && Grants(New(user, policy), inputs) <= 1
  {
    if inputs != [] {
      AttemptBudget(user, policy, inputs[..|inputs| - 1]);
    }
  }

  /** Lockout comes exactly with the last allowed miss of a waiting session. */
  lemma LockoutOnLastMiss(user: string, policy: Policy, inputs: seq<Input>, next: Input)
    ensures
      var s := Play(New(user, policy), inputs);
      React(s, next).1 == Success(Locked) <==>
        s.state.Waiting? && IsNoMatch(next) && Misses(inputs + [next]) == policy.maxTries
  {
    AttemptBudget(user, policy, inputs);
    assert (inputs + [next])[..|inputs|] == inputs;
  }

  /** A session that left Waiting neither waits nor grants again until the next begin. */
  lemma {:induction false} LeavingIsFinal(s: S, inputs: seq<Input>, next: Input)
    requires !s.state.Waiting? && forall i :: 0 <= i < |inputs| ==> !inputs[i].Started?
    requires !next.Started?
    ensures !Play(s, inputs).state.Waiting? && !IsGrant(React(Play(s, inputs), next).1)
  {
    if inputs != [] {
      LeavingIsFinal(s, inputs[..|inputs| - 1], inputs[|inputs| - 1]);
    }
  }

  /** A grant needs a waiting session and a match marked terminal, and ends the waiting. */
  lemma GrantNeedsTerminalMatch(s: S, next: Input)
    ensures IsGrant(React(s, next).1) <==> s.state.Waiting? && next == Arrived(Status(VMatch, true))
    ensures IsGrant(React(s, next).1) ==> React(s, next).0.state == Succeeded && React(s, next).1.value.user == s.user
  {
  }

  /** What a status word means to a waiting session, and where it leaves it. */
  ghost predicate StatusAnswered(s: S, result: VerifyText, done: bool, misses: nat, s': S, a: Answer) {
    match result
    case VMatch =>
      if done then a == Success(Granted(s.user)) && s'.state == Succeeded
      else a == Failure(UnknownString(result)) && s' == s
    case VNoMatch =>
      if misses < s.policy.maxTries then
        a == Success(Deny(s.policy.maxTries - misses)) && s'.state == Waiting(misses)
      else a == Success(Locked) && s'.state == LockedOut
    case VNotCentered => a == Success(Prompt(Center)) && s' == s
    case VRemoveAndRetry => a == Success(Prompt(Lift)) && s' == s
    case VSwipeTooShort => a == Success(Prompt(TouchAgain)) && s' == s
    case VDisconnected => a == Success(FailedWith(result)) && s'.state == Failed
    case VUnknownError => a == Success(FailedWith(result)) && s'.state == Failed
    case VOther(_) => a == Failure(UnknownString(result)) && s' == s
  }

  /**
   * Every answer of a session, told by its history: a miss is answered with the number of attempts left,
   * each request to touch again with its own hint, and a status without a session is an error.
   */
  lemma AnswersExactly(user: string, policy: Policy, inputs: seq<Input>, next: Input)
    ensures
      var s := Play(New(user, policy), inputs);
      var (s', a) := React(s, next);
      match next
      case Started => a == Success(Prompt(Touch)) && s' == s.(state := Waiting(0))
      case Arrived(Cancel) => a == Success(WentIdle) && s' == s.(state := Idle)
      case Arrived(ReaderGone) => a == Success(FailedWith(VDisconnected)) && s' == s.(state := Failed)
      case Arrived(FingerSelected(finger)) => a == Success(Prompt(Touch)) && s' == s.(selected := Some(finger))
      case Arrived(Status(result, done)) =>
        if !s.state.Waiting? then a == Failure(NoSession) && s' == s
        else StatusAnswered(s, result, done, Misses(inputs + [next]), s', a) && s' == s.(state := s'.state)
  {
    hide Play;
    AttemptBudget(user, policy, inputs);
    assert (inputs + [next])[..|inputs|] == inputs;
  }
}

/** The session object. */
module SessionObject {
  import opened Core
  import opened DbusStatus
  import opened Session
  import Spec = Session

  lemma Replayed(s: S, before: seq<Input>, last: Input)
    ensures Play(s, before + [last]) == React(Play(s, before), last).0
    ensures last.Started? ==> Misses(before + [last]) == 0
  {
    hide React;
    assert (before + [last])[..|before|] == before;
  }

  class VerifySession {
    const user: string
    const policy: Policy
    var state: SessionState
    var selected: Option<string>
    ghost var history: seq<Input>   // everything that drove it so far

    function Model(): S
      reads this
    {
      S(user, policy, state, selected)
    }

    /** The object is the automaton its history played, and waiting it counts the misses since begin. */
    ghost predicate Valid()
      reads this
    {
      && Model() == Play(Spec.New(user, policy), history)
      && (state.Waiting? ==> state.failures == Misses(history) < policy.maxTries)
    }

    constructor (user: string)
      ensures Model() == Spec.New(user, AttemptPolicy.PamDefault()) && Valid() && history == []
    {
      this.user, policy, state, selected, history := user, AttemptPolicy.PamDefault(), Idle, None, [];
    }

    constructor WithPolicy(user: string, policy: Policy)
      ensures Model() == Spec.New(user, policy) && Valid() && history == []
    {
      this.user, this.policy, state, selected, history := user, policy, Idle, None, [];
    }

    method Begin() returns (action: Action)
      requires Valid()
      modifies this
      ensures Valid() && history == old(history) + [Started] && Misses(history) == 0
      ensures Model() == Spec.Begin(old(Model())) && action == Prompt(Touch)
    {
      Replayed(Spec.New(user, policy), history, Started);
      history := history + [Started];
      state := Waiting(0);
      action := Prompt(Touch);
    }

    method Step(signal: Signal) returns (a: Answer)
      requires Valid()
      modifies this
      ensures Valid() && history == old(history) + [Arrived(signal)]
      ensures a == Success(Locked) <==>
                old(state).Waiting? && IsNoMatch(Arrived(signal)) && Misses(history) == policy.maxTries
      ensures IsGrant(a) ==> old(state).Waiting? && !state.Waiting? && a.value == Granted(user)
      ensures (Model(), a) == Spec.Step(old(Model()), signal)
    {
      hide Play, Misses;
      LockoutOnLastMiss(user, policy, history, Arrived(signal));
      AttemptBudget(user, policy, history + [Arrived(signal)]);
      Replayed(Spec.New(user, policy), history, Arrived(signal));
      history := history + [Arrived(signal)];
      match signal {
        case Cancel =>
          state := Idle;
          a := Success(WentIdle);
        case ReaderGone =>
          state := Failed;
          a := Success(FailedWith(VDisconnected));
        case FingerSelected(finger) =>
          selected := Some(finger);
          a := Success(Prompt(Touch));
        case Status(result, done) =>
          a := StepStatus(result, done);
      }
    }

    method StepStatus(result: VerifyText, done: bool) returns (a: Answer)
      modifies this`state
      ensures (Model(), a) == Spec.StepStatus(old(Model()), result, done)
    {
      if !state.Waiting? {
        return Failure(NoSession);
      }
      if result.VMatch? {
        if !done {
          return Failure(UnknownString(result));
        }
        state := Succeeded;
        return Success(Granted(user));
      }
      if result.VNoMatch? {
        var used := state.failures + 1;
        if policy.Allows(used) {
          state := Waiting(used);
          return Success(Deny(policy.Left(used)));
        }
        state := LockedOut;
        return Success(Locked);
      }
      if IsRetryText(result) {
        return Success(Prompt(HintFor(result)));
      }
      if result.VDisconnected? || result.VUnknownError? {
        state := Failed;
        return Success(FailedWith(result));
      }
      return Failure(UnknownString(result));
    }
  }
}
