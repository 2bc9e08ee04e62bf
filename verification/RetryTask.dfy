/** The report task: it polls the system for the process error, reposts itself while there is none, and sends once. */
module RetryTask {
  import opened Json

  const RETRIES: nat := 10
  const RUNS_MAX: nat := 11
  const RETRY_DELAY: nat := 500

  const REASON_ANR: int := 6
  const REASON_CRASH: int := 4

  datatype Condition = NotResponding | Crashed | Other

  /** The process error the activity manager reports, if it does. */
  datatype ErrorInfo = ErrorInfo(pid: int, message: string, condition: Condition)

  function ReasonOf(info: ErrorInfo): Option<int> {
    match info.condition case NotResponding => Some(REASON_ANR) case Crashed => Some(REASON_CRASH) case Other => None
  }

  /** What is sent beside the exception. */
  datatype Attributes = Attributes(info: Option<ErrorInfo>, reason: Option<int>)

  function Woven(info: Option<ErrorInfo>): Attributes {
    Attributes(info, if info.Some? then ReasonOf(info.value) else None)
  }

  /** What is sent says what the system answered: the error, and the reason of an exit where there is one for it. */
  lemma WovenSays(info: Option<ErrorInfo>)
    ensures var a := Woven(info);
      && a.info == info
      && (a.reason == Some(6) <==> info.Some? && info.value.condition == NotResponding)
      && (a.reason == Some(4) <==> info.Some? && info.value.condition == Crashed)
      && (a.reason == None <==> info.None? || info.value.condition == Other)
  {
  }

  class ReportTask {
    var retries: int
    var attributes: Attributes
    var posted: bool
    var sent: seq<Attributes>
    var delayed: nat

    /** Posted once when the report is made. */
    constructor ()
      ensures retries == RETRIES && attributes == Woven(None) && posted && sent == [] && delayed == 0
    {
      retries, attributes, posted, sent, delayed := RETRIES, Woven(None), true, [], 0;
    }

    /** One dispatch by the looper. */
    method Dispatch(answer: Option<ErrorInfo>)
      requires posted && retries >= 0 && sent == [] && attributes == Woven(None)
      modifies this
      ensures var sends := answer.Some? || old(retries) == 0;
        && (posted <==> !sends)
        && sent == (if sends then [Woven(answer)] else [])
        && delayed == old(delayed) + (if sends then 0 else RETRY_DELAY)
        && (!sends ==> retries == old(retries) - 1 && attributes == Woven(None))
    {
      posted := false;
      if answer.Some? {
        attributes := attributes.(info := answer);
        match answer.value.condition {
          case NotResponding => attributes := attributes.(reason := Some(REASON_ANR));
          case Crashed => attributes := attributes.(reason := Some(REASON_CRASH));
          case Other =>
        }
        retries := 0;
      }
      var left := retries;
      retries := retries - 1;
      if left == 0 {
        sent := sent + [attributes];
      } else {
        posted := true;
        delayed := delayed + RETRY_DELAY;
      }
    }

    /**
     * The report task on a looper that goes on for `alive` dispatches; `answers[i]` is the system's answer at the `i`-th.
     * It is dispatched at most eleven times, sends exactly once if the looper lives long enough and never
     * otherwise, sends what the first error says, and is not posted again once it has sent.
     */
    method Drain(answers: seq<Option<ErrorInfo>>, alive: nat) returns (runs: nat)
      requires posted && retries == RETRIES && sent == [] && attributes == Woven(None) && delayed == 0
      requires |answers| >= RUNS_MAX
      modifies this
      ensures runs == if alive < SendingRun(answers) then alive else SendingRun(answers)
      ensures posted <==> alive < SendingRun(answers)
      ensures sent == if posted then [] else [Woven(answers[SendingRun(answers) - 1])]
      ensures forall i :: 0 <= i < |sent| ==> sent[i].info == answers[SendingRun(answers) - 1]
      ensures forall i :: 0 <= i < |sent| && sent[i].info.Some? ==> match sent[i].info.value.condition
        case NotResponding => sent[i].reason == Some(6)
        case Crashed => sent[i].reason == Some(4)
        case Other => sent[i].reason == None
      ensures runs <= 11 && (runs > 0 ==> delayed == 500 * (if posted then runs else runs - 1))
    {
      runs := 0;
      SendingRunFirst(answers);
      while posted && runs < alive
        invariant runs <= alive && runs <= SendingRun(answers)
        invariant posted ==> retries == RETRIES - runs && sent == [] && attributes == Woven(None) && delayed == RETRY_DELAY * runs
        invariant posted <==> runs < SendingRun(answers)
        invariant !posted ==> sent == [Woven(answers[runs - 1])] && delayed == RETRY_DELAY * (runs - 1)
        decreases alive - runs
      {
        Dispatch(answers[runs]);
        runs := runs + 1;
      }
    }
  }

  /** The dispatch that sends: the first one with an answer, or the eleventh. */
  function SendingRun(answers: seq<Option<ErrorInfo>>): (r: nat)
    requires |answers| >= RUNS_MAX
    ensures 1 <= r <= RUNS_MAX
  {
    FirstAnswer(answers[..RETRIES]) + 1
  }

  function FirstAnswer(answers: seq<Option<ErrorInfo>>): (k: nat)
    ensures k <= |answers|
  {
    if |answers| == 0 || answers[0].Some? then 0 else 1 + FirstAnswer(answers[1..])
  }

  lemma {:induction false} FirstAnswerFirst(answers: seq<Option<ErrorInfo>>)
    ensures forall i :: 0 <= i < FirstAnswer(answers) ==> answers[i].None?
    ensures FirstAnswer(answers) < |answers| ==> answers[FirstAnswer(answers)].Some?
  {
    if |answers| > 0 && answers[0].None? { FirstAnswerFirst(answers[1..]); }
  }

  /** No answer before it, and an answer at it unless the retries are used up. */
  lemma SendingRunFirst(answers: seq<Option<ErrorInfo>>)
    requires |answers| >= RUNS_MAX
    ensures forall i :: 0 <= i < SendingRun(answers) - 1 ==> answers[i].None?
    ensures SendingRun(answers) <= 11 && (SendingRun(answers) < 11 ==> answers[SendingRun(answers) - 1].Some?)
  {
    FirstAnswerFirst(answers[..RETRIES]);
  }
}
