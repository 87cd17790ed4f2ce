/**
 * The request and reversible executors of browser/effects_runtime.py as step machines over one durable ledger.
 *
 * A step is one await or one ledger call. The schedule picks the executor and the environment's answer, so a
 * theorem about all schedules covers every interleaving, every network answer and a crash at any step.
 */
module MutationProtocol {
  import opened Wrappers
  import opened MutationLedger

  // A validated payload: which grant it carries and what it will send.
  datatype Job = Job(
    reversible: bool, grant: nat, url: string, httpMethod: string, key: string, expectedStatus: int,
    rollbackStatus: int)

  // Where control goes when ledger.mark raises.
  datatype Retreat = Propagate | OuterExcept | InnerExcept

  datatype Outcome = Returned(status: Status) | Raised

  datatype Phase =
    | Ready | Consumed | ReservedRow | Setup | Precheck | Sending | AwaitForward | Postcheck
    | RollbackSending | AwaitRollback | RestoreCheck
    | Marking(status: Status, retreat: Retreat)
    | Handler | HandlerMark
    | Done(outcome: Outcome) | Crashed

  // started is the executor's mutation_started; the other flags record what it has been through.
  datatype Executor = Executor(job: Job, phase: Phase, started: bool, granted: bool, owner: bool, faulted: bool)

  datatype GrantState = GrantState(terms: Terms, consumed: bool)

  // What crossed the network, in order. A send is recorded when it is attempted.
  datatype Event =
    | ForwardSent(who: nat, key: string, url: string, httpMethod: string)
    | ForwardAnswered(who: nat, key: string, status: int)
    | PostVerified(who: nat, key: string)
    | RollbackSent(who: nat, key: string)
    | RollbackAnswered(who: nat, key: string, status: int)
    | RestoreVerified(who: nat, key: string)

  datatype State = State(rows: Rows, grants: seq<GrantState>, executors: seq<Executor>, log: seq<Event>)

  // A ledger call may raise having left no trace, or having been applied all the same.
  datatype Answer = Fine | Raises | RaisesButApplied | Response(status: int) | Crash

  datatype Tick = Tick(executor: nat, answer: Answer, now: int)

  // ----- the machine -----

  function With(s: State, i: nat, e: Executor): State
    requires i < |s.executors|
  {
    s.(executors := s.executors[i := e])
  }

  function ReadyStep(s: State, i: nat, answer: Answer, now: int): State
    requires i < |s.executors|
  {
    var e := s.executors[i];
    var job := e.job;
    if answer.Raises? || job.grant >= |s.grants| then With(s, i, e.(phase := Done(Raised)))
    else
      var g := s.grants[job.grant];
      if ConsumeError(g.terms, g.consumed, job.url, job.httpMethod, job.key, now).Some?
      then With(s, i, e.(phase := Done(Raised)))
      else With(s.(grants := s.grants[job.grant := g.(consumed := true)]), i, e.(phase := Consumed, granted := true))
  }

  function ReserveStep(s: State, i: nat, answer: Answer): State
    requires i < |s.executors|
  {
    var e := s.executors[i];
    if answer.Raises? then With(s, i, e.(phase := Done(Raised), faulted := true))
    else if e.job.grant >= |s.grants| || s.grants[e.job.grant].terms.key in s.rows
    then With(s, i, e.(phase := Done(Raised)))
    else
      var s' := s.(rows := Reserved(s.rows, s.grants[e.job.grant].terms));
      if answer.RaisesButApplied? then With(s', i, e.(phase := Done(Raised), owner := true, faulted := true))
      else With(s', i, e.(phase := ReservedRow, owner := true))
  }

  function ForwardAnswerStep(s: State, i: nat, answer: Answer): State
    requires i < |s.executors|
  {
    var e := s.executors[i];
    match answer
    case Response(status) =>
      var s' := s.(log := s.log + [ForwardAnswered(i, e.job.key, status)]);
      With(s', i, e.(phase := if status != e.job.expectedStatus then Marking(StateUnknown, OuterExcept) else Postcheck))
    case Raises => With(s, i, e.(phase := Handler))
    case _ => s
  }

  function PostcheckStep(s: State, i: nat, answer: Answer): State
    requires i < |s.executors|
  {
    var e := s.executors[i];
    match answer
    case Fine =>
      var s' := s.(log := s.log + [PostVerified(i, e.job.key)]);
      With(s', i, e.(phase := if e.job.reversible then RollbackSending else Marking(Succeeded, OuterExcept)))
    case Raises =>
      With(s, i, e.(phase := if e.job.reversible then RollbackSending else Marking(StateUnknown, OuterExcept)))
    case _ => s
  }

  function RollbackAnswerStep(s: State, i: nat, answer: Answer): State
    requires i < |s.executors|
  {
    var e := s.executors[i];
    match answer
    case Response(status) =>
      var s' := s.(log := s.log + [RollbackAnswered(i, e.job.key, status)]);
      With(s', i, e.(phase := if status != e.job.rollbackStatus then Marking(RollbackFailed, InnerExcept)
                              else RestoreCheck))
    case Raises => With(s, i, e.(phase := Marking(RollbackFailed, OuterExcept)))
    case _ => s
  }

  function RestoreStep(s: State, i: nat, answer: Answer): State
    requires i < |s.executors|
  {
    var e := s.executors[i];
    match answer
    case Fine =>
      With(s.(log := s.log + [RestoreVerified(i, e.job.key)]), i, e.(phase := Marking(RolledBack, OuterExcept)))
    case Raises => With(s, i, e.(phase := Marking(RollbackFailed, OuterExcept)))
    case _ => s
  }

  function AfterFailedMark(status: Status, retreat: Retreat): Phase {
    match retreat
    case Propagate => Done(Raised)
    case OuterExcept => Handler
    case InnerExcept => Marking(status, OuterExcept)
  }

  function MarkStep(s: State, i: nat, answer: Answer): State
    requires i < |s.executors| && s.executors[i].phase.Marking?
  {
    var e := s.executors[i];
    var Marking(status, retreat) := e.phase;
    var failed := e.(phase := AfterFailedMark(status, retreat), faulted := true);
    if answer.Raises? || e.job.key !in s.rows then With(s, i, failed)
    else
      var s' := s.(rows := Marked(s.rows, e.job.key, status));
      if answer.RaisesButApplied? then With(s', i, failed)
      else With(s', i, e.(phase := Done(if retreat == Propagate then Raised else Returned(status))))
  }

  function HandlerStep(s: State, i: nat, answer: Answer): State
    requires i < |s.executors|
  {
    var e := s.executors[i];
    if answer.Raises? || answer.RaisesButApplied? then With(s, i, e.(phase := Done(Raised), faulted := true))
    else if e.job.key in s.rows && s.rows[e.job.key].status == Started then With(s, i, e.(phase := HandlerMark))
    else With(s, i, e.(phase := Done(Raised)))
  }

  function HandlerMarkStep(s: State, i: nat, answer: Answer): State
    requires i < |s.executors|
  {
    var e := s.executors[i];
    if answer.Raises? || e.job.key !in s.rows then With(s, i, e.(phase := Done(Raised), faulted := true))
    else
      With(s.(rows := Marked(s.rows, e.job.key, if e.started then StateUnknown else FailedNoEffect)), i,
           e.(phase := Done(Raised)))
  }

  /** One step of executor i; an answer that does not fit the awaited operation changes nothing. */
  function Step(s: State, i: nat, answer: Answer, now: int): State {
    if i >= |s.executors| then s
    else
      var e := s.executors[i];
      if answer.Crash? && !e.phase.Done? then With(s, i, e.(phase := Crashed))
      else
        match e.phase
        case Ready => ReadyStep(s, i, answer, now)
        case Consumed => ReserveStep(s, i, answer)
        case ReservedRow =>
          With(s, i, e.(phase := if answer.Raises? then Marking(FailedNoEffect, Propagate) else Setup))
        case Setup => With(s, i, e.(phase := if answer.Raises? then Handler else Precheck))
        case Precheck =>
          if answer.Raises? then With(s, i, e.(phase := Handler))
          else With(s, i, e.(phase := Sending, started := true))
        case Sending =>
          With(s.(log := s.log + [ForwardSent(i, e.job.key, e.job.url, e.job.httpMethod)]), i,
               e.(phase := AwaitForward))
        case AwaitForward => ForwardAnswerStep(s, i, answer)
        case Postcheck => PostcheckStep(s, i, answer)
        case RollbackSending => With(s.(log := s.log + [RollbackSent(i, e.job.key)]), i, e.(phase := AwaitRollback))
        case AwaitRollback => RollbackAnswerStep(s, i, answer)
        case RestoreCheck => RestoreStep(s, i, answer)
        case Marking(_, _) => MarkStep(s, i, answer)
        case Handler => HandlerStep(s, i, answer)
        case HandlerMark => HandlerMarkStep(s, i, answer)
        case Done(_) => s
        case Crashed => s
  }

  function Run(s: State, schedule: seq<Tick>): State {
    if schedule == [] then s
    else
      var last := schedule[|schedule| - 1];
      Step(Run(s, schedule[..|schedule| - 1]), last.executor, last.answer, last.now)
  }

  /** Before anything ran: an empty ledger, unused grants, and every executor that will ever exist still waiting. */
  function Start(jobs: seq<Job>, grants: seq<Terms>): State {
    State(map[], seq(|grants|, i requires 0 <= i < |grants| => GrantState(grants[i], false)),
          seq(|jobs|, i requires 0 <= i < |jobs| => Executor(jobs[i], Ready, false, false, false, false)), [])
  }

  // ----- the safety properties -----

  /** No key has two forward sends, and none has two rollback sends. */
  ghost predicate SentAtMostOnce(log: seq<Event>) {
    forall p, q | 0 <= p < q < |log| && log[p].key == log[q].key ::
      !(log[p].ForwardSent? && log[q].ForwardSent?) && !(log[p].RollbackSent? && log[q].RollbackSent?)
  }

  /** A sent key is on record, and never as having had no effect. */
  ghost predicate SentIsRecorded(s: State) {
    forall p | 0 <= p < |s.log| && s.log[p].ForwardSent? ::
      s.log[p].key in s.rows && s.rows[s.log[p].key].status != FailedNoEffect
  }

  /** Every send is one a consumed grant names: same target, method and key. */
  ghost predicate SentIsGranted(s: State) {
    forall p | 0 <= p < |s.log| && s.log[p].ForwardSent? ::
      exists g | 0 <= g < |s.grants| ::
        && s.grants[g].consumed && s.grants[g].terms.key == s.log[p].key
        && s.grants[g].terms.url == s.log[p].url && s.grants[g].terms.httpMethod == s.log[p].httpMethod
  }

  /** Executor i got the forward status its job expects. */
  ghost predicate Matched(s: State, i: nat, log: seq<Event>)
    requires i < |s.executors|
  {
    ForwardAnswered(i, s.executors[i].job.key, s.executors[i].job.expectedStatus) in log
  }

  ghost predicate RollbackFollowsMatch(s: State) {
    forall q | 0 <= q < |s.log| && s.log[q].RollbackSent? ::
      s.log[q].who < |s.executors| && Matched(s, s.log[q].who, s.log[..q])
  }

  // The events of executor i that its status can rest on, seen or not.
  datatype View = View(
    forward: bool, answered: bool, matched: bool, verified: bool, rollback: bool, undone: bool, restored: bool)

  /** The forward request of executor i got an answer, whatever its status. */
  ghost predicate Answered(log: seq<Event>, i: nat, key: string) {
    exists p | 0 <= p < |log| :: log[p].ForwardAnswered? && log[p].who == i && log[p].key == key
  }

  ghost function ViewOf(log: seq<Event>, i: nat, job: Job): View {
    View(ForwardSent(i, job.key, job.url, job.httpMethod) in log,
         Answered(log, i, job.key),
         ForwardAnswered(i, job.key, job.expectedStatus) in log,
         PostVerified(i, job.key) in log,
         RollbackSent(i, job.key) in log,
         RollbackAnswered(i, job.key, job.rollbackStatus) in log,
         RestoreVerified(i, job.key) in log)
  }

  /** What must have happened for the owner of a key to have given it this status. */
  ghost predicate Earned(job: Job, started: bool, status: Status, v: View) {
    match status
    case Started => true
    case Succeeded => !job.reversible && v.forward && v.matched && v.verified && !v.rollback
    case FailedNoEffect => !v.forward && !v.rollback
    case StateUnknown => started
    case RolledBack => job.reversible && v.matched && v.rollback && v.undone && v.restored
    case RollbackFailed => job.reversible && v.matched && v.rollback
  }

  ghost predicate EarnedAt(s: State, i: nat, k: string)
    requires i < |s.executors| && k in s.rows
  {
    var e := s.executors[i];
    e.owner && e.job.key == k && Earned(e.job, e.started, s.rows[k].status, ViewOf(s.log, i, e.job))
  }

  /** Every row's status was earned by an executor that reserved the key. */
  ghost predicate StatusIsEarned(s: State) {
    forall k | k in s.rows :: exists i: nat | i < |s.executors| :: EarnedAt(s, i, k)
  }

  const NOTHING_SEEN := View(false, false, false, false, false, false, false)

  const FORWARD_MATCHED := NOTHING_SEEN.(forward := true, answered := true, matched := true)

  /** The status a run must end with, read off what it saw. */
  ghost function Verdict(job: Job, started: bool, v: View): Status {
    if !started then FailedNoEffect
    else if !v.matched then StateUnknown
    else if job.reversible then (if v.undone && v.restored then RolledBack else RollbackFailed)
    else if v.verified then Succeeded
    else StateUnknown
  }

  /**
   * What an executor reports is what the ledger says; and a finished run whose ledger calls never raised
   * leaves exactly the status its network answers call for.
   */
  ghost predicate ReportsAgree(s: State) {
    forall i: nat | i < |s.executors| && s.executors[i].owner && s.executors[i].phase.Done? ::
      && s.executors[i].job.key in s.rows
      && (s.executors[i].phase.outcome.Returned? ==>
            s.rows[s.executors[i].job.key].status == s.executors[i].phase.outcome.status)
      && (!s.executors[i].faulted ==>
            s.rows[s.executors[i].job.key].status ==
            Verdict(s.executors[i].job, s.executors[i].started, ViewOf(s.log, i, s.executors[i].job)))
  }

  // ----- the invariant -----

  ghost predicate Permit(grants: seq<GrantState>, job: Job) {
    && job.grant < |grants| && grants[job.grant].consumed && grants[job.grant].terms.key == job.key
    && grants[job.grant].terms.url == job.url && grants[job.grant].terms.httpMethod == job.httpMethod
  }

  ghost function StatusAt(rows: Rows, key: string): Option<Status> {
    if key in rows then Some(rows[key].status) else None
  }

  ghost predicate HandlerVerdict(e: Executor, v: View) {
    Verdict(e.job, e.started, v) == if e.started then StateUnknown else FailedNoEffect
  }

  // How the phase constrains the status of the executor's own key.
  ghost predicate RowOk(e: Executor, status: Status, v: View) {
    match e.phase
    case Marking(next, retreat) =>
      && next != Started && Earned(e.job, e.started, next, v)
      && (status == Started || (status == next && e.faulted))
      && (next == FailedNoEffect <==> retreat == Propagate)
      && (retreat == InnerExcept ==> next == RollbackFailed)
      && (!e.faulted ==> next == Verdict(e.job, e.started, v) && (v.answered <==> retreat != Propagate))
    case Handler => status != FailedNoEffect && (!e.faulted ==> !v.answered && HandlerVerdict(e, v))
    case HandlerMark => status == Started && (!e.faulted ==> !v.answered && HandlerVerdict(e, v))
    case Done(outcome) =>
      && (outcome.Returned? ==> status == outcome.status)
      && (!e.faulted ==> status == Verdict(e.job, e.started, v) && (outcome.Returned? <==> v.answered))
    case Crashed => true
    case _ => status == Started
  }

  // How the phase constrains the executor's own events.
  ghost predicate ViewOk(e: Executor, v: View) {
    && (v.forward ==> e.owner && e.started)
    && (v.answered ==> v.forward)
    && (v.matched ==> v.answered)
    && (v.rollback ==> e.owner && e.started && v.matched && e.job.reversible)
    && (e.started && e.phase !in {Sending, Crashed} ==> v.forward)
    && (e.phase in {ReservedRow, Setup, Precheck} ==> !e.started)
    && (e.phase in {Ready, Consumed, ReservedRow, Setup, Precheck, Sending} ==> v == NOTHING_SEEN)
    && (e.phase in {Sending, AwaitForward, Postcheck, RollbackSending, AwaitRollback, RestoreCheck} ==> e.started)
    && (e.phase == AwaitForward ==> v == NOTHING_SEEN.(forward := true))
    && (e.phase == Postcheck ==> v == FORWARD_MATCHED)
    && (e.phase == RollbackSending ==> e.job.reversible && v == FORWARD_MATCHED.(verified := v.verified))
    && (e.phase == AwaitRollback ==> v == FORWARD_MATCHED.(verified := v.verified, rollback := true))
    && (e.phase == RestoreCheck ==> v == FORWARD_MATCHED.(verified := v.verified, rollback := true, undone := true))
  }

  ghost predicate Healthy(e: Executor, permit: bool, status: Option<Status>, v: View) {
    && (e.phase == Ready ==> !e.granted)
    && (e.granted ==> permit)
    && (e.phase == Consumed ==> e.granted)
    && (e.phase in {Ready, Consumed} ==> !e.owner && !e.started)
    && (e.phase !in {Ready, Consumed, Crashed, Done(Raised)} ==> e.owner)
    && ViewOk(e, v)
    && (e.owner ==> e.granted && status.Some? && Earned(e.job, e.started, status.value, v) && RowOk(e, status.value, v))
  }

  ghost predicate ExecutorOk(s: State, i: nat)
    requires i < |s.executors|
  {
    var e := s.executors[i];
    Healthy(e, Permit(s.grants, e.job), StatusAt(s.rows, e.job.key), ViewOf(s.log, i, e.job))
  }

  ghost predicate EventOk(executors: seq<Executor>, e: Event) {
    && e.who < |executors| && executors[e.who].owner && executors[e.who].job.key == e.key
    && (e.ForwardSent? ==> e.url == executors[e.who].job.url && e.httpMethod == executors[e.who].job.httpMethod)
  }

  ghost predicate SingleSends(log: seq<Event>) {
    forall p, q | 0 <= p < q < |log| && log[p].who == log[q].who ::
      !(log[p].ForwardSent? && log[q].ForwardSent?) && !(log[p].RollbackSent? && log[q].RollbackSent?)
  }

  ghost predicate LogOk(s: State) {
    && (forall p | 0 <= p < |s.log| :: EventOk(s.executors, s.log[p]))
    && SingleSends(s.log)
    && RollbackFollowsMatch(s)
  }

  /** Ownership is exclusive, both of keys and of grants. */
  ghost predicate Exclusive(s: State) {
    && (forall i, j | 0 <= i < j < |s.executors| && s.executors[i].owner && s.executors[j].owner ::
          s.executors[i].job.key != s.executors[j].job.key)
    && (forall i, j | 0 <= i < j < |s.executors| && s.executors[i].granted && s.executors[j].granted ::
          s.executors[i].job.grant != s.executors[j].job.grant)
  }

  ghost predicate Owned(s: State) {
    forall k | k in s.rows :: exists i | 0 <= i < |s.executors| :: s.executors[i].owner && s.executors[i].job.key == k
  }

  ghost predicate AllOk(s: State) {
    forall i: nat | i < |s.executors| :: ExecutorOk(s, i)
  }

  ghost predicate Inv(s: State) {
    LogOk(s) && Exclusive(s) && Owned(s) && AllOk(s)
  }

  // ----- every step keeps the invariant -----

  /** What one step of executor i may touch: its own entry, its own key's row, its grant's permit, its own events. */
  ghost predicate Local(s: State, s': State, i: nat) {
    && i < |s.executors| && |s'.executors| == |s.executors| && |s'.grants| == |s.grants|
    && (forall j | 0 <= j < |s.executors| && j != i :: s'.executors[j] == s.executors[j])
    && s'.executors[i].job == s.executors[i].job
    && (s.executors[i].owner ==> s'.executors[i].owner)
    && (forall g | 0 <= g < |s.grants| ::
          s'.grants[g].terms == s.grants[g].terms && (s.grants[g].consumed ==> s'.grants[g].consumed))
    && LocalRows(s, s', i)
    && (s'.log == s.log || (s.executors[i].owner && exists e :: s'.log == s.log + [e] && e.who == i))
  }

  ghost predicate LocalRows(s: State, s': State, i: nat)
    requires i < |s.executors| && i < |s'.executors|
  {
    var k := s.executors[i].job.key;
    s'.rows == s.rows || (s'.executors[i].owner && k in s'.rows && s'.rows == s.rows[k := s'.rows[k]])
  }

  lemma AnsweredGrows(log: seq<Event>, e: Event, i: nat, key: string)
    ensures Answered(log + [e], i, key) <==> Answered(log, i, key) || (e.ForwardAnswered? && e.who == i && e.key == key)
  {
    var more := log + [e];
    assert forall p | 0 <= p < |log| :: more[p] == log[p];
    assert more[|log|] == e;
  }

  lemma ViewSurvives(log: seq<Event>, e: Event, j: nat, job: Job)
    requires e.who != j
    ensures ViewOf(log + [e], j, job) == ViewOf(log, j, job)
  {
    AnsweredGrows(log, e, j, job.key);
  }

  lemma ViewGrows(log: seq<Event>, e: Event, i: nat, job: Job)
    ensures var v := ViewOf(log, i, job);
            ViewOf(log + [e], i, job) ==
            View(v.forward || e == ForwardSent(i, job.key, job.url, job.httpMethod),
                 v.answered || (e.ForwardAnswered? && e.who == i && e.key == job.key),
                 v.matched || e == ForwardAnswered(i, job.key, job.expectedStatus),
                 v.verified || e == PostVerified(i, job.key),
                 v.rollback || e == RollbackSent(i, job.key),
                 v.undone || e == RollbackAnswered(i, job.key, job.rollbackStatus),
                 v.restored || e == RestoreVerified(i, job.key))
  {
    AnsweredGrows(log, e, i, job.key);
  }

  lemma OtherKeeps(s: State, s': State, i: nat, j: nat)
    requires AllOk(s) && Local(s, s', i) && Exclusive(s') && i != j && j < |s.executors|
    ensures ExecutorOk(s', j)
  {
    assert ExecutorOk(s, j);
    var e := s.executors[j];
    assert Permit(s.grants, e.job) ==> Permit(s'.grants, e.job);
    if s'.log != s.log {
      var ev :| s'.log == s.log + [ev] && ev.who == i;
      ViewSurvives(s.log, ev, j, e.job);
    }
    if e.owner {
      assert StatusAt(s'.rows, e.job.key) == StatusAt(s.rows, e.job.key);
    }
  }

  lemma Assemble(s: State, s': State, i: nat)
    requires AllOk(s) && Local(s, s', i) && LogOk(s') && Exclusive(s') && Owned(s') && ExecutorOk(s', i)
    ensures Inv(s')
  {
    forall j: nat | j < |s'.executors| ensures ExecutorOk(s', j) {
      if j != i {
        OtherKeeps(s, s', i, j);
      }
    }
  }

  // A step that only moves control.
  lemma MoveKeeps(s: State, i: nat, e: Executor)
    requires Inv(s) && i < |s.executors|
    requires e.job == s.executors[i].job && e.owner == s.executors[i].owner && e.granted == s.executors[i].granted
    requires Healthy(e, Permit(s.grants, e.job), StatusAt(s.rows, e.job.key), ViewOf(s.log, i, e.job))
    ensures Inv(With(s, i, e))
  {
    hide LogOk, Exclusive, Owned, ViewOf;
    var s' := With(s, i, e);
    OwnersKeep(s, s', i);
    assert Local(s, s', i);
    Assemble(s, s', i);
  }

  /** Log, exclusivity and ownership only look at each executor's job and flags. */
  lemma OwnersKeep(s: State, s': State, i: nat)
    requires LogOk(s) && Exclusive(s) && i < |s.executors|
    requires |s'.executors| == |s.executors| && s'.log == s.log
    requires forall j | 0 <= j < |s.executors| ::
               s'.executors[j].job == s.executors[j].job && s'.executors[j].owner == s.executors[j].owner
               && s'.executors[j].granted == s.executors[j].granted
    ensures LogOk(s') && Exclusive(s')
    ensures Owned(s) && s'.rows.Keys == s.rows.Keys ==> Owned(s')
  {
  }

  // A step of an owner that records an event.
  lemma EventKeeps(s: State, i: nat, ev: Event, e: Executor)
    requires Inv(s) && i < |s.executors| && s.executors[i].owner
    requires e.job == s.executors[i].job && e.owner && e.granted == s.executors[i].granted
    requires ev.who == i && EventOk(s.executors, ev)
    requires ev.ForwardSent? ==> !ViewOf(s.log, i, e.job).forward
    requires ev.RollbackSent? ==> !ViewOf(s.log, i, e.job).rollback && ViewOf(s.log, i, e.job).matched
    requires Healthy(e, Permit(s.grants, e.job), StatusAt(s.rows, e.job.key), ViewOf(s.log + [ev], i, e.job))
    ensures Inv(With(s.(log := s.log + [ev]), i, e))
  {
    hide LogOk, ViewOf, EventOk, Healthy, Permit, StatusAt;
    var u := s.(log := s.log + [ev]);
    EventLogOk(s, i, ev);
    OwnersKeep(u, With(u, i, e), i);
    assert Local(s, With(u, i, e), i);
    Assemble(s, With(u, i, e), i);
  }

  lemma EventLogOk(s: State, i: nat, ev: Event)
    requires LogOk(s) && i < |s.executors| && ev.who == i && EventOk(s.executors, ev)
    requires ev.ForwardSent? ==> !ViewOf(s.log, i, s.executors[i].job).forward
    requires ev.RollbackSent? ==> !ViewOf(s.log, i, s.executors[i].job).rollback
                                  && ViewOf(s.log, i, s.executors[i].job).matched
    ensures LogOk(s.(log := s.log + [ev]))
  {
    var u := s.(log := s.log + [ev]);
    NewSendIsFirst(s, i, ev);
    forall q | 0 <= q < |u.log| && u.log[q].RollbackSent?
      ensures u.log[q].who < |u.executors| && Matched(u, u.log[q].who, u.log[..q])
    {
      if q < |s.log| {
        assert u.log[..q] == s.log[..q] && Matched(s, s.log[q].who, s.log[..q]);
      } else {
        assert u.log[..q] == s.log;
      }
    }
    assert forall p | 0 <= p < |u.log| :: EventOk(u.executors, u.log[p]);
  }

  lemma NewSendIsFirst(s: State, i: nat, ev: Event)
    requires LogOk(s) && i < |s.executors| && ev.who == i
    requires ev.ForwardSent? ==> !ViewOf(s.log, i, s.executors[i].job).forward
    requires ev.RollbackSent? ==> !ViewOf(s.log, i, s.executors[i].job).rollback
    ensures SingleSends(s.log + [ev])
  {
  }

  // A step of an owner that sets the status of its row.
  lemma RowKeeps(s: State, i: nat, status: Status, e: Executor)
    requires Inv(s) && i < |s.executors| && s.executors[i].owner
    requires e.job == s.executors[i].job && e.owner && e.granted == s.executors[i].granted
    requires e.job.key in s.rows
    requires Healthy(e, Permit(s.grants, e.job), Some(status), ViewOf(s.log, i, e.job))
    ensures Inv(With(s.(rows := Marked(s.rows, e.job.key, status)), i, e))
  {
    hide LogOk, Exclusive, Owned, ViewOf;
    var s' := With(s.(rows := Marked(s.rows, e.job.key, status)), i, e);
    assert s'.rows.Keys == s.rows.Keys;
    OwnersKeep(s, s', i);
    assert Local(s, s', i);
    Assemble(s, s', i);
  }

  lemma GrantKeeps(s: State, i: nat, answer: Answer, now: int)
    requires Inv(s) && i < |s.executors| && s.executors[i].phase == Ready
    ensures Inv(ReadyStep(s, i, answer, now))
  {
    assert ExecutorOk(s, i);
    var e := s.executors[i];
    var s' := ReadyStep(s, i, answer, now);
    if s'.grants == s.grants {
      MoveKeeps(s, i, e.(phase := Done(Raised)));
    } else {
      forall j | 0 <= j < |s.executors| && j != i && s.executors[j].granted
        ensures s.executors[j].job.grant != e.job.grant
      {
        assert ExecutorOk(s, j);
      }
      OwnersGrow(s, s', i);
      assert Local(s, s', i);
      Assemble(s, s', i);
    }
  }

  /** Log facts survive new owners, and do not depend on who holds a grant. */
  lemma OwnersGrow(s: State, s': State, i: nat)
    requires LogOk(s) && i < |s.executors|
    requires |s'.executors| == |s.executors| && s'.log == s.log
    requires forall j | 0 <= j < |s.executors| ::
               s'.executors[j].job == s.executors[j].job && (s.executors[j].owner ==> s'.executors[j].owner)
    ensures LogOk(s')
    ensures Owned(s) && s'.rows.Keys == s.rows.Keys ==> Owned(s')
  {
  }

  lemma NewKeyIsExclusive(s: State, s': State, i: nat)
    requires Exclusive(s) && i < |s.executors| && |s'.executors| == |s.executors|
    requires forall j | 0 <= j < |s.executors| :: j != i ==> s'.executors[j] == s.executors[j]
    requires s'.executors[i].job == s.executors[i].job && s'.executors[i].granted == s.executors[i].granted
    requires forall j | 0 <= j < |s.executors| && j != i && s.executors[j].owner ::
               s.executors[j].job.key != s.executors[i].job.key
    ensures Exclusive(s')
  {
  }

  lemma NewRowOwned(s: State, s': State, i: nat)
    requires Owned(s) && i < |s.executors| && |s'.executors| == |s.executors| && s'.executors[i].owner
    requires forall j | 0 <= j < |s.executors| ::
               s'.executors[j].job == s.executors[j].job && (s.executors[j].owner ==> s'.executors[j].owner)
    requires s'.rows.Keys == s.rows.Keys + {s.executors[i].job.key}
    ensures Owned(s')
  {
  }

  lemma KeyIsFree(s: State, i: nat)
    requires AllOk(s) && i < |s.executors| && s.executors[i].job.key !in s.rows
    ensures forall j | 0 <= j < |s.executors| && j != i && s.executors[j].owner ::
              s.executors[j].job.key != s.executors[i].job.key
  {
    forall j | 0 <= j < |s.executors| && j != i && s.executors[j].owner
      ensures s.executors[j].job.key != s.executors[i].job.key
    {
      assert ExecutorOk(s, j);
    }
  }

  lemma ReserveKeeps(s: State, i: nat, answer: Answer)
    requires Inv(s) && i < |s.executors| && s.executors[i].phase == Consumed
    ensures Inv(ReserveStep(s, i, answer))
  {
    hide LogOk, Exclusive, Owned, ViewOf;
    assert ExecutorOk(s, i);
    var e := s.executors[i];
    var s' := ReserveStep(s, i, answer);
    if !s'.executors[i].owner {
      MoveKeeps(s, i, s'.executors[i]);
    } else {
      KeyIsFree(s, i);
      OwnersGrow(s, s', i);
      NewRowOwned(s, s', i);
      NewKeyIsExclusive(s, s', i);
      assert Local(s, s', i);
      Assemble(s, s', i);
    }
  }

  lemma SendKeeps(s: State, i: nat, answer: Answer, now: int)
    requires Inv(s) && i < |s.executors| && s.executors[i].phase in {Sending, RollbackSending} && !answer.Crash?
    ensures Inv(Step(s, i, answer, now))
  {
    hide Exclusive, Owned, ViewOf;
    assert ExecutorOk(s, i);
    var e := s.executors[i];
    if e.phase == Sending {
      ViewGrows(s.log, ForwardSent(i, e.job.key, e.job.url, e.job.httpMethod), i, s.executors[i].job);
      EventKeeps(s, i, ForwardSent(i, e.job.key, e.job.url, e.job.httpMethod), e.(phase := AwaitForward));
    } else {
      ViewGrows(s.log, RollbackSent(i, e.job.key), i, s.executors[i].job);
      EventKeeps(s, i, RollbackSent(i, e.job.key), e.(phase := AwaitRollback));
    }
  }

  lemma ForwardAnswerKeeps(s: State, i: nat, answer: Answer)
    requires Inv(s) && i < |s.executors| && s.executors[i].phase == AwaitForward
    ensures Inv(ForwardAnswerStep(s, i, answer))
  {
    hide LogOk, Exclusive, Owned, ViewOf;
    assert ExecutorOk(s, i);
    var e' := ForwardAnswerStep(s, i, answer).executors[i];
    if answer.Response? {
      ViewGrows(s.log, ForwardAnswered(i, e'.job.key, answer.status), i, s.executors[i].job);
      EventKeeps(s, i, ForwardAnswered(i, e'.job.key, answer.status), e');
    } else if answer.Raises? {
      MoveKeeps(s, i, e');
    }
  }

  lemma RollbackAnswerKeeps(s: State, i: nat, answer: Answer)
    requires Inv(s) && i < |s.executors| && s.executors[i].phase == AwaitRollback
    ensures Inv(RollbackAnswerStep(s, i, answer))
  {
    hide LogOk, Exclusive, Owned, ViewOf;
    assert ExecutorOk(s, i);
    var e' := RollbackAnswerStep(s, i, answer).executors[i];
    if answer.Response? {
      ViewGrows(s.log, RollbackAnswered(i, e'.job.key, answer.status), i, s.executors[i].job);
      EventKeeps(s, i, RollbackAnswered(i, e'.job.key, answer.status), e');
    } else if answer.Raises? {
      MoveKeeps(s, i, e');
    }
  }

  lemma PostcheckKeeps(s: State, i: nat, answer: Answer)
    requires Inv(s) && i < |s.executors| && s.executors[i].phase == Postcheck
    ensures Inv(PostcheckStep(s, i, answer))
  {
    hide LogOk, Exclusive, Owned, ViewOf;
    assert ExecutorOk(s, i);
    var e' := PostcheckStep(s, i, answer).executors[i];
    if answer.Fine? {
      ViewGrows(s.log, PostVerified(i, e'.job.key), i, s.executors[i].job);
      EventKeeps(s, i, PostVerified(i, e'.job.key), e');
    } else if answer.Raises? {
      MoveKeeps(s, i, e');
    }
  }

  lemma RestoreKeeps(s: State, i: nat, answer: Answer)
    requires Inv(s) && i < |s.executors| && s.executors[i].phase == RestoreCheck
    ensures Inv(RestoreStep(s, i, answer))
  {
    hide LogOk, Exclusive, Owned, ViewOf;
    assert ExecutorOk(s, i);
    var e' := RestoreStep(s, i, answer).executors[i];
    if answer.Fine? {
      ViewGrows(s.log, RestoreVerified(i, e'.job.key), i, s.executors[i].job);
      EventKeeps(s, i, RestoreVerified(i, e'.job.key), e');
    } else if answer.Raises? {
      MoveKeeps(s, i, e');
    }
  }

  lemma MarkKeeps(s: State, i: nat, answer: Answer)
    requires Inv(s) && i < |s.executors| && s.executors[i].phase.Marking? && !answer.Crash?
    ensures Inv(MarkStep(s, i, answer))
  {
    hide LogOk, Exclusive, Owned, ViewOf;
    assert ExecutorOk(s, i);
    var e := s.executors[i];
    var e' := MarkStep(s, i, answer).executors[i];
    if answer.Raises? {
      MoveKeeps(s, i, e');
    } else {
      RowKeeps(s, i, e.phase.status, e');
    }
  }

  lemma HandlerKeeps(s: State, i: nat, answer: Answer)
    requires Inv(s) && i < |s.executors| && s.executors[i].phase == Handler
    ensures Inv(HandlerStep(s, i, answer))
  {
    hide LogOk, Exclusive, Owned, ViewOf;
    assert ExecutorOk(s, i);
    MoveKeeps(s, i, HandlerStep(s, i, answer).executors[i]);
  }

  lemma HandlerMarkKeeps(s: State, i: nat, answer: Answer)
    requires Inv(s) && i < |s.executors| && s.executors[i].phase == HandlerMark
    ensures Inv(HandlerMarkStep(s, i, answer))
  {
    hide LogOk, Exclusive, Owned, ViewOf;
    assert ExecutorOk(s, i);
    var e := s.executors[i];
    var e' := HandlerMarkStep(s, i, answer).executors[i];
    if answer.Raises? {
      MoveKeeps(s, i, e');
    } else {
      RowKeeps(s, i, if e.started then StateUnknown else FailedNoEffect, e');
    }
  }

  lemma PrepareKeeps(s: State, i: nat, answer: Answer, now: int)
    requires Inv(s) && i < |s.executors| && s.executors[i].phase in {ReservedRow, Setup, Precheck} && !answer.Crash?
    ensures Inv(Step(s, i, answer, now))
  {
    hide LogOk, Exclusive, Owned, ViewOf;
    assert ExecutorOk(s, i);
    MoveKeeps(s, i, Step(s, i, answer, now).executors[i]);
  }
}
