/**
 * What a run of the executors comes to, read off its schedule and its log alone: how it ends, that it ends, and that
 * nobody else's steps can change that.
 */
module MutationOutcomes {
  import opened MutationLedger
  import opened MutationProtocol
  import opened MutationSafety

  /** What a step of executor i may touch: its own entry, its own grant, its own key's row, and that only as owner. */
  ghost predicate OnlyOwn(s: State, s': State, i: nat) {
    && i < |s.executors| && |s'.executors| == |s.executors| && |s'.grants| == |s.grants|
    && s'.executors[i].job == s.executors[i].job
    && (forall j | 0 <= j < |s.executors| && j != i :: s'.executors[j] == s.executors[j])
    && (forall g | 0 <= g < |s.grants| :: s'.grants[g].terms == s.grants[g].terms)
    && (forall g | 0 <= g < |s.grants| && g != s.executors[i].job.grant :: s'.grants[g] == s.grants[g])
    && (s.executors[i].job.key in s.rows && !s.executors[i].owner ==> s'.rows == s.rows)
    && (forall k | k != s.executors[i].job.key ::
          (k in s'.rows <==> k in s.rows) && (k in s.rows ==> s'.rows[k] == s.rows[k]))
  }

  // The lemmas about single steps go phase by phase, and in groups of phases, which keeps each proof small.
  lemma PreparationTouches(s: State, i: nat, answer: Answer, now: int)
    requires i < |s.executors| && ExecutorOk(s, i)
    requires var phase := s.executors[i].phase;
             phase.Ready? || phase.Consumed? || phase.ReservedRow? || phase.Setup? || phase.Precheck? || phase.Sending?
    ensures OnlyOwn(s, Step(s, i, answer, now), i)
  {
    match s.executors[i].phase
    case Ready =>
    case Consumed =>
    case ReservedRow =>
    case Setup =>
    case Precheck =>
    case Sending =>
  }

  lemma ExchangeTouches(s: State, i: nat, answer: Answer, now: int)
    requires i < |s.executors| && ExecutorOk(s, i)
    requires var phase := s.executors[i].phase;
             phase.AwaitForward? || phase.Postcheck? || phase.RollbackSending? || phase.AwaitRollback?
             || phase.RestoreCheck?
    ensures OnlyOwn(s, Step(s, i, answer, now), i)
  {
    match s.executors[i].phase
    case AwaitForward =>
    case Postcheck =>
    case RollbackSending =>
    case AwaitRollback =>
    case RestoreCheck =>
  }

  lemma MarkTouches(s: State, i: nat, answer: Answer, now: int)
    requires i < |s.executors| && ExecutorOk(s, i)
    requires var phase := s.executors[i].phase;
             phase.Marking? || phase.Done? || phase.Crashed?
    ensures OnlyOwn(s, Step(s, i, answer, now), i)
  {
    match s.executors[i].phase
    case Marking(_, _) =>
    case Done(_) =>
    case Crashed =>
  }

  lemma HandlerTouches(s: State, i: nat, answer: Answer, now: int)
    requires i < |s.executors| && ExecutorOk(s, i)
    requires var phase := s.executors[i].phase;
             phase.Handler? || phase.HandlerMark?
    ensures OnlyOwn(s, Step(s, i, answer, now), i)
  {
    match s.executors[i].phase
    case Handler =>
    case HandlerMark =>
  }

  lemma StepTouches(s: State, i: nat, answer: Answer, now: int)
    requires Inv(s) && i < |s.executors|
    ensures OnlyOwn(s, Step(s, i, answer, now), i)
  {
    hide Step, OnlyOwn, ExecutorOk, LogOk, Exclusive, Owned;
    assert ExecutorOk(s, i);
    var phase := s.executors[i].phase;
    if phase.Marking? || phase.Done? || phase.Crashed? {
      MarkTouches(s, i, answer, now);
    } else if phase.Handler? || phase.HandlerMark? {
      HandlerTouches(s, i, answer, now);
    } else if phase.AwaitForward? || phase.Postcheck? || phase.RollbackSending? || phase.AwaitRollback?
              || phase.RestoreCheck? {
      ExchangeTouches(s, i, answer, now);
    } else {
      PreparationTouches(s, i, answer, now);
    }
  }

  lemma {:induction false} RunShape(jobs: seq<Job>, grants: seq<Terms>, schedule: seq<Tick>)
    ensures var s := Run(Start(jobs, grants), schedule);
            && |s.executors| == |jobs| && (forall i | 0 <= i < |jobs| :: s.executors[i].job == jobs[i])
            && |s.grants| == |grants| && (forall g | 0 <= g < |grants| :: s.grants[g].terms == grants[g])
  {
    if schedule != [] {
      var n := |schedule| - 1;
      RunShape(jobs, grants, schedule[..n]);
      RunKeeps(jobs, grants, schedule[..n]);
      if schedule[n].executor < |jobs| {
        StepTouches(Run(Start(jobs, grants), schedule[..n]), schedule[n].executor, schedule[n].answer,
                    schedule[n].now);
      }
    }
  }

  /** Executor i of the run after its first q ticks. */
  ghost function At(jobs: seq<Job>, grants: seq<Terms>, schedule: seq<Tick>, q: nat, i: nat): Executor
    requires i < |jobs| && q <= |schedule|
  {
    RunShape(jobs, grants, schedule[..q]);
    Run(Start(jobs, grants), schedule[..q]).executors[i]
  }

  lemma {:induction false} AtPrefix(jobs: seq<Job>, grants: seq<Terms>, schedule: seq<Tick>, q: nat, i: nat)
    requires i < |jobs| && q < |schedule|
    ensures At(jobs, grants, schedule[..|schedule| - 1], q, i) == At(jobs, grants, schedule, q, i)
  {
    assert schedule[..|schedule| - 1][..q] == schedule[..q];
  }

  // ----- the status of a finished run, without any flag of the machine -----

  ghost predicate InLedgerCall(phase: Phase) {
    phase == Consumed || phase.Marking? || phase == Handler || phase == HandlerMark
  }

  /** None of the ledger calls of executor i raised. */
  ghost predicate LedgerCallsReturn(jobs: seq<Job>, grants: seq<Terms>, schedule: seq<Tick>, i: nat)
    requires i < |jobs|
  {
    forall q: nat |
      q < |schedule| && schedule[q].executor == i && InLedgerCall(At(jobs, grants, schedule, q, i).phase) ::
      schedule[q].answer !in {Raises, RaisesButApplied}
  }

  lemma FaultNeedsLedgerCall(s: State, i: nat, answer: Answer, now: int)
    requires i < |s.executors| && ExecutorOk(s, i) && !s.executors[i].faulted
    requires InLedgerCall(s.executors[i].phase) ==> answer !in {Raises, RaisesButApplied}
    ensures |Step(s, i, answer, now).executors| == |s.executors| && !Step(s, i, answer, now).executors[i].faulted
  {
    match s.executors[i].phase
    case Consumed =>
    case Marking(_, _) =>
    case Handler =>
    case HandlerMark =>
    case _ =>
  }

  /** Only a raising ledger call sets the machine's faulted flag. */
  lemma {:induction false} FaultIsALedgerFault(jobs: seq<Job>, grants: seq<Terms>, schedule: seq<Tick>, i: nat)
    requires i < |jobs| && LedgerCallsReturn(jobs, grants, schedule, i)
    ensures !At(jobs, grants, schedule, |schedule|, i).faulted
  {
    assert schedule[..|schedule|] == schedule;
    if schedule != [] {
      var n := |schedule| - 1;
      forall q: nat | q < n ensures At(jobs, grants, schedule[..n], q, i) == At(jobs, grants, schedule, q, i) {
        AtPrefix(jobs, grants, schedule, q, i);
      }
      FaultIsALedgerFault(jobs, grants, schedule[..n], i);
      assert schedule[..n][..n] == schedule[..n];
      RunKeeps(jobs, grants, schedule[..n]);
      RunShape(jobs, grants, schedule[..n]);
      var s := Run(Start(jobs, grants), schedule[..n]);
      assert ExecutorOk(s, i);
      if schedule[n].executor == i {
        FaultNeedsLedgerCall(s, i, schedule[n].answer, schedule[n].now);
      } else if schedule[n].executor < |jobs| {
        StepTouches(s, schedule[n].executor, schedule[n].answer, schedule[n].now);
      }
    }
  }

  /** The status the source's documentation calls for, read off the network events of executor i alone. */
  ghost function StatusOfLog(log: seq<Event>, i: nat, job: Job): Status {
    if ForwardSent(i, job.key, job.url, job.httpMethod) !in log then FailedNoEffect
    else if ForwardAnswered(i, job.key, job.expectedStatus) !in log then StateUnknown
    else if !job.reversible then if PostVerified(i, job.key) in log then Succeeded else StateUnknown
    else if RollbackAnswered(i, job.key, job.rollbackStatus) in log && RestoreVerified(i, job.key) in log
    then RolledBack else RollbackFailed
  }

  /**
   * When no ledger call of a finished executor raised, its row has the status its network events call for, and it
   * raised exactly when its forward request was never answered. So a request that went out and got no answer leaves
   * MUTATION_STATE_UNKNOWN behind.
   */
  lemma {:induction false} FinishedMeans(jobs: seq<Job>, grants: seq<Terms>, schedule: seq<Tick>, i: nat)
    requires i < |jobs| && LedgerCallsReturn(jobs, grants, schedule, i)
    ensures var s := Run(Start(jobs, grants), schedule);
            var key := jobs[i].key;
            |s.executors| == |jobs| && s.executors[i].job == jobs[i]
            && (s.executors[i].phase.Done? && s.executors[i].owner ==>
                  && key in s.rows && s.rows[key].status == StatusOfLog(s.log, i, jobs[i])
                  && (s.executors[i].phase.outcome.Raised? <==>
                        !exists p | 0 <= p < |s.log| ::
                          s.log[p].ForwardAnswered? && s.log[p].who == i && s.log[p].key == key)
                  && (s.executors[i].phase.outcome.Returned? ==>
                        s.executors[i].phase.outcome.status == s.rows[key].status))
  {
    assert schedule[..|schedule|] == schedule;
    FaultIsALedgerFault(jobs, grants, schedule, i);
    RunKeeps(jobs, grants, schedule);
    RunShape(jobs, grants, schedule);
    assert ExecutorOk(Run(Start(jobs, grants), schedule), i);
  }

  // ----- every run ends -----

  /** How many steps an executor in this phase still takes at the very most. */
  ghost function Remaining(phase: Phase): nat {
    match phase
    case Ready => 14
    case Consumed => 13
    case ReservedRow => 12
    case Setup => 11
    case Precheck => 10
    case Sending => 9
    case AwaitForward => 8
    case Postcheck => 7
    case RollbackSending => 6
    case AwaitRollback => 5
    case RestoreCheck => 4
    case Marking(_, retreat) => if retreat == InnerExcept then 4 else if retreat == OuterExcept then 3 else 1
    case Handler => 2
    case HandlerMark => 1
    case Done(_) => 0
    case Crashed => 0
  }

  /** The awaited operation ended, one way or another: a fetch answered or raised, a check passed or raised. */
  ghost predicate Ends(phase: Phase, answer: Answer) {
    && !answer.Crash?
    && (phase.AwaitForward? || phase.AwaitRollback? ==> answer.Response? || answer.Raises?)
    && (phase.Postcheck? || phase.RestoreCheck? ==> answer.Fine? || answer.Raises?)
  }

  /** What the environment answered executor i, tick by tick. */
  ghost function OwnAnswers(schedule: seq<Tick>, i: nat): seq<Answer> {
    if schedule == [] then []
    else
      var last := schedule[|schedule| - 1];
      OwnAnswers(schedule[..|schedule| - 1], i) + if last.executor == i then [last.answer] else []
  }

  ghost predicate OperationsEnd(jobs: seq<Job>, grants: seq<Terms>, schedule: seq<Tick>, i: nat)
    requires i < |jobs|
  {
    forall q: nat | q < |schedule| && schedule[q].executor == i ::
      Ends(At(jobs, grants, schedule, q, i).phase, schedule[q].answer)
  }

  ghost predicate Advances(s: State, s': State, i: nat) {
    && i < |s.executors| && |s'.executors| == |s.executors| && !s'.executors[i].phase.Crashed?
    && (s'.executors[i].phase.Done? || Remaining(s'.executors[i].phase) < Remaining(s.executors[i].phase))
  }

  lemma PreparationAdvances(s: State, i: nat, answer: Answer, now: int)
    requires i < |s.executors| && Ends(s.executors[i].phase, answer)
    requires var phase := s.executors[i].phase;
             phase.Ready? || phase.Consumed? || phase.ReservedRow? || phase.Setup? || phase.Precheck? || phase.Sending?
    ensures Advances(s, Step(s, i, answer, now), i)
  {
    match s.executors[i].phase
    case Ready =>
    case Consumed =>
    case ReservedRow =>
    case Setup =>
    case Precheck =>
    case Sending =>
  }

  lemma ExchangeAdvances(s: State, i: nat, answer: Answer, now: int)
    requires i < |s.executors| && Ends(s.executors[i].phase, answer)
    requires var phase := s.executors[i].phase;
             phase.AwaitForward? || phase.Postcheck? || phase.RollbackSending? || phase.AwaitRollback?
             || phase.RestoreCheck?
    ensures Advances(s, Step(s, i, answer, now), i)
  {
    match s.executors[i].phase
    case AwaitForward =>
    case Postcheck =>
    case RollbackSending =>
    case AwaitRollback =>
    case RestoreCheck =>
  }

  lemma ClosingAdvances(s: State, i: nat, answer: Answer, now: int)
    requires i < |s.executors| && Ends(s.executors[i].phase, answer)
    requires var phase := s.executors[i].phase;
             phase.Marking? || phase.Handler? || phase.HandlerMark? || phase.Done?
    ensures Advances(s, Step(s, i, answer, now), i)
  {
    match s.executors[i].phase
    case Marking(_, _) =>
    case Handler =>
    case HandlerMark =>
    case Done(_) =>
  }

  lemma StepAdvances(s: State, i: nat, answer: Answer, now: int)
    requires i < |s.executors| && Ends(s.executors[i].phase, answer) && !s.executors[i].phase.Crashed?
    ensures Advances(s, Step(s, i, answer, now), i)
  {
    hide Step;
    var phase := s.executors[i].phase;
    if phase.Marking? || phase.Handler? || phase.HandlerMark? || phase.Done? {
      ClosingAdvances(s, i, answer, now);
    } else if phase.AwaitForward? || phase.Postcheck? || phase.RollbackSending? || phase.AwaitRollback?
              || phase.RestoreCheck? {
      ExchangeAdvances(s, i, answer, now);
    } else {
      PreparationAdvances(s, i, answer, now);
    }
  }

  lemma {:induction false} RunAdvances(jobs: seq<Job>, grants: seq<Terms>, schedule: seq<Tick>, i: nat)
    requires i < |jobs| && OperationsEnd(jobs, grants, schedule, i)
    ensures var phase := At(jobs, grants, schedule, |schedule|, i).phase;
            !phase.Crashed? && (phase.Done? || Remaining(phase) + |OwnAnswers(schedule, i)| <= 14)
  {
    assert schedule[..|schedule|] == schedule;
    if schedule != [] {
      var n := |schedule| - 1;
      forall q: nat | q < n ensures At(jobs, grants, schedule[..n], q, i) == At(jobs, grants, schedule, q, i) {
        AtPrefix(jobs, grants, schedule, q, i);
      }
      RunAdvances(jobs, grants, schedule[..n], i);
      assert schedule[..n][..n] == schedule[..n];
      RunShape(jobs, grants, schedule[..n]);
      var s := Run(Start(jobs, grants), schedule[..n]);
      if schedule[n].executor == i {
        StepAdvances(s, i, schedule[n].answer, schedule[n].now);
      } else if schedule[n].executor < |jobs| {
        RunKeeps(jobs, grants, schedule[..n]);
        StepTouches(s, schedule[n].executor, schedule[n].answer, schedule[n].now);
      }
    }
  }

  /** Whatever the others do, an executor whose own operations all end is finished after fourteen steps of its own. */
  lemma {:induction false} EveryRunFinishes(jobs: seq<Job>, grants: seq<Terms>, schedule: seq<Tick>, i: nat)
    requires i < |jobs| && OperationsEnd(jobs, grants, schedule, i) && |OwnAnswers(schedule, i)| >= 14
    ensures At(jobs, grants, schedule, |schedule|, i).phase.Done?
  {
    RunAdvances(jobs, grants, schedule, i);
  }

  // ----- nobody else's steps matter -----

  /** The others change neither an owner's executor nor its row. */
  lemma OthersLeaveAlone(s: State, i: nat, j: nat, answer: Answer, now: int)
    requires Inv(s) && i < |s.executors| && j != i && s.executors[i].owner
    ensures var s' := Step(s, j, answer, now);
            var key := s.executors[i].job.key;
            && |s'.executors| == |s.executors| && s'.executors[i] == s.executors[i]
            && key in s.rows && key in s'.rows && s'.rows[key] == s.rows[key]
  {
    assert ExecutorOk(s, i);
    if j < |s.executors| {
      assert ExecutorOk(s, j);
      StepTouches(s, j, answer, now);
    }
  }

  /** The phase after n of the answers Raises, Fine, Fine. */
  ghost function AfterError(phase: Phase, n: nat): Phase {
    if n == 0 then phase else if n == 1 then Handler else if n == 2 then HandlerMark else Done(Raised)
  }

  ghost predicate HandlesError(s: State, i: nat, phase: Phase, n: nat) {
    && i < |s.executors| && s.executors[i].owner && s.executors[i].phase == AfterError(phase, n)
    && (s.executors[i].started <==> phase == AwaitForward)
    && s.executors[i].job.key in s.rows
    && s.rows[s.executors[i].job.key].status ==
       if n < 3 then Started else if phase == AwaitForward then StateUnknown else FailedNoEffect
  }

  lemma ErrorStep(s: State, i: nat, phase: Phase, n: nat, now: int)
    requires n < 3 && HandlesError(s, i, phase, n) && (phase.Setup? || phase.Precheck? || phase.AwaitForward?)
    ensures HandlesError(Step(s, i, [Raises, Fine, Fine][n], now), i, phase, n + 1)
  {
  }

  lemma OthersKeepError(s: State, i: nat, tick: Tick, phase: Phase, n: nat)
    requires Inv(s) && HandlesError(s, i, phase, n) && tick.executor != i
    ensures HandlesError(Step(s, tick.executor, tick.answer, tick.now), i, phase, n)
  {
    hide Step, Inv;
    OthersLeaveAlone(s, i, tick.executor, tick.answer, tick.now);
  }

  lemma {:induction false} ErrorStarts(jobs: seq<Job>, grants: seq<Terms>, before: seq<Tick>, i: nat)
    requires i < |jobs|
    requires var phase := At(jobs, grants, before, |before|, i).phase;
             phase.Setup? || phase.Precheck? || phase.AwaitForward?
    ensures HandlesError(Run(Start(jobs, grants), before), i, At(jobs, grants, before, |before|, i).phase, 0)
  {
    assert before[..|before|] == before;
    RunShape(jobs, grants, before);
    RunKeeps(jobs, grants, before);
    assert ExecutorOk(Run(Start(jobs, grants), before), i);
  }

  lemma {:induction false} ErrorRun(jobs: seq<Job>, grants: seq<Terms>, before: seq<Tick>, after: seq<Tick>, i: nat)
    requires i < |jobs| && OwnAnswers(after, i) <= [Raises, Fine, Fine]
    requires var phase := At(jobs, grants, before, |before|, i).phase;
             phase.Setup? || phase.Precheck? || phase.AwaitForward?
    ensures HandlesError(Run(Start(jobs, grants), before + after), i, At(jobs, grants, before, |before|, i).phase,
                         |OwnAnswers(after, i)|)
  {
    hide Step, Inv, HandlesError;
    if after == [] {
      assert before + after == before;
      ErrorStarts(jobs, grants, before, i);
    } else {
      var n := |after| - 1;
      ErrorRun(jobs, grants, before, after[..n], i);
      assert (before + after)[..|before + after| - 1] == before + after[..n];
      var s := Run(Start(jobs, grants), before + after[..n]);
      RunKeeps(jobs, grants, before + after[..n]);
      if after[n].executor == i {
        ErrorStep(s, i, At(jobs, grants, before, |before|, i).phase, |OwnAnswers(after[..n], i)|, after[n].now);
      } else {
        OthersKeepError(s, i, after[n], At(jobs, grants, before, |before|, i).phase, |OwnAnswers(after[..n], i)|);
      }
    }
  }

  /**
   * A fetch that raises settles the row within two more steps of the executor, whatever the others do meanwhile:
   * unknown when the forward request had been sent, without effect when it had not.
   */
  lemma {:induction false} NetworkErrorSettles(jobs: seq<Job>, grants: seq<Terms>, before: seq<Tick>,
                                               after: seq<Tick>, i: nat)
    requires i < |jobs| && OwnAnswers(after, i) == [Raises, Fine, Fine]
    requires var phase := At(jobs, grants, before, |before|, i).phase;
             phase.Setup? || phase.Precheck? || phase.AwaitForward?
    ensures var s := Run(Start(jobs, grants), before + after);
            && |s.executors| == |jobs| && s.executors[i].phase == Done(Raised) && jobs[i].key in s.rows
            && s.rows[jobs[i].key].status ==
               if At(jobs, grants, before, |before|, i).phase == AwaitForward then StateUnknown else FailedNoEffect
  {
    ErrorRun(jobs, grants, before, after, i);
    RunShape(jobs, grants, before + after);
  }

  // ----- success among others -----

  /** Executor i's grant covers exactly what it sends, and nobody else has its key or its grant. */
  ghost predicate HasTheFloor(jobs: seq<Job>, grants: seq<Terms>, i: nat) {
    && i < |jobs| && jobs[i].grant < |grants|
    && var terms := grants[jobs[i].grant];
    && terms.url == jobs[i].url && terms.httpMethod == jobs[i].httpMethod && terms.key == jobs[i].key
    && (forall j | 0 <= j < |jobs| && j != i :: jobs[j].key != jobs[i].key && jobs[j].grant != jobs[i].grant)
  }

  /** Every step of executor i comes before its grant expires and gets the answer of a run in which all goes well. */
  ghost predicate AnsweredWell(jobs: seq<Job>, grants: seq<Terms>, schedule: seq<Tick>, i: nat)
    requires i < |jobs| && jobs[i].grant < |grants|
  {
    forall q: nat | q < |schedule| && schedule[q].executor == i ::
      && schedule[q].now < grants[jobs[i].grant].expiresAt
      && schedule[q].answer == GoodAnswer(jobs[i], |OwnAnswers(schedule[..q], i)|)
  }

  ghost predicate WellSoFar(s: State, i: nat, n: nat) {
    && i < |s.executors| && s.executors[i].job.grant < |s.grants|
    && var e := s.executors[i];
    var g := s.grants[e.job.grant];
    && e.phase == PhaseAt(e.job, n)
    && (n == 0 ==> !g.consumed)
    && (n < 2 ==> e.job.key !in s.rows)
    && (n >= 2 ==> e.owner && e.job.key in s.rows
                   && s.rows[e.job.key] == Row(e.job.url, e.job.httpMethod, g.terms.approvalId,
                                               if n < StepsToFinish(e.job) then Started else FinalStatus(e.job)))
  }

  lemma WellSent(s: State, i: nat, n: nat, now: int)
    requires n < 6
    requires WellSoFar(s, i, n) && now < s.grants[s.executors[i].job.grant].terms.expiresAt
    requires var e := s.executors[i];
             var terms := s.grants[e.job.grant].terms;
             terms.url == e.job.url && terms.httpMethod == e.job.httpMethod && terms.key == e.job.key
    ensures WellSoFar(Step(s, i, GoodAnswer(s.executors[i].job, n), now), i, n + 1)
  {
    match s.executors[i].phase
    case Ready =>
    case Consumed =>
    case _ =>
  }

  lemma WellAnswered(s: State, i: nat, n: nat, now: int)
    requires n >= 6
    requires WellSoFar(s, i, n) && now < s.grants[s.executors[i].job.grant].terms.expiresAt
    requires var e := s.executors[i];
             var terms := s.grants[e.job.grant].terms;
             terms.url == e.job.url && terms.httpMethod == e.job.httpMethod && terms.key == e.job.key
    ensures WellSoFar(Step(s, i, GoodAnswer(s.executors[i].job, n), now), i, n + 1)
  {
    match s.executors[i].phase
    case AwaitForward =>
    case Postcheck =>
    case AwaitRollback =>
    case RestoreCheck =>
    case Marking(_, _) =>
    case _ =>
  }

  lemma OthersKeepWell(s: State, i: nat, j: nat, n: nat, answer: Answer, now: int)
    requires Inv(s) && WellSoFar(s, i, n) && j != i
    requires j < |s.executors| ==>
               s.executors[j].job.key != s.executors[i].job.key && s.executors[j].job.grant != s.executors[i].job.grant
    ensures WellSoFar(Step(s, j, answer, now), i, n)
  {
    if j < |s.executors| {
      StepTouches(s, j, answer, now);
    }
  }

  lemma {:induction false} WellStart(jobs: seq<Job>, grants: seq<Terms>, i: nat)
    requires HasTheFloor(jobs, grants, i)
    ensures WellSoFar(Start(jobs, grants), i, 0)
  {
  }

  lemma {:induction false} WellRun(jobs: seq<Job>, grants: seq<Terms>, schedule: seq<Tick>, i: nat)
    requires HasTheFloor(jobs, grants, i) && AnsweredWell(jobs, grants, schedule, i)
    ensures WellSoFar(Run(Start(jobs, grants), schedule), i, |OwnAnswers(schedule, i)|)
  {
    hide Step, Inv, WellSoFar, GoodAnswer;
    if schedule == [] {
      WellStart(jobs, grants, i);
    } else {
      var n := |schedule| - 1;
      forall q: nat | q < n ensures schedule[..n][..q] == schedule[..q] {
      }
      WellRun(jobs, grants, schedule[..n], i);
      RunKeeps(jobs, grants, schedule[..n]);
      RunShape(jobs, grants, schedule[..n]);
      var s := Run(Start(jobs, grants), schedule[..n]);
      if schedule[n].executor == i {
        var k := |OwnAnswers(schedule[..n], i)|;
        if k < 6 {
          WellSent(s, i, k, schedule[n].now);
        } else {
          WellAnswered(s, i, k, schedule[n].now);
        }
      } else {
        OthersKeepWell(s, i, schedule[n].executor, |OwnAnswers(schedule[..n], i)|, schedule[n].answer,
                       schedule[n].now);
      }
    }
  }

  /**
   * Answered as expected, an executor whose key and grant are nobody else's succeeds in the midst of any others,
   * crashing, failing or interleaved as they may be.
   */
  lemma {:induction false} OthersCannotSpoilIt(jobs: seq<Job>, grants: seq<Terms>, schedule: seq<Tick>, i: nat)
    requires HasTheFloor(jobs, grants, i) && AnsweredWell(jobs, grants, schedule, i)
    requires |OwnAnswers(schedule, i)| >= StepsToFinish(jobs[i])
    ensures var s := Run(Start(jobs, grants), schedule);
            && |s.executors| == |jobs| && s.executors[i].phase == Done(Returned(FinalStatus(jobs[i])))
            && jobs[i].key in s.rows
            && s.rows[jobs[i].key] ==
               Row(jobs[i].url, jobs[i].httpMethod, grants[jobs[i].grant].approvalId, FinalStatus(jobs[i]))
  {
    WellRun(jobs, grants, schedule, i);
    RunShape(jobs, grants, schedule);
  }
}
