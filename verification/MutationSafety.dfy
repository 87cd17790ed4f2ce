/** What holds over every run of the executors: the safety of the mutation protocol, and that it can succeed. */
module MutationSafety {
  import opened MutationLedger
  import opened MutationProtocol

  /** One step of any executor, whatever the environment answers, keeps the invariant. */
  lemma StepKeeps(s: State, i: nat, answer: Answer, now: int)
    requires Inv(s)
    ensures Inv(Step(s, i, answer, now))
  {
    hide LogOk, Exclusive, Owned, ViewOf;
    if i < |s.executors| {
      assert ExecutorOk(s, i);
      var e := s.executors[i];
      if answer.Crash? && !e.phase.Done? {
        MoveKeeps(s, i, e.(phase := Crashed));
      } else {
        match e.phase
        case Ready => GrantKeeps(s, i, answer, now);
        case Consumed => ReserveKeeps(s, i, answer);
        case ReservedRow => PrepareKeeps(s, i, answer, now);
        case Setup => PrepareKeeps(s, i, answer, now);
        case Precheck => PrepareKeeps(s, i, answer, now);
        case Marking(_, _) => MarkKeeps(s, i, answer);
        case Handler => HandlerKeeps(s, i, answer);
        case HandlerMark => HandlerMarkKeeps(s, i, answer);
        case Done(_) =>
        case Crashed =>
        case AwaitForward => ForwardAnswerKeeps(s, i, answer);
        case Postcheck => PostcheckKeeps(s, i, answer);
        case AwaitRollback => RollbackAnswerKeeps(s, i, answer);
        case RestoreCheck => RestoreKeeps(s, i, answer);
        case _ => SendKeeps(s, i, answer, now);
      }
    }
  }

  lemma {:induction false} RunKeeps(jobs: seq<Job>, grants: seq<Terms>, schedule: seq<Tick>)
    ensures Inv(Run(Start(jobs, grants), schedule))
  {
    if schedule != [] {
      var n := |schedule| - 1;
      RunKeeps(jobs, grants, schedule[..n]);
      StepKeeps(Run(Start(jobs, grants), schedule[..n]), schedule[n].executor, schedule[n].answer, schedule[n].now);
    }
  }

  // ----- safety of every run -----

  lemma SendsAreSingle(s: State)
    requires LogOk(s) && Exclusive(s)
    ensures SentAtMostOnce(s.log)
  {
  }

  lemma SendsAreCovered(s: State, p: nat)
    requires LogOk(s) && AllOk(s) && p < |s.log| && s.log[p].ForwardSent?
    ensures s.log[p].key in s.rows && s.rows[s.log[p].key].status != FailedNoEffect
    ensures var g := s.executors[s.log[p].who].job.grant;
            g < |s.grants| && s.grants[g].consumed && s.grants[g].terms.key == s.log[p].key
            && s.grants[g].terms.url == s.log[p].url && s.grants[g].terms.httpMethod == s.log[p].httpMethod
  {
    assert EventOk(s.executors, s.log[p]) && ExecutorOk(s, s.log[p].who);
    assert s.log[p] in s.log;
  }

  lemma StatusesAreEarned(s: State)
    requires AllOk(s) && Owned(s)
    ensures StatusIsEarned(s)
  {
    forall k | k in s.rows ensures exists i: nat | i < |s.executors| :: EarnedAt(s, i, k) {
      var i :| 0 <= i < |s.executors| && s.executors[i].owner && s.executors[i].job.key == k;
      assert ExecutorOk(s, i);
      assert EarnedAt(s, i, k);
    }
  }

  lemma ReportsAreTrue(s: State)
    requires AllOk(s)
    ensures ReportsAgree(s)
  {
    forall i: nat | i < |s.executors| && s.executors[i].owner && s.executors[i].phase.Done?
      ensures ExecutorOk(s, i)
    {
    }
  }

  lemma InvIsSafe(s: State)
    requires Inv(s)
    ensures SentAtMostOnce(s.log) && SentIsRecorded(s) && SentIsGranted(s) && RollbackFollowsMatch(s)
    ensures StatusIsEarned(s) && ReportsAgree(s)
  {
    SendsAreSingle(s);
    forall p: nat | p < |s.log| && s.log[p].ForwardSent?
      ensures s.log[p].key in s.rows && s.rows[s.log[p].key].status != FailedNoEffect
      ensures exists g | 0 <= g < |s.grants| ::
                s.grants[g].consumed && s.grants[g].terms.key == s.log[p].key
                && s.grants[g].terms.url == s.log[p].url && s.grants[g].terms.httpMethod == s.log[p].httpMethod
    {
      SendsAreCovered(s, p);
    }
    StatusesAreEarned(s);
    ReportsAreTrue(s);
  }

  /** The protocol's safety, for any executors, any grants, any interleaving, any answers and crashes anywhere. */
  lemma EveryRunIsSafe(jobs: seq<Job>, grants: seq<Terms>, schedule: seq<Tick>)
    ensures var s := Run(Start(jobs, grants), schedule);
            && SentAtMostOnce(s.log) && SentIsRecorded(s) && SentIsGranted(s) && RollbackFollowsMatch(s)
            && StatusIsEarned(s) && ReportsAgree(s) && Exclusive(s)
  {
    RunKeeps(jobs, grants, schedule);
    InvIsSafe(Run(Start(jobs, grants), schedule));
  }

  lemma StepSettles(s: State, i: nat, answer: Answer, now: int, k: string)
    requires Inv(s) && k in s.rows
    ensures k in Step(s, i, answer, now).rows
    ensures s.rows[k].status != Started ==> Step(s, i, answer, now).rows[k] == s.rows[k]
  {
    if i < |s.executors| {
      assert ExecutorOk(s, i);
    }
  }

  /** A key's status changes at most once after STARTED: once settled, no later step of anyone changes its row. */
  lemma {:induction false} StatusChangesOnce(jobs: seq<Job>, grants: seq<Terms>, before: seq<Tick>, after: seq<Tick>,
                                            k: string)
    requires k in Run(Start(jobs, grants), before).rows
    requires Run(Start(jobs, grants), before).rows[k].status != Started
    ensures k in Run(Start(jobs, grants), before + after).rows
    ensures Run(Start(jobs, grants), before + after).rows[k] == Run(Start(jobs, grants), before).rows[k]
  {
    if after == [] {
      assert before + after == before;
    } else {
      var n := |after| - 1;
      StatusChangesOnce(jobs, grants, before, after[..n], k);
      RunKeeps(jobs, grants, before + after[..n]);
      assert (before + after)[..|before + after| - 1] == before + after[..n];
      StepSettles(Run(Start(jobs, grants), before + after[..n]), after[n].executor, after[n].answer, after[n].now, k);
    }
  }

  // ----- success is reachable -----

  function FinalStatus(job: Job): Status {
    if job.reversible then RolledBack else Succeeded
  }

  function StepsToFinish(job: Job): nat {
    if job.reversible then 12 else 9
  }

  /** The answers of a run in which nothing goes wrong. */
  function GoodAnswer(job: Job, n: nat): Answer {
    if n == 6 then Response(job.expectedStatus)
    else if n == 9 && job.reversible then Response(job.rollbackStatus)
    else Fine
  }

  function GoodTicks(job: Job, n: nat, now: int): seq<Tick> {
    seq(n, j requires 0 <= j < n => Tick(0, GoodAnswer(job, j), now))
  }

  function FullLog(job: Job): seq<Event> {
    [ForwardSent(0, job.key, job.url, job.httpMethod), ForwardAnswered(0, job.key, job.expectedStatus),
     PostVerified(0, job.key)]
    + (if job.reversible
       then [RollbackSent(0, job.key), RollbackAnswered(0, job.key, job.rollbackStatus), RestoreVerified(0, job.key)]
       else [])
  }

  function PhaseAt(job: Job, n: nat): Phase {
    if n == 0 then Ready
    else if n == 1 then Consumed
    else if n == 2 then ReservedRow
    else if n == 3 then Setup
    else if n == 4 then Precheck
    else if n == 5 then Sending
    else if n == 6 then AwaitForward
    else if n == 7 then Postcheck
    else if n >= StepsToFinish(job) then Done(Returned(FinalStatus(job)))
    else if n == StepsToFinish(job) - 1 then Marking(FinalStatus(job), OuterExcept)
    else if n == 8 then RollbackSending
    else if n == 9 then AwaitRollback
    else RestoreCheck
  }

  // The state after n undisturbed steps.
  function Milestone(job: Job, terms: Terms, n: nat): State {
    var status := if n >= StepsToFinish(job) then FinalStatus(job) else Started;
    var log := FullLog(job);
    State(if n < 2 then map[] else map[job.key := Row(job.url, job.httpMethod, terms.approvalId, status)],
          [GrantState(terms, n >= 1)],
          [Executor(job, PhaseAt(job, n), n >= 5, n >= 1, n >= 2, false)],
          log[..if n <= 5 then 0 else if n - 5 <= |log| then n - 5 else |log|])
  }

  lemma MilestoneStep(job: Job, terms: Terms, n: nat, now: int)
    requires n < StepsToFinish(job)
    requires job.grant == 0 && now < terms.expiresAt
    requires terms.url == job.url && terms.httpMethod == job.httpMethod && terms.key == job.key
    ensures Step(Milestone(job, terms, n), 0, GoodAnswer(job, n), now) == Milestone(job, terms, n + 1)
  {
    var s, t := Milestone(job, terms, n), Milestone(job, terms, n + 1);
    var s' := Step(s, 0, GoodAnswer(job, n), now);
    assert s'.executors == t.executors;
    if n < 5 {
      assert s'.log == t.log;
      assert s'.rows == t.rows && s'.grants == t.grants;
    } else {
      assert s'.rows == t.rows && s'.grants == t.grants;
      assert s'.log == t.log;
    }
  }

  /** Undisturbed and answered as expected, a request ends SUCCEEDED and a reversible mutation ends ROLLED_BACK. */
  lemma UndisturbedRun(job: Job, terms: Terms, now: int)
    requires job.grant == 0 && now < terms.expiresAt
    requires terms.url == job.url && terms.httpMethod == job.httpMethod && terms.key == job.key
    ensures Run(Start([job], [terms]), GoodTicks(job, StepsToFinish(job), now)) ==
            State(map[job.key := Row(job.url, job.httpMethod, terms.approvalId, FinalStatus(job))],
                  [GrantState(terms, true)],
                  [Executor(job, Done(Returned(FinalStatus(job))), true, true, true, false)], FullLog(job))
  {
    var s0 := Start([job], [terms]);
    var n := 0;
    assert s0 == Milestone(job, terms, 0);
    while n < StepsToFinish(job)
      invariant n <= StepsToFinish(job)
      invariant Run(s0, GoodTicks(job, n, now)) == Milestone(job, terms, n)
    {
      MilestoneStep(job, terms, n, now);
      assert GoodTicks(job, n + 1, now)[..n] == GoodTicks(job, n, now);
      n := n + 1;
    }
    assert FullLog(job)[..|FullLog(job)|] == FullLog(job);
  }
}
