/** The approvals of browser/mutation.py behind every run of the executors. */
module MutationApproval {
  import opened Wrappers
  import opened MutationLedger
  import opened MutationProtocol
  import opened MutationSafety
  import opened MutationOutcomes

  // What a grant was built from, and when.
  datatype Issue = Issue(request: Request, approval: Option<Approval>, built: int)

  ghost predicate Issued(issues: seq<Issue>, grants: seq<Terms>) {
    && |issues| == |grants|
    && forall g | 0 <= g < |grants| ::
         BuildGrant(issues[g].request, issues[g].approval, issues[g].built) == Ok(grants[g])
  }

  /** The approval names this target, method and key and was good for one use. */
  ghost predicate Approves(a: Approval, url: string, httpMethod: string, key: string) {
    a.approved && a.oneShot && a.url == Some(url) && a.httpMethod == Some(httpMethod) && a.key == Some(key)
  }

  /** Tick q of the run uses grant g up, before it expires, by an executor that sends just what the grant names. */
  ghost predicate UsedAt(jobs: seq<Job>, grants: seq<Terms>, schedule: seq<Tick>, g: nat, q: nat)
    requires g < |grants|
  {
    && q < |schedule| && schedule[q].now < grants[g].expiresAt
    && schedule[q].executor < |jobs| && MayUse(jobs[schedule[q].executor], g, grants[g])
    && !ConsumedIn(Run(Start(jobs, grants), schedule[..q]), g)
    && ConsumedIn(Run(Start(jobs, grants), schedule[..q + 1]), g)
  }

  ghost predicate MayUse(job: Job, g: nat, terms: Terms) {
    job.grant == g && job.url == terms.url && job.httpMethod == terms.httpMethod && job.key == terms.key
  }

  ghost predicate ConsumedIn(s: State, g: nat) {
    g < |s.grants| && s.grants[g].consumed
  }

  lemma StepConsumes(s: State, i: nat, answer: Answer, now: int, g: nat)
    ensures |Step(s, i, answer, now).grants| == |s.grants|
    ensures g < |s.grants| ==> Step(s, i, answer, now).grants[g].terms == s.grants[g].terms
    ensures !ConsumedIn(s, g) && ConsumedIn(Step(s, i, answer, now), g) ==>
              && now < s.grants[g].terms.expiresAt
              && i < |s.executors| && MayUse(s.executors[i].job, g, s.grants[g].terms)
  {
  }

  /** A consumed grant was used up by one tick of the run, when it had not expired. */
  lemma {:induction false} ConsumedWhileFresh(jobs: seq<Job>, grants: seq<Terms>, schedule: seq<Tick>, g: nat)
    requires g < |grants|
    ensures var s := Run(Start(jobs, grants), schedule);
            && |s.grants| == |grants| && s.grants[g].terms == grants[g]
            && (s.grants[g].consumed ==> exists q: nat :: UsedAt(jobs, grants, schedule, g, q))
  {
    if schedule != [] {
      var n := |schedule| - 1;
      var before := Run(Start(jobs, grants), schedule[..n]);
      ConsumedWhileFresh(jobs, grants, schedule[..n], g);
      RunShape(jobs, grants, schedule[..n]);
      StepConsumes(before, schedule[n].executor, schedule[n].answer, schedule[n].now, g);
      assert schedule[..n + 1] == schedule;
      if before.grants[g].consumed {
        var q: nat :| UsedAt(jobs, grants, schedule[..n], g, q);
        assert schedule[..n][..q] == schedule[..q] && schedule[..n][..q + 1] == schedule[..q + 1];
        assert UsedAt(jobs, grants, schedule, g, q);
      } else if Run(Start(jobs, grants), schedule).grants[g].consumed {
        assert UsedAt(jobs, grants, schedule, g, n);
      }
    }
  }

  /**
   * When the grants were built from approvals, every forward send of every run was named by one: approved, one-shot,
   * for exactly this target, method and key, and not expired when its grant was used up.
   */
  lemma EverySendWasApproved(jobs: seq<Job>, issues: seq<Issue>, grants: seq<Terms>, schedule: seq<Tick>, p: nat)
    requires Issued(issues, grants)
    requires p < |Run(Start(jobs, grants), schedule).log| && Run(Start(jobs, grants), schedule).log[p].ForwardSent?
    ensures var sent := Run(Start(jobs, grants), schedule).log[p];
            exists g: nat, q: nat | g < |grants| ::
              && UsedAt(jobs, grants, schedule, g, q) && issues[g].approval.Some?
              && Approves(issues[g].approval.value, sent.url, sent.httpMethod, sent.key)
              && issues[g].approval.value.expiresAt == Some(grants[g].expiresAt)
  {
    var s := Run(Start(jobs, grants), schedule);
    EveryRunIsSafe(jobs, grants, schedule);
    assert SentIsGranted(s);
    var g: int :| 0 <= g < |s.grants| && s.grants[g].consumed && s.grants[g].terms.key == s.log[p].key
                  && s.grants[g].terms.url == s.log[p].url && s.grants[g].terms.httpMethod == s.log[p].httpMethod;
    SameGrants(jobs, grants, schedule);
    ConsumedWhileFresh(jobs, grants, schedule, g);
    var q: nat :| UsedAt(jobs, grants, schedule, g, q);
    BuiltFromApproval(issues[g], grants[g]);
  }

  lemma {:induction false} SameGrants(jobs: seq<Job>, grants: seq<Terms>, schedule: seq<Tick>)
    ensures |Run(Start(jobs, grants), schedule).grants| == |grants|
  {
    if schedule != [] {
      var n := |schedule| - 1;
      SameGrants(jobs, grants, schedule[..n]);
      var before := Run(Start(jobs, grants), schedule[..n]);
      StepConsumes(before, schedule[n].executor, schedule[n].answer, schedule[n].now, 0);
    }
  }

  lemma BuiltFromApproval(issue: Issue, terms: Terms)
    requires BuildGrant(issue.request, issue.approval, issue.built) == Ok(terms)
    ensures issue.approval.Some? && Approves(issue.approval.value, terms.url, terms.httpMethod, terms.key)
    ensures issue.approval.value.expiresAt == Some(terms.expiresAt)
  {
  }
}
