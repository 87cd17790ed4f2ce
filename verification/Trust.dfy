/** The trust evaluator and the rule table it amounts to: execution_trust.py. */
module Trust {
  import opened Wrappers

  datatype Decision = Admit | Unknown | PendingPolicy | Stale | Block

  datatype Reason =
    | NewToolPendingPolicy | RemovedToolBlocked | CatalogStateUnknown | CatalogStale | CatalogFreshnessUnknown
    | SameVersionDigestDrift | DependencyManifestDrift | MaterialIdentityDrift | WriteConsentInvalidated
    | PolicyDenied | PolicyUnresolved | ConsentUnresolved | ConsentDenied
    | SecurityBlock | SecurityUnknown | SecurityEvidenceRequired | ModeEffectConflict
    | DependencyUnapproved | DependencyBlocked | TopologyDrift | EgressDisabledUpload
    | ExtensionRevoked | ExtensionEnablementUnknown | ExtensionIncomplete | LineageIncomplete
    | PromotionNotAuthorized | HeldOutFailed | InstallNotAuthorized
    | MaterialInvalidation | PolicyInvalidation

  datatype Discovered = Known | NewPendingPolicy | Removed | UndiscoveredState
  datatype Freshness = Fresh | StaleCatalog | UnknownFreshness
  datatype PolicyDecision = Allow | Deny | UnknownPolicy
  datatype Consent = NotRequired | RequiredPending | GrantedBound | Denied | UnknownConsent
  datatype Security = Pass | BlockedBySecurity | UnknownSecurity | NotApplicable
  datatype Mode = ReadOnly | Write
  datatype Effect = NoExternalEffect | LocalDurableWrite | ReadNetwork | RemoteReversible | RemoteHighImpact
  datatype Enablement = Disabled | Enabled | Revoked | UnknownEnablement
  datatype AssetKind = GeneratedArtifact | BrowserExtension | OtherAsset
  datatype HeldOut = HeldOutPass | HeldOutFail | NotRun

  datatype InvalidationEvent =
    | CatalogChanged | PolicyChanged | ConsentChanged | DigestChanged | DependencyChanged | TopologyChanged
    | EgressPolicyChanged | ExtensionChanged | ExtensionRevocation | ValidationDependencyChanged | AuthorityScopeChanged

  datatype Digest = Digest(hex: string)
  datatype Pinned = Pinned(actual: Digest, expected: Digest)
  datatype Topology = Topology(text: string)

  datatype Dependency = Dependency(digest: Pinned, security: Security)

  datatype Extension = Extension(
    id: Option<string>, revision: Option<string>, manifest: Option<Digest>, backend: Option<string>, state: Enablement)

  datatype Operation = Operation(
    mode: Mode, effect: Effect, upload: bool, promotion: bool, install: bool, authenticatedRequests: nat)

  // The fields of a schema-valid binding that the evaluator reads.
  datatype Binding = Binding(
    kind: AssetKind, content: Pinned, manifest: Pinned,
    discovered: Discovered, freshness: Freshness, schema: Pinned, description: Pinned,
    policy: PolicyDecision, consent: Consent, security: Security, requested: Operation,
    topology: Topology, observedTopology: Topology, egressEnabled: bool,
    ext: Extension, producer: Option<string>, sourceReceipts: seq<string>,
    promotionAllowed: bool, heldOut: HeldOut, installAuthorized: bool,
    dependencies: seq<Dependency>, invalidations: seq<InvalidationEvent>)

  // ----- the rule table -----

  function Rank(d: Decision): nat {
    match d case Admit => 0 case Unknown => 1 case PendingPolicy => 2 case Stale => 3 case Block => 4
  }

  /** What each reason costs. */
  function Severity(r: Reason): (d: Decision)
    ensures d != Admit
  {
    match r
    case CatalogStateUnknown | CatalogFreshnessUnknown | SecurityUnknown | ExtensionEnablementUnknown => Unknown
    case NewToolPendingPolicy | PolicyUnresolved | ConsentUnresolved | PolicyInvalidation => PendingPolicy
    case CatalogStale | SameVersionDigestDrift | DependencyManifestDrift | MaterialIdentityDrift
       | WriteConsentInvalidated | MaterialInvalidation => Stale
    case _ => Block
  }

  function When(c: bool, r: Reason): set<Reason> {
    if c then {r} else {}
  }

  predicate Drifted(p: Pinned) {
    p.actual != p.expected
  }

  predicate IdentityDrifted(b: Binding) {
    Drifted(b.schema) || Drifted(b.description)
  }

  predicate StrongerEffect(o: Operation) {
    o.mode == Write || o.upload || o.promotion || o.install || o.authenticatedRequests > 0
  }

  predicate ModeConflict(o: Operation) {
    if o.mode == ReadOnly then o.effect in {LocalDurableWrite, RemoteReversible, RemoteHighImpact}
    else o.effect in {NoExternalEffect, ReadNetwork}
  }

  predicate IncompleteExtension(e: Extension) {
    e.id.None? || e.revision.None? || e.manifest.None? || e.backend.None?
  }

  function CatalogRules(b: Binding): set<Reason> {
    When(b.discovered == NewPendingPolicy, NewToolPendingPolicy) + When(b.discovered == Removed, RemovedToolBlocked)
    + When(b.discovered == UndiscoveredState, CatalogStateUnknown) + When(b.freshness == StaleCatalog, CatalogStale)
    + When(b.freshness == UnknownFreshness, CatalogFreshnessUnknown)
  }

  function DriftRules(b: Binding): set<Reason> {
    When(Drifted(b.content), SameVersionDigestDrift) + When(Drifted(b.manifest), DependencyManifestDrift)
    + When(IdentityDrifted(b), MaterialIdentityDrift)
    + When(IdentityDrifted(b) && b.requested.mode == Write, WriteConsentInvalidated)
  }

  function PolicyRules(b: Binding): set<Reason> {
    When(b.policy == Deny, PolicyDenied) + When(b.policy == UnknownPolicy, PolicyUnresolved)
    + When(b.consent == RequiredPending || b.consent == UnknownConsent, ConsentUnresolved)
    + When(b.consent == Denied, ConsentDenied)
  }

  function SecurityRules(b: Binding): set<Reason> {
    When(b.security == BlockedBySecurity, SecurityBlock) + When(b.security == UnknownSecurity, SecurityUnknown)
    + When(StrongerEffect(b.requested) && b.security != Pass, SecurityEvidenceRequired)
    + When(ModeConflict(b.requested), ModeEffectConflict)
  }

  function DependencyRules(ds: seq<Dependency>): set<Reason> {
    When(exists d :: d in ds && Drifted(d.digest), DependencyUnapproved)
    + When(exists d :: d in ds && d.security != Pass, DependencyBlocked)
  }

  function RuntimeRules(b: Binding): set<Reason> {
    When(b.topology != b.observedTopology, TopologyDrift)
    + When(b.requested.upload && !b.egressEnabled, EgressDisabledUpload)
    + When(b.ext.state == Revoked, ExtensionRevoked)
    + When(b.kind == BrowserExtension && b.ext.state == UnknownEnablement, ExtensionEnablementUnknown)
    + When(b.kind == BrowserExtension && b.ext.state == Enabled && IncompleteExtension(b.ext), ExtensionIncomplete)
  }

  function AuthorityRules(b: Binding): set<Reason> {
    When(b.kind == GeneratedArtifact && (b.producer.None? || b.sourceReceipts == []), LineageIncomplete)
    + When(b.requested.promotion && !b.promotionAllowed, PromotionNotAuthorized)
    + When(b.requested.install && b.heldOut != HeldOutPass, HeldOutFailed)
    + When(b.requested.install && !b.installAuthorized, InstallNotAuthorized)
  }

  function InvalidationReason(e: InvalidationEvent): Reason {
    match e
    case PolicyChanged | ConsentChanged => PolicyInvalidation
    case ExtensionRevocation => ExtensionRevoked
    case _ => MaterialInvalidation
  }

  function InvalidationRules(es: seq<InvalidationEvent>): set<Reason> {
    set e | e in es :: InvalidationReason(e)
  }

  /** The rules that fire on a binding. */
  function Fired(b: Binding): set<Reason> {
    CatalogRules(b) + DriftRules(b) + PolicyRules(b) + SecurityRules(b) + DependencyRules(b.dependencies)
    + RuntimeRules(b) + AuthorityRules(b) + InvalidationRules(b.invalidations)
  }

  /** d is the greatest severity among rs, and Admit when there is none. */
  predicate IsMaximum(d: Decision, rs: set<Reason>) {
    (forall r | r in rs :: Rank(Severity(r)) <= Rank(d)) && (d == Admit || exists r :: r in rs && Severity(r) == d)
  }

  // ----- the evaluator -----

  datatype Verdict = Verdict(decision: Decision, reasons: seq<Reason>)

  function Raised(v: Verdict): set<Reason> {
    set r | r in v.reasons
  }

  ghost predicate Sound(v: Verdict) {
    (forall i, j | 0 <= i < j < |v.reasons| :: v.reasons[i] != v.reasons[j]) && IsMaximum(v.decision, Raised(v))
  }

  function Stronger(current: Decision, candidate: Decision): Decision {
    if Rank(candidate) > Rank(current) then candidate else current
  }

  function AddReason(reasons: seq<Reason>, r: Reason): seq<Reason> {
    if r in reasons then reasons else reasons + [r]
  }

  /** Strengthening the decision and adding the reason keeps the decision the maximum of the reasons. */
  function Raise(v: Verdict, d: Decision, r: Reason): (w: Verdict)
    ensures Raised(w) == Raised(v) + {r}
    ensures Sound(v) && d == Severity(r) ==> Sound(w)
  {
    var w := Verdict(Stronger(v.decision, d), AddReason(v.reasons, r));
    assert Raised(w) == Raised(v) + {r} by {
      assert r in w.reasons;
      assert forall x :: x in w.reasons <==> x in v.reasons || x == r;
    }
    assert Sound(v) && d == Severity(r) ==> IsMaximum(w.decision, Raised(w)) by {
      if Sound(v) && d == Severity(r) {
        MaximumAfter(v.decision, Raised(v), r);
      }
    }
    w
  }

  lemma MaximumAfter(d: Decision, rs: set<Reason>, r: Reason)
    requires IsMaximum(d, rs)
    ensures IsMaximum(Stronger(d, Severity(r)), rs + {r})
  {
  }

  method CheckCatalog(b: Binding, v: Verdict) returns (w: Verdict)
    requires Sound(v)
    ensures Sound(w) && Raised(w) == Raised(v) + CatalogRules(b)
  {
    hide Sound, Raised, Raise;
    w := v;
    match b.discovered {
      case NewPendingPolicy => w := Raise(w, PendingPolicy, NewToolPendingPolicy);
      case Removed => w := Raise(w, Block, RemovedToolBlocked);
      case UndiscoveredState => w := Raise(w, Unknown, CatalogStateUnknown);
      case Known =>
    }
    if b.freshness == StaleCatalog {
      w := Raise(w, Stale, CatalogStale);
    } else if b.freshness == UnknownFreshness {
      w := Raise(w, Unknown, CatalogFreshnessUnknown);
    }
  }

  method CheckDrift(b: Binding, v: Verdict) returns (w: Verdict)
    requires Sound(v)
    ensures Sound(w) && Raised(w) == Raised(v) + DriftRules(b)
  {
    hide Sound, Raised, Raise;
    w := v;
    if Drifted(b.content) {
      w := Raise(w, Stale, SameVersionDigestDrift);
    }
    if Drifted(b.manifest) {
      w := Raise(w, Stale, DependencyManifestDrift);
    }
    if Drifted(b.schema) || Drifted(b.description) {
      w := Raise(w, Stale, MaterialIdentityDrift);
      if b.requested.mode == Write {
        w := AlsoReason(w, WriteConsentInvalidated, MaterialIdentityDrift);
      }
    }
  }

  /** A reason added without strengthening the decision, which already is at least as strong. */
  function AlsoReason(v: Verdict, r: Reason, given: Reason): (w: Verdict)
    ensures Raised(w) == Raised(v) + {r} && w.decision == v.decision
    ensures Sound(v) && given in Raised(v) && Severity(given) == Severity(r) ==> Sound(w)
  {
    var w := Verdict(v.decision, AddReason(v.reasons, r));
    assert Raised(w) == Raised(v) + {r} by {
      assert r in w.reasons;
      assert forall x :: x in w.reasons <==> x in v.reasons || x == r;
    }
    assert Sound(v) && given in Raised(v) && Severity(given) == Severity(r) ==> IsMaximum(w.decision, Raised(w)) by {
      if Sound(v) && given in Raised(v) && Severity(given) == Severity(r) {
        MaximumAfter(v.decision, Raised(v), r);
      }
    }
    w
  }

  method CheckPolicy(b: Binding, v: Verdict) returns (w: Verdict)
    requires Sound(v)
    ensures Sound(w) && Raised(w) == Raised(v) + PolicyRules(b)
  {
    hide Sound, Raised, Raise;
    w := v;
    if b.policy == Deny {
      w := Raise(w, Block, PolicyDenied);
    } else if b.policy == UnknownPolicy {
      w := Raise(w, PendingPolicy, PolicyUnresolved);
    }
    if b.consent == RequiredPending || b.consent == UnknownConsent {
      w := Raise(w, PendingPolicy, ConsentUnresolved);
    } else if b.consent == Denied {
      w := Raise(w, Block, ConsentDenied);
    }
  }

  method CheckSecurity(b: Binding, v: Verdict) returns (w: Verdict)
    requires Sound(v)
    ensures Sound(w) && Raised(w) == Raised(v) + SecurityRules(b)
  {
    hide Sound, Raised, Raise, StrongerEffect;
    w := v;
    if b.security == BlockedBySecurity {
      w := Raise(w, Block, SecurityBlock);
    } else if b.security == UnknownSecurity {
      w := Raise(w, Unknown, SecurityUnknown);
    }
    if StrongerEffect(b.requested) && b.security != Pass {
      w := Raise(w, Block, SecurityEvidenceRequired);
    }
    if b.requested.mode == ReadOnly && b.requested.effect in {LocalDurableWrite, RemoteReversible, RemoteHighImpact} {
      w := Raise(w, Block, ModeEffectConflict);
    }
    if b.requested.mode == Write && b.requested.effect in {NoExternalEffect, ReadNetwork} {
      w := Raise(w, Block, ModeEffectConflict);
    }
  }

  method CheckDependencies(ds: seq<Dependency>, v: Verdict) returns (w: Verdict)
    requires Sound(v)
    ensures Sound(w) && Raised(w) == Raised(v) + DependencyRules(ds)
  {
    hide Sound, Raised, Raise;
    w := v;
    for i := 0 to |ds|
      invariant Sound(w) && Raised(w) == Raised(v) + DependencyRules(ds[..i])
    {
      assert ds[..i + 1] == ds[..i] + [ds[i]];
      if ds[i].digest.actual != ds[i].digest.expected {
        w := Raise(w, Block, DependencyUnapproved);
      }
      if ds[i].security != Pass {
        w := Raise(w, Block, DependencyBlocked);
      }
    }
    assert ds[..|ds|] == ds;
  }

  method CheckRuntime(b: Binding, v: Verdict) returns (w: Verdict)
    requires Sound(v)
    ensures Sound(w) && Raised(w) == Raised(v) + RuntimeRules(b)
  {
    hide Sound, Raised, Raise;
    w := v;
    if b.topology != b.observedTopology {
      w := Raise(w, Block, TopologyDrift);
    }
    if b.requested.upload && !b.egressEnabled {
      w := Raise(w, Block, EgressDisabledUpload);
    }
    if b.ext.state == Revoked {
      w := Raise(w, Block, ExtensionRevoked);
    } else if b.kind == BrowserExtension && b.ext.state == UnknownEnablement {
      w := Raise(w, Unknown, ExtensionEnablementUnknown);
    } else if b.kind == BrowserExtension && b.ext.state == Enabled {
      if IncompleteExtension(b.ext) {
        w := Raise(w, Block, ExtensionIncomplete);
      }
    }
  }

  method CheckAuthority(b: Binding, v: Verdict) returns (w: Verdict)
    requires Sound(v)
    ensures Sound(w) && Raised(w) == Raised(v) + AuthorityRules(b)
  {
    hide Sound, Raised, Raise;
    w := v;
    if b.kind == GeneratedArtifact {
      if b.producer.None? || b.sourceReceipts == [] {
        w := Raise(w, Block, LineageIncomplete);
      }
    }
    if b.requested.promotion && !b.promotionAllowed {
      w := Raise(w, Block, PromotionNotAuthorized);
    }
    if b.requested.install {
      if b.heldOut != HeldOutPass {
        w := Raise(w, Block, HeldOutFailed);
      }
      if !b.installAuthorized {
        w := Raise(w, Block, InstallNotAuthorized);
      }
    }
  }

  lemma NoInvalidations()
    ensures InvalidationRules([]) == {}
  {
  }

  lemma InvalidationAfter(es: seq<InvalidationEvent>, e: InvalidationEvent)
    ensures InvalidationRules(es + [e]) == InvalidationRules(es) + {InvalidationReason(e)}
  {
  }

  method CheckInvalidations(es: seq<InvalidationEvent>, v: Verdict) returns (w: Verdict)
    requires Sound(v)
    ensures Sound(w) && Raised(w) == Raised(v) + InvalidationRules(es)
  {
    hide Sound, Raised, Raise, InvalidationRules;
    NoInvalidations();
    assert es[..0] == [];
    w := v;
    for i := 0 to |es|
      invariant Sound(w) && Raised(w) == Raised(v) + InvalidationRules(es[..i])
    {
      assert es[..i + 1] == es[..i] + [es[i]];
      InvalidationAfter(es[..i], es[i]);
      match es[i] {
        case PolicyChanged | ConsentChanged => w := Raise(w, PendingPolicy, PolicyInvalidation);
        case ExtensionRevocation => w := Raise(w, Block, ExtensionRevoked);
        case _ => w := Raise(w, Stale, MaterialInvalidation);
      }
    }
    assert es[..|es|] == es;
  }

  // An admitted receipt carries no fired reason; the source then lists one marker that all bindings are resolved.
  datatype TrustReceipt = TrustReceipt(
    decision: Decision, admitted: bool, reasons: seq<Reason>,
    uploadAuthorized: bool, requestsAuthorized: nat, installAuthorized: bool)

  /**
   * The step-by-step evaluation is the rule table: each fired reason is given once and nothing else, and the
   * decision is their maximum. An admitted operation is authorized for just what it requested.
   */
  method EvaluateTrustBinding(b: Binding) returns (t: TrustReceipt)
    ensures IsMaximum(t.decision, Fired(b)) && (set r | r in t.reasons) == Fired(b)
    ensures forall i, j | 0 <= i < j < |t.reasons| :: t.reasons[i] != t.reasons[j]
    ensures t.admitted <==> t.decision == Admit
    ensures t.admitted <==> Fired(b) == {}
    ensures t.decision == Block <==> Blocks(b)
    ensures t.decision == Stale <==> !Blocks(b) && Ages(b)
    ensures t.decision == PendingPolicy <==> !Blocks(b) && !Ages(b) && Pends(b)
    ensures t.decision == Unknown <==> !Blocks(b) && !Ages(b) && !Pends(b) && Unclear(b)
    ensures t.uploadAuthorized <==> t.admitted && b.requested.upload
    ensures t.installAuthorized <==> t.admitted && b.requested.install
    ensures t.requestsAuthorized == if t.admitted then b.requested.authenticatedRequests else 0
  {
    hide CatalogRules, DriftRules, PolicyRules, SecurityRules, DependencyRules, RuntimeRules, AuthorityRules,
         InvalidationRules, Blocks, Ages, Pends, Unclear;
    var v := Verdict(Admit, []);
    v := CheckCatalog(b, v);
    v := CheckDrift(b, v);
    v := CheckPolicy(b, v);
    v := CheckSecurity(b, v);
    v := CheckDependencies(b.dependencies, v);
    v := CheckRuntime(b, v);
    v := CheckAuthority(b, v);
    v := CheckInvalidations(b.invalidations, v);
    assert Raised(v) == Fired(b);
    AdmitMeansSilent(v.decision, Fired(b));
    AdmissionImplies(b);
    DecisionMeans(b, v.decision);
    var admitted := v.decision == Admit;
    var requests := if admitted then b.requested.authenticatedRequests else 0;
    if b.ext.state == Revoked {
      requests := 0;
    }
    return TrustReceipt(v.decision, admitted, v.reasons, admitted && b.requested.upload && b.egressEnabled, requests,
                        admitted && b.requested.install && b.heldOut == HeldOutPass && b.installAuthorized);
  }

  lemma AdmitMeansSilent(d: Decision, rs: set<Reason>)
    requires IsMaximum(d, rs)
    ensures d == Admit <==> rs == {}
  {
  }

  // ----- the table reason by reason, and the decisions without it -----

  predicate OnlyReads(o: Operation) {
    o.mode == ReadOnly && !o.upload && !o.promotion && !o.install && o.authenticatedRequests == 0
  }

  /** Writing without a write effect, or reading with one. */
  predicate Contradicts(o: Operation) {
    o.mode == Write <==> o.effect == NoExternalEffect || o.effect == ReadNetwork
  }

  /** When a reason applies to a binding. */
  ghost predicate Applies(b: Binding, r: Reason) {
    match r
    case NewToolPendingPolicy => b.discovered == NewPendingPolicy
    case RemovedToolBlocked => b.discovered == Removed
    case CatalogStateUnknown => b.discovered == UndiscoveredState
    case CatalogStale => b.freshness == StaleCatalog
    case CatalogFreshnessUnknown => b.freshness == UnknownFreshness
    case SameVersionDigestDrift => b.content.actual != b.content.expected
    case DependencyManifestDrift => b.manifest.actual != b.manifest.expected
    case MaterialIdentityDrift =>
      b.schema.actual != b.schema.expected || b.description.actual != b.description.expected
    case WriteConsentInvalidated =>
      (b.schema.actual != b.schema.expected || b.description.actual != b.description.expected)
      && b.requested.mode == Write
    case PolicyDenied => b.policy == Deny
    case PolicyUnresolved => b.policy == UnknownPolicy
    case ConsentUnresolved => b.consent == RequiredPending || b.consent == UnknownConsent
    case ConsentDenied => b.consent == Denied
    case SecurityBlock => b.security == BlockedBySecurity
    case SecurityUnknown => b.security == UnknownSecurity
    case SecurityEvidenceRequired => !OnlyReads(b.requested) && b.security != Pass
    case ModeEffectConflict => Contradicts(b.requested)
    case DependencyUnapproved => exists d :: d in b.dependencies && d.digest.actual != d.digest.expected
    case DependencyBlocked => exists d :: d in b.dependencies && d.security != Pass
    case TopologyDrift => b.topology != b.observedTopology
    case EgressDisabledUpload => b.requested.upload && !b.egressEnabled
    case ExtensionRevoked => b.ext.state == Revoked || ExtensionRevocation in b.invalidations
    case ExtensionEnablementUnknown => b.kind == BrowserExtension && b.ext.state == UnknownEnablement
    case ExtensionIncomplete =>
      b.kind == BrowserExtension && b.ext.state == Enabled
      && (b.ext.id.None? || b.ext.revision.None? || b.ext.manifest.None? || b.ext.backend.None?)
    case LineageIncomplete => b.kind == GeneratedArtifact && (b.producer.None? || b.sourceReceipts == [])
    case PromotionNotAuthorized => b.requested.promotion && !b.promotionAllowed
    case HeldOutFailed => b.requested.install && b.heldOut != HeldOutPass
    case InstallNotAuthorized => b.requested.install && !b.installAuthorized
    case MaterialInvalidation => exists e :: e in b.invalidations && Material(e)
    case PolicyInvalidation => PolicyChanged in b.invalidations || ConsentChanged in b.invalidations
  }

  predicate Material(e: InvalidationEvent) {
    e != PolicyChanged && e != ConsentChanged && e != ExtensionRevocation
  }

  lemma CatalogMeans(b: Binding, r: Reason)
    ensures r in CatalogRules(b) <==>
            && Applies(b, r)
            && ( r.NewToolPendingPolicy? || r.RemovedToolBlocked? || r.CatalogStateUnknown? || r.CatalogStale?
                || r.CatalogFreshnessUnknown?)
  {
  }

  lemma DriftMeans(b: Binding, r: Reason)
    ensures r in DriftRules(b) <==>
            && Applies(b, r)
            && ( r.SameVersionDigestDrift? || r.DependencyManifestDrift? || r.MaterialIdentityDrift?
                || r.WriteConsentInvalidated?)
  {
  }

  lemma PolicyMeans(b: Binding, r: Reason)
    ensures r in PolicyRules(b) <==>
            && Applies(b, r)
            && ( r.PolicyDenied? || r.PolicyUnresolved? || r.ConsentUnresolved? || r.ConsentDenied?)
  {
  }

  lemma SecurityMeans(b: Binding, r: Reason)
    ensures r in SecurityRules(b) <==>
            && Applies(b, r)
            && ( r.SecurityBlock? || r.SecurityUnknown? || r.SecurityEvidenceRequired? || r.ModeEffectConflict?)
  {
  }

  lemma DependencyMeans(b: Binding, r: Reason)
    ensures r in DependencyRules(b.dependencies) <==>
            && Applies(b, r)
            && ( r.DependencyUnapproved? || r.DependencyBlocked?)
  {
  }

  lemma AuthorityMeans(b: Binding, r: Reason)
    ensures r in AuthorityRules(b) <==>
            && Applies(b, r)
            && ( r.LineageIncomplete? || r.PromotionNotAuthorized? || r.HeldOutFailed? || r.InstallNotAuthorized?)
  {
  }

  lemma RuntimeMeans(b: Binding, r: Reason)
    ensures r in RuntimeRules(b) <==>
            && Applies(b, r)
            && (r.TopologyDrift? || r.EgressDisabledUpload? || (r.ExtensionRevoked? && b.ext.state == Revoked)
                || r.ExtensionEnablementUnknown? || r.ExtensionIncomplete?)
  {
  }

  /** The table, reason by reason. */
  lemma FiredMeans(b: Binding, r: Reason)
    ensures r in Fired(b) <==> Applies(b, r)
  {
    CatalogMeans(b, r);
    DriftMeans(b, r);
    PolicyMeans(b, r);
    SecurityMeans(b, r);
    DependencyMeans(b, r);
    RuntimeMeans(b, r);
    AuthorityMeans(b, r);
    InvalidationMeans(b.invalidations, r);
    hide CatalogRules, DriftRules, PolicyRules, SecurityRules, DependencyRules, RuntimeRules, AuthorityRules,
         InvalidationRules, Applies;
    InvalidationApplies(b, r);
  }

  lemma InvalidationApplies(b: Binding, r: Reason)
    ensures var es := b.invalidations;
            && (r.ExtensionRevoked? ==>
                  (Applies(b, r) <==> b.ext.state == Revoked || ExtensionRevocation in es))
            && (r.PolicyInvalidation? ==> (Applies(b, r) <==> PolicyChanged in es || ConsentChanged in es))
            && (r.MaterialInvalidation? ==> (Applies(b, r) <==> exists e :: e in es && Material(e)))
  {
  }

  lemma InvalidationMeans(es: seq<InvalidationEvent>, r: Reason)
    ensures r in InvalidationRules(es) <==>
            || (r == ExtensionRevoked && ExtensionRevocation in es)
            || (r == PolicyInvalidation && (PolicyChanged in es || ConsentChanged in es))
            || (r == MaterialInvalidation && exists e :: e in es && Material(e))
  {
    assert PolicyChanged in es ==> InvalidationReason(PolicyChanged) in InvalidationRules(es);
    assert ConsentChanged in es ==> InvalidationReason(ConsentChanged) in InvalidationRules(es);
    assert ExtensionRevocation in es ==> InvalidationReason(ExtensionRevocation) in InvalidationRules(es);
    if e :| e in es && Material(e) {
      assert InvalidationReason(e) in InvalidationRules(es);
    }
  }

  /** What rules a binding out for good, whatever else is in order. */
  ghost predicate Blocks(b: Binding) {
    || b.discovered == Removed || b.policy == Deny || b.consent == Denied || b.security == BlockedBySecurity
    || (!OnlyReads(b.requested) && b.security != Pass) || Contradicts(b.requested)
    || (exists d :: d in b.dependencies && (d.digest.actual != d.digest.expected || d.security != Pass))
    || b.topology != b.observedTopology || (b.requested.upload && !b.egressEnabled)
    || b.ext.state == Revoked || ExtensionRevocation in b.invalidations
    || (b.kind == BrowserExtension && b.ext.state == Enabled
        && (b.ext.id.None? || b.ext.revision.None? || b.ext.manifest.None? || b.ext.backend.None?))
    || (b.kind == GeneratedArtifact && (b.producer.None? || b.sourceReceipts == []))
    || (b.requested.promotion && !b.promotionAllowed)
    || (b.requested.install && (b.heldOut != HeldOutPass || !b.installAuthorized))
  }

  /** Something about the asset is no longer what was examined. */
  ghost predicate Ages(b: Binding) {
    || b.freshness == StaleCatalog || b.content.actual != b.content.expected
    || b.manifest.actual != b.manifest.expected || b.schema.actual != b.schema.expected
    || b.description.actual != b.description.expected || exists e :: e in b.invalidations && Material(e)
  }

  /** Policy or consent still has to decide. */
  ghost predicate Pends(b: Binding) {
    || b.discovered == NewPendingPolicy || b.policy == UnknownPolicy || b.consent == RequiredPending
    || b.consent == UnknownConsent || PolicyChanged in b.invalidations || ConsentChanged in b.invalidations
  }

  ghost predicate Unclear(b: Binding) {
    || b.discovered == UndiscoveredState || b.freshness == UnknownFreshness || b.security == UnknownSecurity
    || (b.kind == BrowserExtension && b.ext.state == UnknownEnablement)
  }

  /** Each decision exactly when it is the first of these to hold; admitted when none does. */
  lemma DecisionMeans(b: Binding, d: Decision)
    requires IsMaximum(d, Fired(b))
    ensures d == Block <==> Blocks(b)
    ensures d == Stale <==> !Blocks(b) && Ages(b)
    ensures d == PendingPolicy <==> !Blocks(b) && !Ages(b) && Pends(b)
    ensures d == Unknown <==> !Blocks(b) && !Ages(b) && !Pends(b) && Unclear(b)
    ensures d == Admit <==> !Blocks(b) && !Ages(b) && !Pends(b) && !Unclear(b)
  {
    hide Fired, Applies;
    forall r ensures r in Fired(b) <==> Applies(b, r) {
      FiredMeans(b, r);
    }
    BlockApplies(b);
    AgeApplies(b);
    PendApplies(b);
    UnclearApplies(b);
  }

  lemma BlockApplies(b: Binding)
    ensures Blocks(b) <==> exists r :: Applies(b, r) && Severity(r) == Block
  {
    if Blocks(b) {
      var r := BlockingReason(b);
    }
    forall r | Applies(b, r) && Severity(r) == Block ensures Blocks(b) {
      match r
      case DependencyUnapproved =>
      case DependencyBlocked =>
      case _ =>
    }
  }

  lemma BlockingReason(b: Binding) returns (r: Reason)
    requires Blocks(b)
    ensures Applies(b, r) && Severity(r) == Block
  {
    r := if b.discovered == Removed then RemovedToolBlocked
         else if b.policy == Deny then PolicyDenied
         else if b.consent == Denied then ConsentDenied
         else if b.security == BlockedBySecurity then SecurityBlock
         else if !OnlyReads(b.requested) && b.security != Pass then SecurityEvidenceRequired
         else if Contradicts(b.requested) then ModeEffectConflict
         else if exists d :: d in b.dependencies && d.digest.actual != d.digest.expected then DependencyUnapproved
         else if exists d :: d in b.dependencies && d.security != Pass then DependencyBlocked
         else if b.topology != b.observedTopology then TopologyDrift
         else if b.requested.upload && !b.egressEnabled then EgressDisabledUpload
         else if b.ext.state == Revoked || ExtensionRevocation in b.invalidations then ExtensionRevoked
         else if b.kind == BrowserExtension && b.ext.state == Enabled && IncompleteExtension(b.ext)
         then ExtensionIncomplete
         else if b.kind == GeneratedArtifact && (b.producer.None? || b.sourceReceipts == []) then LineageIncomplete
         else if b.requested.promotion && !b.promotionAllowed then PromotionNotAuthorized
         else if b.heldOut != HeldOutPass && b.requested.install then HeldOutFailed
         else InstallNotAuthorized;
  }

  lemma AgeApplies(b: Binding)
    ensures Ages(b) <==> exists r :: Applies(b, r) && Severity(r) == Stale
  {
    var rs := {CatalogStale, SameVersionDigestDrift, DependencyManifestDrift, MaterialIdentityDrift,
               MaterialInvalidation};
    assert Ages(b) ==> exists r :: r in rs && Applies(b, r);
  }

  lemma PendApplies(b: Binding)
    ensures Pends(b) <==> exists r :: Applies(b, r) && Severity(r) == PendingPolicy
  {
    var rs := {NewToolPendingPolicy, PolicyUnresolved, ConsentUnresolved, PolicyInvalidation};
    assert Pends(b) ==> exists r :: r in rs && Applies(b, r);
  }

  lemma UnclearApplies(b: Binding)
    ensures Unclear(b) <==> exists r :: Applies(b, r) && Severity(r) == Unknown
  {
    var rs := {CatalogStateUnknown, CatalogFreshnessUnknown, SecurityUnknown, ExtensionEnablementUnknown};
    assert Unclear(b) ==> exists r :: r in rs && Applies(b, r);
  }

  /** An admitted operation was in order in every respect, what was requested included. */
  lemma AdmissionImplies(b: Binding)
    ensures Fired(b) == {} <==>
              && b.discovered == Known && b.freshness == Fresh && b.policy == Allow
              && (b.consent == NotRequired || b.consent == GrantedBound)
              && (b.security == Pass || (b.security == NotApplicable && OnlyReads(b.requested)))
              && !Contradicts(b.requested)
              && b.content.actual == b.content.expected && b.manifest.actual == b.manifest.expected
              && b.schema.actual == b.schema.expected && b.description.actual == b.description.expected
              && (forall d | d in b.dependencies :: d.digest.actual == d.digest.expected && d.security == Pass)
              && b.topology == b.observedTopology && (b.requested.upload ==> b.egressEnabled)
              && b.ext.state != Revoked
              && (b.kind == BrowserExtension ==>
                    b.ext.state == Disabled
                    || (b.ext.state == Enabled && b.ext.id.Some? && b.ext.revision.Some? && b.ext.manifest.Some?
                        && b.ext.backend.Some?))
              && (b.kind == GeneratedArtifact ==> b.producer.Some? && b.sourceReceipts != [])
              && (b.requested.promotion ==> b.promotionAllowed)
              && (b.requested.install ==> b.heldOut == HeldOutPass && b.installAuthorized)
              && b.invalidations == []
  {
    hide Fired;
    if Fired(b) == {} {
      DecisionMeans(b, Admit);
      NoneInvalidated(b);
    } else {
      var r :| r in Fired(b);
      FiredMeans(b, r);
    }
  }

  lemma NoneInvalidated(b: Binding)
    requires !Blocks(b) && !Ages(b) && !Pends(b)
    ensures b.invalidations == []
  {
    assert b.invalidations != [] ==> b.invalidations[0] in b.invalidations;
    forall e ensures e !in b.invalidations {
      assert Material(e) || e == PolicyChanged || e == ConsentChanged || e == ExtensionRevocation;
    }
  }

  // ----- laws of the decision -----

  lemma MaximumIsMonotone(d: Decision, rs: set<Reason>, e: Decision, qs: set<Reason>)
    requires IsMaximum(d, rs) && IsMaximum(e, qs) && rs <= qs
    ensures Rank(d) <= Rank(e)
  {
  }

  /** At most one decision is the maximum, so the decision is a function of what fires. */
  lemma OneMaximum(d: Decision, e: Decision, rs: set<Reason>)
    requires IsMaximum(d, rs) && IsMaximum(e, rs)
    ensures d == e
  {
  }

  lemma MoreFires(b: Binding, c: Binding)
    requires c == b.(dependencies := c.dependencies, invalidations := c.invalidations)
    requires forall d | d in b.dependencies :: d in c.dependencies
    requires forall e | e in b.invalidations :: e in c.invalidations
    ensures Fired(b) <= Fired(c)
  {
    hide CatalogRules, DriftRules, PolicyRules, SecurityRules, DependencyRules, RuntimeRules, AuthorityRules,
         InvalidationRules;
    MoreDependencies(b.dependencies, c.dependencies);
    MoreInvalidations(b.invalidations, c.invalidations);
    SameElsewhere(b, c);
  }

  lemma MoreDependencies(ds: seq<Dependency>, es: seq<Dependency>)
    requires forall d | d in ds :: d in es
    ensures DependencyRules(ds) <= DependencyRules(es)
  {
  }

  lemma MoreInvalidations(ds: seq<InvalidationEvent>, es: seq<InvalidationEvent>)
    requires forall d | d in ds :: d in es
    ensures InvalidationRules(ds) <= InvalidationRules(es)
  {
  }

  lemma SameElsewhere(b: Binding, c: Binding)
    requires c == b.(dependencies := c.dependencies, invalidations := c.invalidations)
    ensures CatalogRules(b) == CatalogRules(c) && DriftRules(b) == DriftRules(c) && PolicyRules(b) == PolicyRules(c)
    ensures SecurityRules(b) == SecurityRules(c) && RuntimeRules(b) == RuntimeRules(c)
    ensures AuthorityRules(b) == AuthorityRules(c)
  {
  }

  /** More dependencies or invalidation events never lower the decision. */
  lemma AddingNeverLowers(b: Binding, c: Binding, d: Decision, e: Decision)
    requires c == b.(dependencies := c.dependencies, invalidations := c.invalidations)
    requires forall x | x in b.dependencies :: x in c.dependencies
    requires forall x | x in b.invalidations :: x in c.invalidations
    requires IsMaximum(d, Fired(b)) && IsMaximum(e, Fired(c))
    ensures Rank(d) <= Rank(e)
  {
    MoreFires(b, c);
    MaximumIsMonotone(d, Fired(b), e, Fired(c));
  }

  /** The order of dependencies and invalidation events does not matter. */
  lemma OrderDoesNotMatter(b: Binding, c: Binding, d: Decision, e: Decision)
    requires c == b.(dependencies := c.dependencies, invalidations := c.invalidations)
    requires multiset(b.dependencies) == multiset(c.dependencies)
    requires multiset(b.invalidations) == multiset(c.invalidations)
    requires IsMaximum(d, Fired(b)) && IsMaximum(e, Fired(c))
    ensures d == e && Fired(b) == Fired(c)
  {
    assert forall x :: x in b.dependencies <==> x in multiset(b.dependencies);
    assert forall x :: x in c.dependencies <==> x in multiset(c.dependencies);
    assert forall x :: x in b.invalidations <==> x in multiset(b.invalidations);
    assert forall x :: x in c.invalidations <==> x in multiset(c.invalidations);
    MoreFires(b, c);
    MoreFires(c, b);
    OneMaximum(d, e, Fired(b));
  }
}
