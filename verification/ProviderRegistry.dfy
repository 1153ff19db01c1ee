/**
  The provider registry of `src/ficelle/provider_intake.py`: one record per provider that syncs only add to.

  Files are abstract: what a sync prints is what the next one parses.  Syncs come one after another.
 */
module ProviderRegistry {
  import opened Sorting
  import opened Text
  import opened Wrappers

  datatype Evidence = Evidence(sourceClass: string, url: string, observedAt: string, claim: string)

  datatype Status = NewSignal | OfficialDocsFound | NeedsAccountCheck | SheetReadyCandidate | DoNotUse | Closed

  /** `rest` stands for the fields that nothing here looks at: the name, the next action and the like. */
  datatype Record = Record(
    providerId: string, status: Status,
    aliases: seq<string>, sourceUrls: seq<string>, officialUrls: seq<string>, modelIds: seq<string>,
    blockers: seq<string>, evidence: seq<Evidence>,
    claimedBaseUrl: string, endpointShape: string, canonicalChatPath: string, servedModelIdentity: string,
    freeMechanism: string, billingCap: string, accountKey: string, commercialUse: string, toolCall: string,
    contextStatus: string, adapterFit: string, authEnv: string, catalogPath: string,
    rest: map<string, string>)

  // ---------------------------------------------------------------------------------------------
  // canonical_record_dict
  // ---------------------------------------------------------------------------------------------

  /** By `_evidence_key`: day, class, url, claim. */
  predicate EvidenceLeq(a: Evidence, b: Evidence) {
    if a.observedAt != b.observedAt then StringLeq(a.observedAt, b.observedAt)
    else if a.sourceClass != b.sourceClass then StringLeq(a.sourceClass, b.sourceClass)
    else if a.url != b.url then StringLeq(a.url, b.url)
    else StringLeq(a.claim, b.claim)
  }

  lemma {:induction false} EvidenceOrder()
    ensures TotalOrder(EvidenceLeq)
  {
    StringOrder();
    forall a, b ensures EvidenceLeq(a, b) || EvidenceLeq(b, a) {
    }
    forall a, b | EvidenceLeq(a, b) && EvidenceLeq(b, a) ensures a == b {
    }
    forall a, b, c | EvidenceLeq(a, b) && EvidenceLeq(b, c) ensures EvidenceLeq(a, c) {
      EvidenceLeqIsTransitive(a, b, c);
    }
  }

  lemma {:induction false} EvidenceLeqIsTransitive(a: Evidence, b: Evidence, c: Evidence)
    requires TotalOrder(StringLeq) && EvidenceLeq(a, b) && EvidenceLeq(b, c)
    ensures EvidenceLeq(a, c)
  {
    assert StringLeq(a.observedAt, b.observedAt) && StringLeq(b.observedAt, c.observedAt);
    if a.observedAt == b.observedAt == c.observedAt {
      assert StringLeq(a.sourceClass, b.sourceClass) && StringLeq(b.sourceClass, c.sourceClass);
      if a.sourceClass == b.sourceClass == c.sourceClass {
        assert StringLeq(a.url, b.url) && StringLeq(b.url, c.url);
      }
    }
  }

  function Canonical(r: Record): Record {
    r.(aliases := Sort(StringLeq, r.aliases), sourceUrls := Sort(StringLeq, r.sourceUrls),
       officialUrls := Sort(StringLeq, r.officialUrls), modelIds := Sort(StringLeq, r.modelIds),
       blockers := Sort(StringLeq, r.blockers), evidence := Sort(EvidenceLeq, r.evidence))
  }

  /** The same record with its lists in another order. */
  ghost predicate SameButOrder(a: Record, b: Record) {
    && multiset(a.aliases) == multiset(b.aliases) && multiset(a.sourceUrls) == multiset(b.sourceUrls)
    && multiset(a.officialUrls) == multiset(b.officialUrls) && multiset(a.modelIds) == multiset(b.modelIds)
    && multiset(a.blockers) == multiset(b.blockers) && multiset(a.evidence) == multiset(b.evidence)
    && a == b.(aliases := a.aliases, sourceUrls := a.sourceUrls, officialUrls := a.officialUrls,
               modelIds := a.modelIds, blockers := a.blockers, evidence := a.evidence)
  }

  lemma {:induction false} CanonicalIgnoresOrder(a: Record, b: Record)
    requires SameButOrder(a, b)
    ensures Canonical(a) == Canonical(b)
  {
    StringOrder();
    EvidenceOrder();
    SortIgnoresOrder(StringLeq, a.aliases, b.aliases);
    SortIgnoresOrder(StringLeq, a.sourceUrls, b.sourceUrls);
    SortIgnoresOrder(StringLeq, a.officialUrls, b.officialUrls);
    SortIgnoresOrder(StringLeq, a.modelIds, b.modelIds);
    SortIgnoresOrder(StringLeq, a.blockers, b.blockers);
    SortIgnoresOrder(EvidenceLeq, a.evidence, b.evidence);
  }

  lemma {:induction false} CanonicalIsReordered(r: Record)
    ensures SameButOrder(Canonical(r), r)
  {
    SortCounts(StringLeq, r.aliases);
    SortCounts(StringLeq, r.sourceUrls);
    SortCounts(StringLeq, r.officialUrls);
    SortCounts(StringLeq, r.modelIds);
    SortCounts(StringLeq, r.blockers);
    SortCounts(EvidenceLeq, r.evidence);
  }

  /** Two records have the same canonical form exactly when they differ in the order of lists at most. */
  lemma {:induction false} CanonicalExactly(a: Record, b: Record)
    ensures Canonical(a) == Canonical(b) <==> SameButOrder(a, b)
    ensures Canonical(Canonical(a)) == Canonical(a)
  {
    CanonicalIsReordered(a);
    CanonicalIsReordered(b);
    CanonicalIgnoresOrder(Canonical(a), a);
    if SameButOrder(a, b) {
      CanonicalIgnoresOrder(a, b);
    }
  }

  // ---------------------------------------------------------------------------------------------
  // evaluate_automation_readiness
  // ---------------------------------------------------------------------------------------------

  datatype Decision = Decision(action: string, sheetReady: bool, scaffoldReady: bool, blockers: seq<string>)

  predicate IsTerminal(s: Status) {
    s == DoNotUse || s == Closed
  }

  predicate IsOfficial(e: Evidence) {
    e.sourceClass in {"official_docs", "runtime_probe"}
  }

  function When(condition: bool, blocker: string): seq<string> {
    if condition then [blocker] else []
  }

  predicate AuthContradicts(r: Record) {
    (r.accountKey == "not_required" && r.authEnv != "none") || (r.accountKey == "no_card" && r.authEnv == "none")
  }

  predicate HasOfficialEvidence(r: Record) {
    exists i :: 0 <= i < |r.evidence| && IsOfficial(r.evidence[i])
  }

  predicate FreeOfCost(r: Record) {
    r.freeMechanism in {"strict_zero_catalog", "recurring_free_quota", "free_model"}
  }

  predicate KnownEndpoint(r: Record) {
    r.endpointShape in {"openai_v1", "openai_compatible_nonstandard_path"}
  }

  predicate KeyWithoutCard(r: Record) {
    r.accountKey in {"not_required", "no_card"}
  }

  predicate KnownModels(r: Record) {
    r.servedModelIdentity in {"exact", "documented_alias"}
  }

  predicate LacksAllowlist(r: Record) {
    r.adapterFit == "generic_config_with_allowlist" && r.modelIds == []
  }

  function SourceBlockers(r: Record): seq<string> {
    When(r.officialUrls == [], "official_urls")
    + When(!HasOfficialEvidence(r), "evidence")
    + When(r.claimedBaseUrl == "", "claimed_base_url")
    + When(!KnownEndpoint(r), "endpoint_shape")
    + When(!FreeOfCost(r), "free_mechanism")
  }

  function PostureBlockers(r: Record): seq<string> {
    When(!KeyWithoutCard(r), "account_key_posture")
    + When(AuthContradicts(r), "auth_env")
    + When(r.billingCap != "fails_closed", "billing_cap_behavior")
    + When(r.commercialUse != "allowed", "commercial_use_posture")
  }

  function CapabilityBlockers(r: Record): seq<string> {
    When(!KnownModels(r), "served_model_identity_status")
    + When(r.toolCall != "verified", "tool_call_status")
    + When(r.contextStatus != "verified_128k_plus", "context_status")
    + When(LacksAllowlist(r), "model_ids")
  }

  function QualificationBlockers(r: Record): seq<string> {
    r.blockers + SourceBlockers(r) + PostureBlockers(r) + CapabilityBlockers(r)
  }

  function RuntimeBlockers(r: Record): seq<string> {
    When(r.canonicalChatPath != "/chat/completions", "runtime:nonstandard_chat_path")
    + When(r.catalogPath != "/models", "runtime:nonstandard_catalog_path")
  }

  const MANUAL_ADAPTERS: set<string> := {"provider_specific_runtime", "generic_plus_normalizer"}
  const GENERIC_ADAPTERS: set<string> :=
    {"generic_config_only", "generic_config_with_allowlist", "generic_config_with_catalog_pricing"}

  function StatusText(s: Status): string {
    match s
    case NewSignal => "new_signal"
    case OfficialDocsFound => "official_docs_found"
    case NeedsAccountCheck => "needs_account_check"
    case SheetReadyCandidate => "sheet_ready_candidate"
    case DoNotUse => "do_not_use"
    case Closed => "closed"
  }

  function Readiness(r: Record): Decision {
    if IsTerminal(r.status) then Decision(if r.status == Closed then "closed" else "rejected", false, false, [])
    else if r.status != SheetReadyCandidate then Decision("blocked", false, false, ["status:" + StatusText(r.status)])
    else if QualificationBlockers(r) != [] then Decision("blocked", false, false, Unique(QualificationBlockers(r)))
    else if RuntimeBlockers(r) != [] then Decision("manual_code_required", true, false, RuntimeBlockers(r))
    else if r.adapterFit in MANUAL_ADAPTERS then
      Decision("manual_code_required", true, false, ["adapter_fit:" + r.adapterFit])
    else if r.adapterFit == "not_integrable" then Decision("rejected", false, false, ["adapter_fit:not_integrable"])
    else if r.adapterFit !in GENERIC_ADAPTERS then Decision("blocked", false, false, ["adapter_fit:" + r.adapterFit])
    else Decision("scaffold_ready", true, true, [])
  }

  /** `evaluate_automation_readiness`: the decision, and a sheet exactly for a record that is qualified. */
  method EvaluateAutomationReadiness(r: Record) returns (d: Decision)
    ensures d == Readiness(r)
    ensures d.sheetReady <==> Qualified(r)
  {
    SheetReadyExactly(r);
    if IsTerminal(r.status) {
      return Decision(if r.status == Closed then "closed" else "rejected", false, false, []);
    }
    if r.status != SheetReadyCandidate {
      return Decision("blocked", false, false, ["status:" + StatusText(r.status)]);
    }
    var blockers := CollectBlockers(r);
    if blockers != [] {
      return Decision("blocked", false, false, Unique(blockers));
    }
    var runtime := RuntimeBlockers(r);
    if runtime != [] {
      return Decision("manual_code_required", true, false, runtime);
    }
    if r.adapterFit in MANUAL_ADAPTERS {
      return Decision("manual_code_required", true, false, ["adapter_fit:" + r.adapterFit]);
    }
    if r.adapterFit == "not_integrable" {
      return Decision("rejected", false, false, ["adapter_fit:not_integrable"]);
    }
    if r.adapterFit !in GENERIC_ADAPTERS {
      return Decision("blocked", false, false, ["adapter_fit:" + r.adapterFit]);
    }
    return Decision("scaffold_ready", true, true, []);
  }

  /** The blockers one by one, in the order of the source. */
  method CollectBlockers(r: Record) returns (blockers: seq<string>)
    ensures blockers == QualificationBlockers(r)
  {
    var official := FindOfficialEvidence(r.evidence);
    var sources := When(r.officialUrls == [], "official_urls");
    sources := sources + When(!official, "evidence");
    sources := sources + When(r.claimedBaseUrl == "", "claimed_base_url");
    sources := sources + When(!KnownEndpoint(r), "endpoint_shape");
    sources := sources + When(!FreeOfCost(r), "free_mechanism");
    blockers := r.blockers + sources;
    blockers := blockers + PostureBlockers(r);
    blockers := blockers + CapabilityBlockers(r);
  }

  method FindOfficialEvidence(evidence: seq<Evidence>) returns (official: bool)
    ensures official <==> exists i :: 0 <= i < |evidence| && IsOfficial(evidence[i])
  {
    official := false;
    var i := 0;
    while i < |evidence|
      invariant 0 <= i <= |evidence|
      invariant official <==> exists k :: 0 <= k < i && IsOfficial(evidence[k])
    {
      if IsOfficial(evidence[i]) {
        official := true;
      }
      i := i + 1;
    }
  }

  /** Evidence that is more than a claim of others. */
  predicate Vouches(e: Evidence) {
    e.sourceClass == "official_docs" || e.sourceClass == "runtime_probe"
  }

  /** What a record must be for a provider sheet to be written from it. */
  predicate Qualified(r: Record) {
    && r.status == SheetReadyCandidate
    && r.blockers == [] && r.officialUrls != [] && r.claimedBaseUrl != ""
    && (exists i :: 0 <= i < |r.evidence| && Vouches(r.evidence[i]))
    && r.endpointShape in {"openai_v1", "openai_compatible_nonstandard_path"}
    && r.freeMechanism in {"strict_zero_catalog", "recurring_free_quota", "free_model"}
    && r.accountKey in {"not_required", "no_card"}
    && (r.accountKey == "not_required" <==> r.authEnv == "none")
    && r.billingCap == "fails_closed" && r.commercialUse == "allowed"
    && r.servedModelIdentity in {"exact", "documented_alias"}
    && r.toolCall == "verified" && r.contextStatus == "verified_128k_plus"
    && (r.adapterFit == "generic_config_with_allowlist" ==> r.modelIds != [])
    && (|| r.canonicalChatPath != "/chat/completions" || r.catalogPath != "/models"
        || r.adapterFit == "provider_specific_runtime" || r.adapterFit == "generic_plus_normalizer"
        || r.adapterFit == "generic_config_only" || r.adapterFit == "generic_config_with_allowlist"
        || r.adapterFit == "generic_config_with_catalog_pricing")
  }

  /** Nothing blocks exactly when each condition is met. */
  lemma {:induction false} NoBlockersExactly(r: Record)
    ensures QualificationBlockers(r) == [] <==>
            && r.blockers == [] && r.officialUrls != [] && HasOfficialEvidence(r) && r.claimedBaseUrl != ""
            && KnownEndpoint(r) && FreeOfCost(r) && KeyWithoutCard(r) && !AuthContradicts(r)
            && r.billingCap == "fails_closed" && r.commercialUse == "allowed"
            && KnownModels(r) && r.toolCall == "verified" && r.contextStatus == "verified_128k_plus"
            && !LacksAllowlist(r)
  {
  }

  /** A record is ready for a sheet exactly when it is qualified. */
  lemma {:induction false} SheetReadyExactly(r: Record)
    ensures Readiness(r).sheetReady <==> Qualified(r)
  {
    NoBlockersExactly(r);
    assert forall i :: 0 <= i < |r.evidence| ==> (IsOfficial(r.evidence[i]) <==> Vouches(r.evidence[i]));
    assert "not_required"[2] == 't' && "no_card"[2] == '_';
  }

  /** The check of this name fails. */
  predicate FailsSourceCheck(r: Record, name: string) {
    || (name == "official_urls" && r.officialUrls == [])
    || (name == "evidence" && !HasOfficialEvidence(r))
    || (name == "claimed_base_url" && r.claimedBaseUrl == "")
    || (name == "endpoint_shape" && !KnownEndpoint(r))
    || (name == "free_mechanism" && !FreeOfCost(r))
  }

  predicate FailsPostureCheck(r: Record, name: string) {
    || (name == "account_key_posture" && !KeyWithoutCard(r))
    || (name == "auth_env" && AuthContradicts(r))
    || (name == "billing_cap_behavior" && r.billingCap != "fails_closed")
    || (name == "commercial_use_posture" && r.commercialUse != "allowed")
  }

  predicate FailsCapabilityCheck(r: Record, name: string) {
    || (name == "served_model_identity_status" && !KnownModels(r))
    || (name == "tool_call_status" && r.toolCall != "verified")
    || (name == "context_status" && r.contextStatus != "verified_128k_plus")
    || (name == "model_ids" && LacksAllowlist(r))
  }

  predicate FailsCheck(r: Record, name: string) {
    FailsSourceCheck(r, name) || FailsPostureCheck(r, name) || FailsCapabilityCheck(r, name)
  }

  lemma {:induction false} SourceChecks(r: Record, name: string)
    ensures name in SourceBlockers(r) <==> FailsSourceCheck(r, name)
  {
  }

  lemma {:induction false} PostureChecks(r: Record, name: string)
    ensures name in PostureBlockers(r) <==> FailsPostureCheck(r, name)
  {
  }

  lemma {:induction false} CapabilityChecks(r: Record, name: string)
    ensures name in CapabilityBlockers(r) <==> FailsCapabilityCheck(r, name)
  {
  }

  /** A candidate that is held back names each recorded blocker and each check that fails, once, and no other. */
  lemma {:induction false} BlockersExactly(r: Record)
    requires r.status == SheetReadyCandidate && QualificationBlockers(r) != []
    ensures var blockers := Readiness(r).blockers;
            && (forall b :: b in blockers <==> b in r.blockers || FailsCheck(r, b))
            && forall i, j :: 0 <= i < j < |blockers| ==> blockers[i] != blockers[j]
  {
    var all := QualificationBlockers(r);
    UniqueKeeps(all);
    forall b ensures b in all <==> b in r.blockers || FailsCheck(r, b) {
      BlockersCover(r, b);
    }
  }

  /** What is to be done with a record that is no candidate. */
  lemma {:induction false} OtherStatusExactly(r: Record)
    requires r.status != SheetReadyCandidate
    ensures var d := Readiness(r);
            && !d.sheetReady && !d.scaffoldReady
            && d.action == (if r.status == DoNotUse then "rejected"
                            else if r.status == Closed then "closed" else "blocked")
            && d.blockers ==
               match r.status
               case NewSignal => ["status:new_signal"]
               case OfficialDocsFound => ["status:official_docs_found"]
               case NeedsAccountCheck => ["status:needs_account_check"]
               case _ => []
  {
    assert "status:" + "new_signal" == "status:new_signal";
    assert "status:" + "official_docs_found" == "status:official_docs_found";
    assert "status:" + "needs_account_check" == "status:needs_account_check";
  }

  /** What is to be done with a candidate, and what is named for it when nothing holds it back. */
  lemma {:induction false} ReadinessExactly(r: Record)
    requires r.status == SheetReadyCandidate
    ensures var d := Readiness(r);
            if IsHeldBack(r) then d.action == "blocked" && !d.sheetReady && !d.scaffoldReady
            else if r.canonicalChatPath != "/chat/completions" || r.catalogPath != "/models" then
              && d.action == "manual_code_required" && d.sheetReady && !d.scaffoldReady
              && d.blockers == RuntimeBlockers(r)
            else AdapterDecides(r.adapterFit, d)
  {
    HeldBackExactly(r);
    if QualificationBlockers(r) == [] && RuntimeBlockers(r) == [] {
      AdapterDecidesExactly(r);
    }
  }

  lemma {:induction false} RuntimeBlockersExactly(r: Record)
    ensures "runtime:nonstandard_chat_path" in RuntimeBlockers(r) <==> r.canonicalChatPath != "/chat/completions"
    ensures "runtime:nonstandard_catalog_path" in RuntimeBlockers(r) <==> r.catalogPath != "/models"
    ensures forall b :: b in RuntimeBlockers(r) ==>
              b == "runtime:nonstandard_chat_path" || b == "runtime:nonstandard_catalog_path"
  {
    assert "runtime:nonstandard_chat_path"[21] == 'h' && "runtime:nonstandard_catalog_path"[21] == 'a';
  }

  /** What the adapter asks for. */
  predicate AdapterDecides(adapterFit: string, d: Decision) {
    && d.action == ActionFor(adapterFit)
    && (d.sheetReady <==> d.action == "manual_code_required" || d.action == "scaffold_ready")
    && (d.scaffoldReady <==> d.action == "scaffold_ready")
    && d.blockers == if d.scaffoldReady then [] else ["adapter_fit:" + adapterFit]
  }

  function ActionFor(adapterFit: string): string {
    if adapterFit == "provider_specific_runtime" || adapterFit == "generic_plus_normalizer" then "manual_code_required"
    else if adapterFit == "not_integrable" then "rejected"
    else if || adapterFit == "generic_config_only" || adapterFit == "generic_config_with_allowlist"
            || adapterFit == "generic_config_with_catalog_pricing" then "scaffold_ready"
    else "blocked"
  }

  lemma {:induction false} AdapterDecidesExactly(r: Record)
    requires r.status == SheetReadyCandidate && QualificationBlockers(r) == [] && RuntimeBlockers(r) == []
    ensures AdapterDecides(r.adapterFit, Readiness(r))
  {
    assert "blocked"[0] == 'b' && "manual_code_required"[0] == 'm' && "rejected"[0] == 'r';
    assert "scaffold_ready"[0] == 's';
    if r.adapterFit == "not_integrable" {
      assert "adapter_fit:" + "not_integrable" == "adapter_fit:not_integrable";
    }
  }

  /** Something is recorded against the record, or a check fails. */
  ghost predicate IsHeldBack(r: Record) {
    r.blockers != [] || exists name :: FailsCheck(r, name)
  }

  lemma {:induction false} HeldBackExactly(r: Record)
    ensures QualificationBlockers(r) != [] <==> IsHeldBack(r)
  {
    var all := QualificationBlockers(r);
    forall b ensures b in all <==> b in r.blockers || FailsCheck(r, b) {
      BlockersCover(r, b);
    }
    if all != [] {
      assert all[0] in all;
    }
    if r.blockers != [] {
      assert r.blockers[0] in all;
    }
  }

  lemma {:induction false} BlockersCover(r: Record, name: string)
    ensures name in QualificationBlockers(r) <==> name in r.blockers || FailsCheck(r, name)
  {
    SourceChecks(r, name);
    PostureChecks(r, name);
    CapabilityChecks(r, name);
    assert QualificationBlockers(r) == r.blockers + SourceBlockers(r) + PostureBlockers(r) + CapabilityBlockers(r);
  }

  // ---------------------------------------------------------------------------------------------
  // compare_intake_records and sync_intake_record
  // ---------------------------------------------------------------------------------------------

  datatype IntakeError =
    | ProviderMismatch
    | TransitionForbidden
    | NotQualified
    | CannotErase
    | ConcurrentChange
    | NotARegularFile
    | RecordInvalid

  function Rank(s: Status): Option<nat> {
    match s
    case NewSignal => Some(0)
    case OfficialDocsFound => Some(1)
    case NeedsAccountCheck => Some(2)
    case SheetReadyCandidate => Some(3)
    case _ => None
  }

  predicate ForbiddenTransition(from: Status, to: Status) {
    || (IsTerminal(from) && to != from)
    || (Rank(from).Some? && Rank(to).Some? && Rank(to).value < Rank(from).value)
  }

  predicate Covers(kept: seq<string>, given: seq<string>) {
    forall i :: 0 <= i < |kept| ==> kept[i] in given
  }

  predicate CoversEvidence(kept: seq<Evidence>, given: seq<Evidence>) {
    forall i :: 0 <= i < |kept| ==> kept[i] in given
  }

  predicate Erases(existing: Record, proposed: Record) {
    !(&& Covers(existing.aliases, proposed.aliases) && Covers(existing.sourceUrls, proposed.sourceUrls)
      && Covers(existing.officialUrls, proposed.officialUrls) && Covers(existing.modelIds, proposed.modelIds)
      && CoversEvidence(existing.evidence, proposed.evidence))
  }

  /** `compare_intake_records`: whether the record changed. */
  function Compare(existing: Record, proposed: Record): Result<bool, IntakeError> {
    if existing.providerId != proposed.providerId then Err(ProviderMismatch)
    else if ForbiddenTransition(existing.status, proposed.status) then Err(TransitionForbidden)
    else if proposed.status == SheetReadyCandidate && !Readiness(proposed).sheetReady then Err(NotQualified)
    else if Erases(Canonical(existing), Canonical(proposed)) then Err(CannotErase)
    else Ok(Canonical(existing) != Canonical(proposed))
  }

  /** A record file that parses, a regular file that does not, or something else under its name. */
  datatype File = Stored(record: Record) | Corrupt | Irregular

  type Registry = map<string, File>

  datatype Action = New | Changed | Unchanged

  datatype SyncResult = SyncResult(action: Action, written: bool)

  /** `digest` is the hash of a file's bytes; a caller may pin the hash it expects, or that there is none. */
  datatype Pin = Unpinned | Missing | Hash(hash: string)

  type Digest = File -> string

  function Sync(digest: Digest, g: Registry, proposed: Record, dryRun: bool,
                pin: Pin): Result<(SyncResult, Registry), IntakeError> {
    var id := proposed.providerId;
    if proposed.status == SheetReadyCandidate && !Readiness(proposed).sheetReady then Err(NotQualified)
    else if id !in g then
      if pin.Hash? then Err(ConcurrentChange)
      else Ok((SyncResult(New, !dryRun), if dryRun then g else g[id := Stored(Canonical(proposed))]))
    else if g[id].Irregular? then Err(NotARegularFile)
    else if pin != Unpinned && pin != Hash(digest(g[id])) then Err(ConcurrentChange)
    else if g[id].Corrupt? then Err(RecordInvalid)
    else
      var changed :- Compare(g[id].record, proposed);
      var written := changed && !dryRun;
      Ok((SyncResult(if changed then Changed else Unchanged, written),
          if written then g[id := Stored(Canonical(proposed))] else g))
  }

  class RegistryDirectory {
    const digest: Digest
    var files: Registry

    constructor (digest: Digest, files: Registry)
      ensures this.digest == digest && this.files == files
    {
      this.digest, this.files := digest, files;
    }

    method SyncIntakeRecord(proposed: Record, dryRun: bool, pin: Pin) returns (r: Result<SyncResult, IntakeError>)
      modifies this`files
      ensures match Sync(digest, old(files), proposed, dryRun, pin)
              case Ok((result, after)) => r == Ok(result) && files == after
              case Err(e) => r == Err(e) && files == old(files)
    {
      var id := proposed.providerId;
      if proposed.status == SheetReadyCandidate {
        var decision := EvaluateAutomationReadiness(proposed);
        if !decision.sheetReady {
          return Err(NotQualified);
        }
      }
      if id !in files {
        if pin.Hash? {
          return Err(ConcurrentChange);
        }
        if !dryRun {
          files := files[id := Stored(Canonical(proposed))];
        }
        return Ok(SyncResult(New, !dryRun));
      }
      if files[id].Irregular? {
        return Err(NotARegularFile);
      }
      if pin != Unpinned && pin != Hash(digest(files[id])) {
        return Err(ConcurrentChange);
      }
      if files[id].Corrupt? {
        return Err(RecordInvalid);
      }
      var change := Compare(files[id].record, proposed);
      if change.Err? {
        return Err(change.error);
      }
      var written := change.value && !dryRun;
      if written {
        files := files[id := Stored(Canonical(proposed))];
      }
      return Ok(SyncResult(if change.value then Changed else Unchanged, written));
    }
  }

  // ---------------------------------------------------------------------------------------------
  // Runs of syncs
  // ---------------------------------------------------------------------------------------------

  /** Terminal is for good, and discovery does not go back. */
  predicate Advances(from: Status, to: Status) {
    match from
    case NewSignal => true
    case OfficialDocsFound => to != NewSignal
    case NeedsAccountCheck => to != NewSignal && to != OfficialDocsFound
    case SheetReadyCandidate => to == SheetReadyCandidate || to == DoNotUse || to == Closed
    case DoNotUse => to == DoNotUse
    case Closed => to == Closed
  }

  /** The pin, if there is one, is that of the file, or says that there is none. */
  predicate IsPinned(digest: Digest, g: Registry, id: string, pin: Pin) {
    match pin
    case Unpinned => true
    case Missing => id !in g
    case Hash(hash) => id in g && hash == digest(g[id])
  }

  /** What a record must be to be taken in. */
  ghost predicate IsWelcome(digest: Digest, g: Registry, proposed: Record, pin: Pin) {
    var id := proposed.providerId;
    && (proposed.status == SheetReadyCandidate ==> Qualified(proposed))
    && IsPinned(digest, g, id, pin)
    && (id in g ==> g[id].Stored? && Grows(g[id].record, proposed))
  }

  /** What an accepted sync reports and leaves. */
  ghost predicate IsSynced(g: Registry, proposed: Record, dryRun: bool, r: (SyncResult, Registry))
    requires proposed.providerId in g ==> g[proposed.providerId].Stored?
  {
    var id := proposed.providerId;
    && (r.0.action == New <==> id !in g)
    && (r.0.action == Unchanged <==> id in g && SameButOrder(g[id].record, proposed))
    && (r.0.written <==> !dryRun && r.0.action != Unchanged)
    && r.1 == if r.0.written then g[id := Stored(Canonical(proposed))] else g
  }

  /** A sync is accepted exactly when the record is welcome, and stores its canonical form exactly when it is news. */
  lemma {:induction false} SyncExactly(digest: Digest, g: Registry, proposed: Record, dryRun: bool, pin: Pin)
    ensures Sync(digest, g, proposed, dryRun, pin).Ok? <==> IsWelcome(digest, g, proposed, pin)
    ensures Sync(digest, g, proposed, dryRun, pin).Ok? ==>
              IsSynced(g, proposed, dryRun, Sync(digest, g, proposed, dryRun, pin).value)
  {
    SheetReadyExactly(proposed);
    if proposed.providerId in g && g[proposed.providerId].Stored? {
      if proposed.status == SheetReadyCandidate ==> Qualified(proposed) {
        KnownIsWelcome(digest, g, proposed, dryRun, pin);
        KnownIsSynced(digest, g, proposed, dryRun, pin);
      }
    }
  }

  lemma {:induction false} KnownIsWelcome(digest: Digest, g: Registry, proposed: Record, dryRun: bool, pin: Pin)
    requires proposed.providerId in g && g[proposed.providerId].Stored?
    requires proposed.status == SheetReadyCandidate ==> Readiness(proposed).sheetReady
    ensures Sync(digest, g, proposed, dryRun, pin).Ok? <==>
            IsPinned(digest, g, proposed.providerId, pin) && Grows(g[proposed.providerId].record, proposed)
  {
    CompareExactly(g[proposed.providerId].record, proposed);
  }

  lemma {:induction false} KnownIsSynced(digest: Digest, g: Registry, proposed: Record, dryRun: bool, pin: Pin)
    requires proposed.providerId in g && g[proposed.providerId].Stored?
    ensures Sync(digest, g, proposed, dryRun, pin).Ok? ==>
              IsSynced(g, proposed, dryRun, Sync(digest, g, proposed, dryRun, pin).value)
  {
    var same := SameButOrder(g[proposed.providerId].record, proposed);
    assert same <==> Canonical(g[proposed.providerId].record) == Canonical(proposed) by {
      CanonicalExactly(g[proposed.providerId].record, proposed);
    }
    KnownSays(digest, g, proposed, dryRun, pin, same);
  }

  lemma {:induction false} KnownSays(digest: Digest, g: Registry, proposed: Record, dryRun: bool, pin: Pin, same: bool)
    requires proposed.providerId in g && g[proposed.providerId].Stored?
    requires same <==> Canonical(g[proposed.providerId].record) == Canonical(proposed)
    ensures match Sync(digest, g, proposed, dryRun, pin)
            case Err(_) => true
            case Ok((result, after)) =>
              && result == SyncResult(if same then Unchanged else Changed, !same && !dryRun)
              && after == if result.written then g[proposed.providerId := Stored(Canonical(proposed))] else g
  {
  }

  lemma {:induction false} CompareExactly(existing: Record, proposed: Record)
    requires proposed.status == SheetReadyCandidate ==> Readiness(proposed).sheetReady
    ensures Compare(existing, proposed).Ok? <==> Grows(existing, proposed)
    ensures Compare(existing, proposed).Ok? ==>
              (Compare(existing, proposed).value <==> Canonical(existing) != Canonical(proposed))
  {
    GrowsExactly(existing, proposed);
  }

  lemma {:induction false} GrowsExactly(existing: Record, proposed: Record)
    ensures Grows(existing, proposed) <==>
            && existing.providerId == proposed.providerId && !ForbiddenTransition(existing.status, proposed.status)
            && !Erases(Canonical(existing), Canonical(proposed))
  {
    CanonicalMembers(existing);
    CanonicalMembers(proposed);
    ErasesExactly(Canonical(existing), Canonical(proposed));
  }

  lemma {:induction false} ErasesExactly(a: Record, b: Record)
    ensures !Erases(a, b) <==>
            && (forall x :: x in a.aliases ==> x in b.aliases) && (forall x :: x in a.sourceUrls ==> x in b.sourceUrls)
            && (forall x :: x in a.officialUrls ==> x in b.officialUrls)
            && (forall x :: x in a.modelIds ==> x in b.modelIds) && (forall x :: x in a.evidence ==> x in b.evidence)
  {
  }

  /** The canonical form has its lists in ascending order, evidence by day, class, address and claim. */
  lemma {:induction false} CanonicalIsSorted(r: Record)
    ensures var k := Canonical(r);
            && Ascending(StringLeq, k.aliases) && Ascending(StringLeq, k.sourceUrls)
            && Ascending(StringLeq, k.officialUrls) && Ascending(StringLeq, k.modelIds)
            && Ascending(StringLeq, k.blockers)
            && forall i, j :: 0 <= i < j < |k.evidence| ==> IsNoLater(k.evidence[i], k.evidence[j])
  {
    StringOrder();
    EvidenceOrder();
    SortAscends(StringLeq, r.aliases);
    SortAscends(StringLeq, r.sourceUrls);
    SortAscends(StringLeq, r.officialUrls);
    SortAscends(StringLeq, r.modelIds);
    SortAscends(StringLeq, r.blockers);
    SortAscends(EvidenceLeq, r.evidence);
  }

  predicate IsNoLater(a: Evidence, b: Evidence) {
    && StringLeq(a.observedAt, b.observedAt)
    && (a.observedAt == b.observedAt ==> StringLeq(a.sourceClass, b.sourceClass))
    && (a.observedAt == b.observedAt && a.sourceClass == b.sourceClass ==> StringLeq(a.url, b.url))
    && (a.observedAt == b.observedAt && a.sourceClass == b.sourceClass && a.url == b.url ==>
          StringLeq(a.claim, b.claim))
  }

  ghost predicate Grows(before: Record, after: Record) {
    && before.providerId == after.providerId
    && Advances(before.status, after.status)
    && (forall x :: x in before.aliases ==> x in after.aliases)
    && (forall x :: x in before.sourceUrls ==> x in after.sourceUrls)
    && (forall x :: x in before.officialUrls ==> x in after.officialUrls)
    && (forall x :: x in before.modelIds ==> x in after.modelIds)
    && (forall x :: x in before.evidence ==> x in after.evidence)
  }

  lemma {:induction false} AdvancesTwice(a: Status, b: Status, c: Status)
    requires Advances(a, b) && Advances(b, c)
    ensures Advances(a, c)
  {
  }

  lemma {:induction false} GrowsTwice(a: Record, b: Record, c: Record)
    requires Grows(a, b) && Grows(b, c)
    ensures Grows(a, c)
  {
    AdvancesTwice(a.status, b.status, c.status);
  }

  lemma {:induction false} CanonicalMembers(r: Record)
    ensures var k := Canonical(r);
            && (forall x :: x in k.aliases <==> x in r.aliases)
                && (forall x :: x in k.sourceUrls <==> x in r.sourceUrls)
            && (forall x :: x in k.officialUrls <==> x in r.officialUrls)
                && (forall x :: x in k.modelIds <==> x in r.modelIds)
            && (forall x :: x in k.blockers <==> x in r.blockers) && (forall x :: x in k.evidence <==> x in r.evidence)
  {
    SortMembers(StringLeq, r.aliases);
    SortMembers(StringLeq, r.sourceUrls);
    SortMembers(StringLeq, r.officialUrls);
    SortMembers(StringLeq, r.modelIds);
    SortMembers(StringLeq, r.blockers);
    SortMembers(EvidenceLeq, r.evidence);
  }

  lemma {:induction false} AcceptedGrows(existing: Record, proposed: Record)
    requires Compare(existing, proposed).Ok?
    ensures Grows(existing, Canonical(proposed))
  {
    CanonicalMembers(existing);
    CanonicalMembers(proposed);
  }

  lemma {:induction false} QualifiedInAnyOrder(r: Record)
    ensures Qualified(Canonical(r)) <==> Qualified(r)
  {
    CanonicalMembers(r);
    CanonicalLengths(r);
    if HasOfficialEvidence(r) {
      var e :| e in r.evidence && IsOfficial(e);
      assert e in Canonical(r).evidence;
    }
    if HasOfficialEvidence(Canonical(r)) {
      var e :| e in Canonical(r).evidence && IsOfficial(e);
      assert e in r.evidence;
    }
  }

  lemma {:induction false} CanonicalLengths(r: Record)
    ensures var k := Canonical(r);
            |k.blockers| == |r.blockers| && |k.officialUrls| == |r.officialUrls| && |k.modelIds| == |r.modelIds|
  {
    SortMembers(StringLeq, r.blockers);
    SortMembers(StringLeq, r.officialUrls);
    SortMembers(StringLeq, r.modelIds);
  }

  /** Every stored record is filed under its own id, and is qualified if it claims to be ready. */
  ghost predicate Trustworthy(g: Registry) {
    forall id :: id in g && g[id].Stored? ==>
      g[id].record.providerId == id && (g[id].record.status == SheetReadyCandidate ==> Qualified(g[id].record))
  }

  /** What `after` has under each id that `before` has. */
  ghost predicate RegistryGrows(before: Registry, after: Registry) {
    forall id :: id in before ==>
      && id in after
      && (before[id].Stored? ==> after[id].Stored? && Grows(before[id].record, after[id].record))
      && (!before[id].Stored? ==> after[id] == before[id])
  }

  datatype Call = Call(proposed: Record, dryRun: bool, pin: Pin)

  /** A sync that is refused leaves the registry as it was. */
  function AfterCall(digest: Digest, g: Registry, call: Call): Registry {
    match Sync(digest, g, call.proposed, call.dryRun, call.pin)
    case Ok((_, after)) => after
    case Err(_) => g
  }

  function AfterCalls(digest: Digest, g: Registry, calls: seq<Call>): Registry
    decreases |calls|
  {
    if calls == [] then g else AfterCalls(digest, AfterCall(digest, g, calls[0]), calls[1..])
  }

  lemma {:induction false} GrowsItself(r: Record)
    ensures Grows(r, r)
  {
  }

  lemma {:induction false} CallKeepsTrust(digest: Digest, g: Registry, call: Call)
    requires Trustworthy(g)
    ensures Trustworthy(AfterCall(digest, g, call))
    ensures RegistryGrows(g, AfterCall(digest, g, call))
  {
    var after := AfterCall(digest, g, call);
    var proposed := call.proposed;
    if after == g {
      NothingLost(g);
    } else {
      SheetReadyExactly(proposed);
      QualifiedInAnyOrder(proposed);
      if proposed.providerId in g {
        AcceptedGrows(g[proposed.providerId].record, proposed);
      }
      OneGrows(g, proposed.providerId, Canonical(proposed));
    }
  }

  lemma {:induction false} NothingLost(g: Registry)
    ensures RegistryGrows(g, g)
  {
    forall id | id in g && g[id].Stored? ensures Grows(g[id].record, g[id].record) {
      GrowsItself(g[id].record);
    }
  }

  lemma {:induction false} OneGrows(g: Registry, id: string, r: Record)
    requires id in g ==> g[id].Stored? && Grows(g[id].record, r)
    ensures RegistryGrows(g, g[id := Stored(r)])
  {
    forall x | x in g && x != id && g[x].Stored? ensures Grows(g[x].record, g[x].record) {
      GrowsItself(g[x].record);
    }
  }

  /**
    Over any sequence of syncs no alias, url, model id or piece of evidence is lost, no discovery status goes
    back, no terminal status changes, and every record that claims to be ready is qualified.
   */
  lemma {:induction false} CallsKeepTrust(digest: Digest, g: Registry, calls: seq<Call>)
    requires Trustworthy(g)
    ensures Trustworthy(AfterCalls(digest, g, calls))
    ensures RegistryGrows(g, AfterCalls(digest, g, calls))
    decreases |calls|
  {
    if calls == [] {
      NothingLost(g);
    } else {
      var next := AfterCall(digest, g, calls[0]);
      CallKeepsTrust(digest, g, calls[0]);
      CallsKeepTrust(digest, next, calls[1..]);
      RegistryGrowsTwice(g, next, AfterCalls(digest, next, calls[1..]));
    }
  }

  lemma {:induction false} RegistryGrowsTwice(a: Registry, b: Registry, c: Registry)
    requires RegistryGrows(a, b) && RegistryGrows(b, c)
    ensures RegistryGrows(a, c)
  {
    forall id | id in a && a[id].Stored? ensures c[id].Stored? && Grows(a[id].record, c[id].record) {
      GrowsTwice(a[id].record, b[id].record, c[id].record);
    }
  }

  /** What the registry holds after an accepted sync that was not a dry run, written or not. */
  lemma {:induction false} WhatIsHeld(digest: Digest, g: Registry, proposed: Record, pin: Pin)
    requires Sync(digest, g, proposed, false, pin).Ok?
    ensures var after := Sync(digest, g, proposed, false, pin).value.1;
            && proposed.providerId in after && after[proposed.providerId].Stored?
            && Canonical(after[proposed.providerId].record) == Canonical(proposed)
    ensures proposed.status == SheetReadyCandidate ==> Qualified(proposed)
  {
    SheetReadyExactly(proposed);
    CanonicalTwice(proposed);
    var id := proposed.providerId;
    if id in g {
      assert g[id].Stored? && Compare(g[id].record, proposed).Ok?;
    }
  }

  lemma {:induction false} CanonicalTwice(r: Record)
    ensures Canonical(Canonical(r)) == Canonical(r)
  {
    CanonicalExactly(r, r);
  }

  lemma {:induction false} SameRecordIsUnchanged(digest: Digest, g: Registry, again: Record, dryRun: bool, pin: Pin)
    requires again.providerId in g && g[again.providerId].Stored?
    requires Canonical(g[again.providerId].record) == Canonical(again)
    requires again.status == SheetReadyCandidate ==> Qualified(again)
    requires pin == Unpinned || pin == Hash(digest(g[again.providerId]))
    ensures Sync(digest, g, again, dryRun, pin) == Ok((SyncResult(Unchanged, false), g))
  {
    var stored := g[again.providerId].record;
    assert stored.providerId == Canonical(stored).providerId && stored.status == Canonical(stored).status;
    SheetReadyExactly(again);
    NothingErased(Canonical(again));
  }

  /**
    Sending what was accepted again, its lists in any order, is reported as unchanged and not written,
    whether the first time it was new, changed or already unchanged.
   */
  lemma {:induction false} ResyncIsUnchanged(digest: Digest, g: Registry, proposed: Record, pin: Pin, again: Record,
                                             dryRun: bool, pinAgain: Pin)
    requires SameButOrder(again, proposed)
    requires Sync(digest, g, proposed, false, pin).Ok?
    ensures var after := Sync(digest, g, proposed, false, pin).value.1;
            && again.providerId in after
            && (pinAgain == Unpinned || pinAgain == Hash(digest(after[again.providerId])) ==>
                  Sync(digest, after, again, dryRun, pinAgain) == Ok((SyncResult(Unchanged, false), after)))
  {
    WhatIsHeld(digest, g, proposed, pin);
    CanonicalExactly(again, proposed);
    QualifiedInAnyOrder(proposed);
    QualifiedInAnyOrder(again);
    var after := Sync(digest, g, proposed, false, pin).value.1;
    if pinAgain == Unpinned || pinAgain == Hash(digest(after[again.providerId])) {
      SameRecordIsUnchanged(digest, after, again, dryRun, pinAgain);
    }
  }

  lemma {:induction false} NothingErased(r: Record)
    ensures !Erases(r, r)
  {
  }
}
