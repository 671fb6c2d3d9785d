/** The claim auto-adjudication rules of the backend service: a failed policy check
    rejects at once; otherwise five guardrails are checked in a fixed order, every
    failed one adds a reason, and the claim is approved only when none failed. */
module Adjudication {
  import opened Options

  // The service's hard limits.
  const MaxAutoApproveAmount: real := 2000.0
  const RequiredAiConfidence: real := 0.90
  const MaxFraudScore: real := 10.0

  /** A numeric input as the service receives it: a missing key or an explicit None,
      a value that float() refuses, or a number. */
  datatype NumericInput = Absent | Unparsable | Number(value: real)

  datatype Claim = Claim(estimatedDamageCost: NumericInput)
  datatype Policy = Policy(status: Option<string>, coverageLimit: NumericInput, deductible: NumericInput)
  /** `redFlags` None stands for a missing key or an explicit None. */
  datatype AiAnalysis = AiAnalysis(confidence: NumericInput, redFlags: Option<seq<string>>)

  datatype Status = Approved | ManualReview | Rejected

  /** The reason messages, as tags carrying the numbers the messages quote. */
  datatype Reason =
    | PolicyNotActive
    | CostExceedsCap(cost: real)
    | FraudScoreExceeds(score: real)
    | RedFlagsIdentified(flags: seq<string>)
    | ConfidenceBelowFloor(confidence: real)
    | CostExceedsCoverage(cost: real, available: real)
    | PassedAllGuardrails

  /** The returned record; `reasons` are the parts the service joins with " | ". */
  datatype Decision = Decision(status: Status, reasons: seq<Reason>)

  /** The inner `safe_float` helper: anything that is not a number defaults to 0.0. */
  function SafeFloat(v: NumericInput): (r: real)
    ensures r != 0.0 ==> v.Number? && v.value == r
  {
    match v
    case Number(x) => x
    case _ => 0.0
  }

  predicate IsLower(c: char)
  {
    'a' <= c <= 'z'
  }

  function ToUpper(c: char): char
  {
    if IsLower(c) then (c as int - 32) as char else c
  }

  function ToLower(c: char): char
  {
    if 'A' <= c <= 'Z' then (c as int + 32) as char else c
  }

  /** `str.upper` on ASCII: the result holds no lower-case letter and spells, letter
      case aside, the same text. */
  function UpperCase(s: string): (r: string)
    ensures |r| == |s|
    ensures forall i :: 0 <= i < |r| ==> !IsLower(r[i])
    ensures forall i :: 0 <= i < |r| ==> ToLower(r[i]) == ToLower(s[i])
  {
    seq(|s|, i requires 0 <= i < |s| => ToUpper(s[i]))
  }

  /** Upper-casing an upper-case text changes nothing. */
  lemma UpperCaseIdempotent(s: string)
    ensures UpperCase(UpperCase(s)) == UpperCase(s)
  {
    var u := UpperCase(s);
    forall i | 0 <= i < |u| ensures UpperCase(u)[i] == u[i] {
      assert !IsLower(u[i]) && !IsLower(UpperCase(u)[i]);
      assert ToLower(UpperCase(u)[i]) == ToLower(u[i]);
    }
  }

  /** The early-exit rule: a status is present, non-empty and upper-cases to "ACTIVE". */
  predicate PolicyActive(status: Option<string>)
    ensures PolicyActive(status) ==> status.Some? && |status.value| == 6
  {
    status.Some? && status.value != "" && UpperCase(status.value) == "ACTIVE"
  }

  predicate HasRedFlags(flags: Option<seq<string>>)
  {
    flags.Some? && flags.value != []
  }

  /** The five guardrails in the order the service checks them, each paired with the
      reason it reports when it fails. */
  function Guardrails(claim: Claim, policy: Policy, ai: AiAnalysis, fraudScore: NumericInput): (gs: seq<(bool, Reason)>)
    ensures |gs| == 5
  {
    var cost := SafeFloat(claim.estimatedDamageCost);
    var fraud := SafeFloat(fraudScore);
    var confidence := SafeFloat(ai.confidence);
    var available := SafeFloat(policy.coverageLimit) - SafeFloat(policy.deductible);
    [ (cost > MaxAutoApproveAmount, CostExceedsCap(cost)),
      (fraud > MaxFraudScore, FraudScoreExceeds(fraud)),
      (HasRedFlags(ai.redFlags), RedFlagsIdentified(if ai.redFlags.Some? then ai.redFlags.value else [])),
      (confidence < RequiredAiConfidence, ConfidenceBelowFloor(confidence)),
      (cost > available, CostExceedsCoverage(cost, available)) ]
  }

  function Pick(g: (bool, Reason)): seq<Reason>
  {
    if g.0 then [g.1] else []
  }

  /** The reasons of the failed guardrails, in guardrail order. */
  function FailedReasons(gs: seq<(bool, Reason)>): (rs: seq<Reason>)
    ensures |rs| <= |gs|
  {
    if gs == [] then []
    else Pick(gs[0]) + FailedReasons(gs[1..])
  }

  lemma {:induction false} FailedReasonsOfFive(gs: seq<(bool, Reason)>)
    requires |gs| == 5
    ensures FailedReasons(gs) == Pick(gs[0]) + Pick(gs[1]) + Pick(gs[2]) + Pick(gs[3]) + Pick(gs[4])
  {
    var t4, t3, t2, t1 := gs[4..], gs[3..], gs[2..], gs[1..];
    assert t4[1..] == [];
    assert t3[1..] == t4;
    assert t2[1..] == t3;
    assert t1[1..] == t2;
    assert FailedReasons(t4) == Pick(gs[4]) + [];
    assert FailedReasons(t3) == Pick(gs[3]) + FailedReasons(t4);
    assert FailedReasons(t2) == Pick(gs[2]) + FailedReasons(t3);
    assert FailedReasons(t1) == Pick(gs[1]) + FailedReasons(t2);
    assert FailedReasons(gs) == Pick(gs[0]) + FailedReasons(t1);
  }

  /** The decision table the service implements. */
  function Adjudicate(claim: Claim, policy: Policy, ai: AiAnalysis, fraudScore: NumericInput): (d: Decision)
    ensures 1 <= |d.reasons| <= 5
    ensures d.status == Rejected <==> !PolicyActive(policy.status)
  {
    if !PolicyActive(policy.status) then Decision(Rejected, [PolicyNotActive])
    else
      var rs := FailedReasons(Guardrails(claim, policy, ai, fraudScore));
      if rs == [] then Decision(Approved, [PassedAllGuardrails]) else Decision(ManualReview, rs)
  }

  /** `evaluate_claim`: the reasons are accumulated check by check. */
  method EvaluateClaim(claim: Claim, policy: Policy, ai: AiAnalysis, fraudScore: NumericInput) returns (d: Decision)
    ensures d == Adjudicate(claim, policy, ai, fraudScore)
  {
    var reasons: seq<Reason> := [];
    if !(policy.status.Some? && policy.status.value != "") || UpperCase(policy.status.value) != "ACTIVE" {
      reasons := reasons + [PolicyNotActive];
      return Decision(Rejected, reasons);
    }
    ghost var gs := Guardrails(claim, policy, ai, fraudScore);
    var estimatedCost := SafeFloat(claim.estimatedDamageCost);
    if estimatedCost > MaxAutoApproveAmount {
      reasons := reasons + [CostExceedsCap(estimatedCost)];
    }
    assert reasons == Pick(gs[0]);
    var safeFraudScore := SafeFloat(fraudScore);
    if safeFraudScore > MaxFraudScore {
      reasons := reasons + [FraudScoreExceeds(safeFraudScore)];
    }
    assert reasons == Pick(gs[0]) + Pick(gs[1]);
    var redFlags := ai.redFlags;
    if redFlags.Some? && redFlags.value != [] {
      reasons := reasons + [RedFlagsIdentified(redFlags.value)];
    }
    assert reasons == Pick(gs[0]) + Pick(gs[1]) + Pick(gs[2]);
    var aiConfidence := SafeFloat(ai.confidence);
    if aiConfidence < RequiredAiConfidence {
      reasons := reasons + [ConfidenceBelowFloor(aiConfidence)];
    }
    assert reasons == Pick(gs[0]) + Pick(gs[1]) + Pick(gs[2]) + Pick(gs[3]);
    var coverageLimit := SafeFloat(policy.coverageLimit);
    var deductible := SafeFloat(policy.deductible);
    if estimatedCost > coverageLimit - deductible {
      reasons := reasons + [CostExceedsCoverage(estimatedCost, coverageLimit - deductible)];
    }
    FailedReasonsOfFive(gs);
    assert reasons == FailedReasons(gs);
    if reasons != [] {
      return Decision(ManualReview, reasons);
    }
    return Decision(Approved, [PassedAllGuardrails]);
  }

  // ---------------------------------------------------------------------------
  // Properties of the decision table

  /** The position of a guardrail's reason in the fixed check order. */
  function Rank(r: Reason): nat
  {
    match r
    case CostExceedsCap(_) => 1
    case FraudScoreExceeds(_) => 2
    case RedFlagsIdentified(_) => 3
    case ConfidenceBelowFloor(_) => 4
    case CostExceedsCoverage(_, _) => 5
    case _ => 0
  }

  predicate StrictlyRanked(rs: seq<Reason>)
  {
    forall i, j :: 0 <= i < j < |rs| ==> Rank(rs[i]) < Rank(rs[j])
  }

  /** A reason is reported exactly when some guardrail carrying it failed. */
  lemma {:induction false} FailedReasonsMembers(gs: seq<(bool, Reason)>, r: Reason)
    ensures r in FailedReasons(gs) <==> exists i :: 0 <= i < |gs| && gs[i] == (true, r)
  {
    if gs != [] {
      FailedReasonsMembers(gs[1..], r);
      if r in FailedReasons(gs[1..]) {
        var i :| 0 <= i < |gs[1..]| && gs[1..][i] == (true, r);
        assert gs[i + 1] == (true, r);
      }
      if exists i :: 0 <= i < |gs| && gs[i] == (true, r) {
        var i :| 0 <= i < |gs| && gs[i] == (true, r);
        if i > 0 {
          assert gs[1..][i - 1] == (true, r);
        }
      }
    }
  }

  /** Guardrails listed in rank order report their reasons in rank order. */
  lemma {:induction false} FailedReasonsRanked(gs: seq<(bool, Reason)>, k: nat)
    requires forall i :: 0 <= i < |gs| ==> Rank(gs[i].1) == k + i
    ensures StrictlyRanked(FailedReasons(gs))
    ensures forall r :: r in FailedReasons(gs) ==> Rank(r) >= k
  {
    if gs != [] {
      FailedReasonsRanked(gs[1..], k + 1);
      var rest := FailedReasons(gs[1..]);
      assert FailedReasons(gs) == Pick(gs[0]) + rest;
      forall r | r in FailedReasons(gs) ensures Rank(r) >= k {
        if r !in rest {
          assert r == gs[0].1;
        }
      }
    }
  }

  /** An inactive policy is rejected with its single reason, whatever the other inputs;
      an active one is never rejected. */
  lemma InactivePolicyRejected(claim: Claim, policy: Policy, ai: AiAnalysis, fraudScore: NumericInput)
    ensures Adjudicate(claim, policy, ai, fraudScore).status == Rejected <==> !PolicyActive(policy.status)
    ensures !PolicyActive(policy.status) ==>
      Adjudicate(claim, policy, ai, fraudScore) == Decision(Rejected, [PolicyNotActive])
  {
  }

  /** A claim is approved exactly when the policy is active and every guardrail holds. */
  lemma ApprovedIff(claim: Claim, policy: Policy, ai: AiAnalysis, fraudScore: NumericInput)
    ensures var cost := SafeFloat(claim.estimatedDamageCost);
      Adjudicate(claim, policy, ai, fraudScore).status == Approved <==>
        && PolicyActive(policy.status)
        && cost <= MaxAutoApproveAmount
        && SafeFloat(fraudScore) <= MaxFraudScore
        && !HasRedFlags(ai.redFlags)
        && SafeFloat(ai.confidence) >= RequiredAiConfidence
        && cost <= SafeFloat(policy.coverageLimit) - SafeFloat(policy.deductible)
    ensures Adjudicate(claim, policy, ai, fraudScore).status == Approved ==>
      Adjudicate(claim, policy, ai, fraudScore).reasons == [PassedAllGuardrails]
  {
    FailedReasonsOfFive(Guardrails(claim, policy, ai, fraudScore));
  }

  /** The guardrails come in the fixed check order: cost cap, fraud, red flags,
      confidence, coverage. */
  lemma GuardrailsRanked(claim: Claim, policy: Policy, ai: AiAnalysis, fraudScore: NumericInput)
    ensures var gs := Guardrails(claim, policy, ai, fraudScore);
      forall i :: 0 <= i < |gs| ==> Rank(gs[i].1) == i + 1
  {
  }

  /** Of five guardrails in rank order, each one's reason is reported exactly when it
      failed, no other reason is, and the reasons come in rank order. */
  lemma RankedFive(gs: seq<(bool, Reason)>)
    requires |gs| == 5
    requires forall i :: 0 <= i < |gs| ==> Rank(gs[i].1) == i + 1
    ensures forall k :: 0 <= k < 5 ==> (gs[k].1 in FailedReasons(gs) <==> gs[k].0)
    ensures forall r :: r in FailedReasons(gs) ==> r in [gs[0].1, gs[1].1, gs[2].1, gs[3].1, gs[4].1]
    ensures StrictlyRanked(FailedReasons(gs))
  {
    FailedReasonsRanked(gs, 1);
    forall k | 0 <= k < 5
      ensures gs[k].1 in FailedReasons(gs) <==> gs[k].0
    {
      FailedReasonsMembers(gs, gs[k].1);
    }
    forall r | r in FailedReasons(gs)
      ensures r in [gs[0].1, gs[1].1, gs[2].1, gs[3].1, gs[4].1]
    {
      FailedReasonsMembers(gs, r);
    }
  }

  /** With an active policy and some failed guardrail the claim goes to manual review;
      there is one reason per failed guardrail, each quoting the value it judged, and
      they appear in the order cost cap, fraud, red flags, confidence, coverage. */
  lemma ManualReviewReasons(claim: Claim, policy: Policy, ai: AiAnalysis, fraudScore: NumericInput)
    requires PolicyActive(policy.status)
    ensures var d := Adjudicate(claim, policy, ai, fraudScore);
      var cost := SafeFloat(claim.estimatedDamageCost);
      var fraud := SafeFloat(fraudScore);
      var confidence := SafeFloat(ai.confidence);
      var available := SafeFloat(policy.coverageLimit) - SafeFloat(policy.deductible);
      && (d.status == ManualReview || d.status == Approved)
      && (d.status == ManualReview ==>
        && (CostExceedsCap(cost) in d.reasons <==> cost > MaxAutoApproveAmount)
        && (FraudScoreExceeds(fraud) in d.reasons <==> fraud > MaxFraudScore)
        && (RedFlagsIdentified(if ai.redFlags.Some? then ai.redFlags.value else []) in d.reasons <==> HasRedFlags(ai.redFlags))
        && (ConfidenceBelowFloor(confidence) in d.reasons <==> confidence < RequiredAiConfidence)
        && (CostExceedsCoverage(cost, available) in d.reasons <==> cost > available)
        && (forall r :: r in d.reasons ==>
              r in [CostExceedsCap(cost), FraudScoreExceeds(fraud),
                    RedFlagsIdentified(if ai.redFlags.Some? then ai.redFlags.value else []),
                    ConfidenceBelowFloor(confidence), CostExceedsCoverage(cost, available)])
        && StrictlyRanked(d.reasons))
  {
    var gs := Guardrails(claim, policy, ai, fraudScore);
    GuardrailsRanked(claim, policy, ai, fraudScore);
    RankedFive(gs);
    assert gs[0].1 in FailedReasons(gs) <==> gs[0].0;
    assert gs[1].1 in FailedReasons(gs) <==> gs[1].0;
    assert gs[2].1 in FailedReasons(gs) <==> gs[2].0;
    assert gs[3].1 in FailedReasons(gs) <==> gs[3].0;
    assert gs[4].1 in FailedReasons(gs) <==> gs[4].0;
  }

  /** The status check ignores letter case: a status passes exactly when its
      upper-case form does. */
  lemma StatusCaseInsensitive(s: string)
    ensures PolicyActive(Some(s)) <==> PolicyActive(Some(UpperCase(s)))
  {
    UpperCaseIdempotent(s);
  }

  lemma StatusSpellings()
    ensures PolicyActive(Some("Active")) && PolicyActive(Some("ACTIVE")) && PolicyActive(Some("active"))
    ensures !PolicyActive(Some("Expired")) && !PolicyActive(Some("")) && !PolicyActive(None)
  {
    assert UpperCase("Active") == "ACTIVE";
    assert UpperCase("active") == "ACTIVE";
    assert UpperCase("ACTIVE") == "ACTIVE";
    assert UpperCase("Expired")[0] == 'E' && UpperCase("Expired") != "ACTIVE";
  }

  /** The cost cap is strict: a cost of exactly 2000 adds no cost-cap reason,
      whatever the other inputs. */
  lemma CostAtCapAddsNoReason(claim: Claim, policy: Policy, ai: AiAnalysis, fraudScore: NumericInput)
    requires PolicyActive(policy.status)
    requires claim.estimatedDamageCost == Number(MaxAutoApproveAmount)
    ensures forall r :: r in Adjudicate(claim, policy, ai, fraudScore).reasons ==> !r.CostExceedsCap?
  {
    ManualReviewReasons(claim, policy, ai, fraudScore);
  }

  /** The fraud limit is strict: a score of exactly 10 adds no fraud reason,
      whatever the other inputs. */
  lemma FraudAtLimitAddsNoReason(claim: Claim, policy: Policy, ai: AiAnalysis, fraudScore: NumericInput)
    requires PolicyActive(policy.status)
    requires fraudScore == Number(MaxFraudScore)
    ensures forall r :: r in Adjudicate(claim, policy, ai, fraudScore).reasons ==> !r.FraudScoreExceeds?
  {
    ManualReviewReasons(claim, policy, ai, fraudScore);
  }

  /** The confidence floor is strict: a confidence of exactly 0.90 adds no
      confidence reason, whatever the other inputs. */
  lemma ConfidenceAtFloorAddsNoReason(claim: Claim, policy: Policy, ai: AiAnalysis, fraudScore: NumericInput)
    requires PolicyActive(policy.status)
    requires ai.confidence == Number(RequiredAiConfidence)
    ensures forall r :: r in Adjudicate(claim, policy, ai, fraudScore).reasons ==> !r.ConfidenceBelowFloor?
  {
    ManualReviewReasons(claim, policy, ai, fraudScore);
  }

  /** A missing or unparsable confidence counts as 0.0, so an active policy always
      goes to manual review, citing a confidence of 0.0. */
  lemma MissingConfidenceNeedsReview(claim: Claim, policy: Policy, ai: AiAnalysis, fraudScore: NumericInput)
    requires PolicyActive(policy.status)
    requires !ai.confidence.Number?
    ensures Adjudicate(claim, policy, ai, fraudScore).status == ManualReview
    ensures ConfidenceBelowFloor(0.0) in Adjudicate(claim, policy, ai, fraudScore).reasons
  {
    ApprovedIff(claim, policy, ai, fraudScore);
    ManualReviewReasons(claim, policy, ai, fraudScore);
  }

  // The cases of the service's unit tests.

  const ValidPolicy := Policy(Some("Active"), Number(50000.0), Number(500.0))
  const ValidClaim := Claim(Number(1500.0))
  const ValidAnalysis := AiAnalysis(Number(0.95), Some([]))
  const ValidFraudScore := Number(5.0)

  lemma UnitTestCases()
    ensures Adjudicate(ValidClaim, ValidPolicy, ValidAnalysis, ValidFraudScore).status == Approved
    ensures Adjudicate(ValidClaim, ValidPolicy.(status := Some("Expired")), ValidAnalysis, ValidFraudScore)
      == Decision(Rejected, [PolicyNotActive])
    ensures Adjudicate(Claim(Number(2500.0)), ValidPolicy, ValidAnalysis, ValidFraudScore)
      == Decision(ManualReview, [CostExceedsCap(2500.0)])
    ensures Adjudicate(ValidClaim, ValidPolicy, ValidAnalysis, Number(15.0))
      == Decision(ManualReview, [FraudScoreExceeds(15.0)])
    ensures Adjudicate(ValidClaim, ValidPolicy, ValidAnalysis.(redFlags := Some(["Possible pre-existing damage"])), ValidFraudScore)
      == Decision(ManualReview, [RedFlagsIdentified(["Possible pre-existing damage"])])
    ensures Adjudicate(ValidClaim, ValidPolicy, ValidAnalysis.(confidence := Number(0.85)), ValidFraudScore)
      == Decision(ManualReview, [ConfidenceBelowFloor(0.85)])
    ensures Adjudicate(ValidClaim, Policy(Some("Active"), Number(1000.0), Number(0.0)), ValidAnalysis, ValidFraudScore)
      == Decision(ManualReview, [CostExceedsCoverage(1500.0, 1000.0)])
    ensures Adjudicate(Claim(Absent), Policy(None, Absent, Absent), AiAnalysis(Absent, None), Absent)
      == Decision(Rejected, [PolicyNotActive])
    ensures Adjudicate(Claim(Absent), Policy(Some("ACTIVE"), Absent, Absent), AiAnalysis(Absent, None), Absent)
      == Decision(ManualReview, [ConfidenceBelowFloor(0.0)])
  {
    StatusSpellings();
    var g := Guardrails(ValidClaim, ValidPolicy, ValidAnalysis, ValidFraudScore);
    FailedReasonsOfFive(g);
    FailedReasonsOfFive(Guardrails(Claim(Number(2500.0)), ValidPolicy, ValidAnalysis, ValidFraudScore));
    FailedReasonsOfFive(Guardrails(ValidClaim, ValidPolicy, ValidAnalysis, Number(15.0)));
    FailedReasonsOfFive(Guardrails(ValidClaim, ValidPolicy, ValidAnalysis.(redFlags := Some(["Possible pre-existing damage"])), ValidFraudScore));
    FailedReasonsOfFive(Guardrails(ValidClaim, ValidPolicy, ValidAnalysis.(confidence := Number(0.85)), ValidFraudScore));
    FailedReasonsOfFive(Guardrails(ValidClaim, Policy(Some("Active"), Number(1000.0), Number(0.0)), ValidAnalysis, ValidFraudScore));
    FailedReasonsOfFive(Guardrails(Claim(Absent), Policy(Some("ACTIVE"), Absent, Absent), AiAnalysis(Absent, None), Absent));
  }
}
