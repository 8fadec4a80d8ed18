/** The deterministic rule runtime and the decision taken on its result
    (src/rules/wasm_runtime.rs, src/classification/outcome.rs). */
module RuleEvaluation {
  import opened Wrappers
  import opened Sequences
  import Text

  const TIE_CONFIDENCE_DELTA: real := 0.05
  const CLASSIFIED_CONFIDENCE: real := 0.82

  /** A rule as JSON: a field is `None` when it is missing or has the wrong JSON type; `extra` stands for
      the fields the runtime does not look at. */
  datatype Rule = Rule(id: Option<string>, code: Option<string>, contains: Option<string>,
                       confidence: Option<real>, riskBand: Option<string>, extra: string)

  /** A rule-pack document as JSON. */
  datatype Pack = Pack(rules: Option<seq<Rule>>, simulate: Option<string>)

  datatype RejectReason = ContainsNotMatched | TieScore | LowerScore
  datatype RejectedCandidate = RejectedCandidate(code: Option<string>, ruleId: Option<string>, reason: RejectReason)

  datatype Classification = Classification(selectedCode: Option<string>, confidence: real, riskBand: string,
                                           matchedRules: seq<Rule>, rejected: seq<RejectedCandidate>)

  datatype RuntimeError = FuelExhausted | Timeout | InvalidRulePack
  datatype Runtime = Runtime(fuelLimit: nat, timeoutMillis: nat)

  const PRODUCTION_RUNTIME := Runtime(10_000, 100)
  const VALIDATION_RUNTIME := Runtime(5_000_000, 60_000)

  function Confidence(rule: Rule): real {
    rule.confidence.Or(0.0)
  }

  function CheckRuntimeLimits(runtime: Runtime, pack: Pack): Option<RuntimeError> {
    if pack.simulate == Some("fuel_exhausted") then Some(FuelExhausted)
    else if pack.simulate == Some("timeout") then Some(Timeout)
    else if runtime.fuelLimit == 0 then Some(FuelExhausted)
    else if runtime.timeoutMillis == 0 then Some(Timeout)
    else None
  }

  predicate Matches(rule: Rule, haystack: string) {
    rule.contains.Some? && Text.Includes(haystack, Text.Lower(rule.contains.value))
  }

  function Reject(rule: Rule, reason: RejectReason): RejectedCandidate {
    RejectedCandidate(rule.code, rule.id, reason)
  }

  function Matched(rules: seq<Rule>, haystack: string): seq<Rule> {
    Filter((rule: Rule) => Matches(rule, haystack), rules)
  }

  function Missed(rules: seq<Rule>, haystack: string): seq<Rule> {
    Filter((rule: Rule) => !Matches(rule, haystack), rules)
  }

  function Insert(rule: Rule, sorted: seq<Rule>): (r: seq<Rule>)
    ensures multiset(r) == multiset(sorted) + multiset{rule}
  {
    if sorted == [] || Confidence(rule) >= Confidence(sorted[0]) then [rule] + sorted
    else
      assert sorted == [sorted[0]] + sorted[1..];
      [sorted[0]] + Insert(rule, sorted[1..])
  }

  /** The stable sort by falling confidence. */
  function SortByConfidence(rules: seq<Rule>): (r: seq<Rule>)
    ensures multiset(r) == multiset(rules)
  {
    if rules == [] then []
    else
      assert rules == [rules[0]] + rules[1..];
      Insert(rules[0], SortByConfidence(rules[1..]))
  }

  function RankReason(selected: Rule, rule: Rule): RejectReason {
    if Confidence(selected) - Confidence(rule) <= TIE_CONFIDENCE_DELTA then TieScore else LowerScore
  }

  function Finish(matched: seq<Rule>, rejected: seq<RejectedCandidate>): Classification {
    if matched == [] then Classification(None, 0.0, "high", [], rejected)
    else
      var selected := matched[0];
      Classification(selected.code, Confidence(selected), selected.riskBand.Or("medium"), [selected],
                     rejected + Map((rule: Rule) => Reject(rule, RankReason(selected, rule)), matched[1..]))
  }

  function Classify(rules: seq<Rule>, haystack: string): Classification {
    Finish(SortByConfidence(Matched(rules, haystack)),
           Map((rule: Rule) => Reject(rule, ContainsNotMatched), Missed(rules, haystack)))
  }

  /** `evaluate_json`: the product is given by its serialised JSON text. */
  function Evaluate(runtime: Runtime, pack: Pack, product: string): Result<Classification, RuntimeError> {
    match CheckRuntimeLimits(runtime, pack)
    case Some(error) => Err(error)
    case None =>
      if pack.rules.None? || exists i | 0 <= i < |pack.rules.value| :: pack.rules.value[i].contains.None?
      then Err(InvalidRulePack)
      else Ok(Classify(pack.rules.value, Text.Lower(product)))
  }

  /** The runtime's working state: rules are pushed one at a time, then the matches are sorted. */
  class RuleEvaluator {
    var matched: seq<Rule>
    var rejected: seq<RejectedCandidate>

    constructor ()
      ensures matched == [] && rejected == []
    {
      matched, rejected := [], [];
    }

    method PushRule(rule: Rule, haystack: string) returns (error: Option<RuntimeError>)
      modifies this
      ensures error == if rule.contains.None? then Some(InvalidRulePack) else None
      ensures error.Some? ==> unchanged(this)
      ensures error.None? ==> matched == old(matched) + Matched([rule], haystack)
      ensures error.None? ==>
                rejected == old(rejected) + (if Matches(rule, haystack) then [] else [Reject(rule, ContainsNotMatched)])
    {
      if rule.contains.None? {
        return Some(InvalidRulePack);
      }
      if Text.Includes(haystack, Text.Lower(rule.contains.value)) {
        matched := matched + [rule];
      } else {
        rejected := rejected + [Reject(rule, ContainsNotMatched)];
      }
      error := None;
    }

    method FromRules(rules: seq<Rule>, haystack: string) returns (error: Option<RuntimeError>)
      requires matched == [] && rejected == []
      modifies this
      ensures error.Some? <==> exists i | 0 <= i < |rules| :: rules[i].contains.None?
      ensures error.Some? ==> error.value == InvalidRulePack
      ensures error.None? ==> matched == SortByConfidence(Matched(rules, haystack))
      ensures error.None? ==> rejected == Map((rule: Rule) => Reject(rule, ContainsNotMatched), Missed(rules, haystack))
    {
      var i := 0;
      while i < |rules|
        invariant 0 <= i <= |rules|
        invariant forall k | 0 <= k < i :: rules[k].contains.Some?
        invariant matched == Matched(rules[..i], haystack)
        invariant rejected == Map((rule: Rule) => Reject(rule, ContainsNotMatched), Missed(rules[..i], haystack))
      {
        error := PushRule(rules[i], haystack);
        if error.Some? {
          return;
        }
        assert rules[..i + 1] == rules[..i] + [rules[i]];
        FilterAppend((rule: Rule) => Matches(rule, haystack), rules[..i], [rules[i]]);
        FilterAppend((rule: Rule) => !Matches(rule, haystack), rules[..i], [rules[i]]);
        i := i + 1;
      }
      assert rules[..i] == rules;
      matched := SortByConfidence(matched);
      error := None;
    }

    method FinishEvaluation() returns (outcome: Classification)
      modifies this
      ensures outcome == Finish(old(matched), old(rejected))
    {
      if matched == [] {
        return Classification(None, 0.0, "high", [], rejected);
      }
      var ranked := matched;
      var selected := ranked[0];
      var i := 1;
      while i < |ranked|
        invariant 1 <= i <= |ranked|
        invariant rejected == old(rejected)
                  + Map((rule: Rule) => Reject(rule, RankReason(selected, rule)), ranked[1..i])
      {
        assert ranked[1..i + 1] == ranked[1..i] + [ranked[i]];
        rejected := rejected + [Reject(ranked[i], RankReason(selected, ranked[i]))];
        i := i + 1;
      }
      assert ranked[1..i] == ranked[1..];
      outcome := Classification(selected.code, Confidence(selected), selected.riskBand.Or("medium"), [selected],
                                rejected);
    }
  }

  method EvaluateJson(runtime: Runtime, pack: Pack, product: string) returns (r: Result<Classification, RuntimeError>)
    ensures r == Evaluate(runtime, pack, product)
  {
    var limit := CheckRuntimeLimits(runtime, pack);
    if limit.Some? {
      return Err(limit.value);
    }
    if pack.rules.None? {
      return Err(InvalidRulePack);
    }
    var evaluation := new RuleEvaluator();
    var error := evaluation.FromRules(pack.rules.value, Text.Lower(product));
    if error.Some? {
      return Err(error.value);
    }
    var outcome := evaluation.FinishEvaluation();
    r := Ok(outcome);
  }

  // ---- The decision on an evaluated run ----

  datatype RunStatus = Queued | Running | Classified | Completed | NeedsReview | Blocked | Failed
  datatype Decision = Decision(status: RunStatus, failureReason: Option<string>)

  predicate TerminalStatus(status: RunStatus) {
    status.Classified? || status.Completed? || status.NeedsReview? || status.Blocked? || status.Failed?
  }

  function CandidateCodes(outcome: Classification): seq<string> {
    (if outcome.selectedCode.Some? then [outcome.selectedCode.value] else [])
    + PresentCodes(Map((candidate: RejectedCandidate) => candidate.code, outcome.rejected))
  }

  function PresentCodes(codes: seq<Option<string>>): seq<string> {
    Map((code: Option<string>) => code.Or(""), Filter((code: Option<string>) => code.Some?, codes))
  }

  predicate HasTieCandidate(outcome: Classification) {
    exists i | 0 <= i < |outcome.rejected| :: outcome.rejected[i].reason == TieScore
  }

  function OutcomeDecision(outcome: Classification): Decision {
    if outcome.selectedCode.None? then Decision(Blocked, Some("no_candidate"))
    else if HasTieCandidate(outcome) then Decision(NeedsReview, Some("tie_candidate"))
    else if outcome.confidence < CLASSIFIED_CONFIDENCE then Decision(NeedsReview, Some("low_confidence"))
    else Decision(Classified, None)
  }
}
