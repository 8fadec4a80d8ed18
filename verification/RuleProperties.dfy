/** What a rule pack's answer depends on: the rules as a multiset, up to ties. */
module RuleProperties {
  import opened Wrappers
  import opened Sequences
  import opened RuleEvaluation

  function Code(rule: Rule): Option<string> { rule.code }

  function Confidences(rules: seq<Rule>): seq<real> {
    Map(Confidence, rules)
  }

  // ---- The sort ----

  lemma {:induction false} SortDescends(rules: seq<Rule>)
    ensures Descending(Confidences(SortByConfidence(rules)))
  {
    if rules != [] {
      SortDescends(rules[1..]);
      InsertDescends(rules[0], SortByConfidence(rules[1..]));
    }
  }

  lemma {:induction false} InsertDescends(rule: Rule, sorted: seq<Rule>)
    requires Descending(Confidences(sorted))
    ensures Descending(Confidences(Insert(rule, sorted)))
  {
    hide Confidence;
    if sorted != [] && Confidence(rule) < Confidence(sorted[0]) {
      var inserted := Insert(rule, sorted[1..]);
      assert Confidences(sorted)[1..] == Confidences(sorted[1..]);
      InsertDescends(rule, sorted[1..]);
      forall k | 0 <= k < |inserted| ensures Confidence(sorted[0]) >= Confidences(inserted)[k] {
        HeadIsGreatest(rule, sorted, inserted, k);
      }
      assert Confidences(Insert(rule, sorted)) == [Confidence(sorted[0])] + Confidences(inserted);
    } else {
      assert Confidences([rule] + sorted) == [Confidence(rule)] + Confidences(sorted);
    }
  }

  lemma HeadIsGreatest(rule: Rule, sorted: seq<Rule>, inserted: seq<Rule>, k: nat)
    requires Descending(Confidences(sorted)) && sorted != [] && Confidence(rule) < Confidence(sorted[0])
    requires multiset(inserted) == multiset(sorted[1..]) + multiset{rule} && k < |inserted|
    ensures Confidence(sorted[0]) >= Confidence(inserted[k])
  {
    hide Confidence;
    assert inserted[k] in multiset(inserted);
    if inserted[k] != rule {
      assert inserted[k] in multiset(sorted[1..]);
      var m :| 0 <= m < |sorted[1..]| && sorted[1..][m] == inserted[k];
      assert Confidences(sorted)[0] >= Confidences(sorted)[m + 1];
    }
  }

  /** Rules of one confidence keep their order. */
  lemma {:induction false} SortIsStable(rules: seq<Rule>, c: real)
    ensures Filter((rule: Rule) => Confidence(rule) == c, SortByConfidence(rules)) ==
            Filter((rule: Rule) => Confidence(rule) == c, rules)
  {
    if rules != [] {
      var rest := SortByConfidence(rules[1..]);
      SortIsStable(rules[1..], c);
      SortDescends(rules[1..]);
      InsertIsStable(rules[0], rest, c);
    }
  }

  lemma {:induction false} InsertIsStable(rule: Rule, sorted: seq<Rule>, c: real)
    requires Descending(Confidences(sorted))
    ensures Filter((r: Rule) => Confidence(r) == c, Insert(rule, sorted)) ==
            (if Confidence(rule) == c then [rule] else []) + Filter((r: Rule) => Confidence(r) == c, sorted)
  {
    var same := (r: Rule) => Confidence(r) == c;
    if sorted == [] || Confidence(rule) >= Confidence(sorted[0]) {
      FilterAppend(same, [rule], sorted);
    } else {
      assert Confidences(sorted)[1..] == Confidences(sorted[1..]);
      InsertIsStable(rule, sorted[1..], c);
      FilterAppend(same, [sorted[0]], Insert(rule, sorted[1..]));
    }
  }

  // ---- Ties ----

  /** The runner-up of a ranking is within the tie distance of its head. */
  predicate Tied(ranking: seq<Rule>) {
    |ranking| >= 2 && Confidence(ranking[0]) - Confidence(ranking[1]) <= TIE_CONFIDENCE_DELTA
  }

  lemma TieIsRunnerUp(rules: seq<Rule>, haystack: string)
    ensures HasTieCandidate(Classify(rules, haystack)) <==> Tied(SortByConfidence(Matched(rules, haystack)))
  {
    SortDescends(Matched(rules, haystack));
    FinishTies(SortByConfidence(Matched(rules, haystack)),
               Map((rule: Rule) => Reject(rule, ContainsNotMatched), Missed(rules, haystack)));
  }

  lemma FinishTies(ranking: seq<Rule>, missed: seq<RejectedCandidate>)
    requires Descending(Confidences(ranking))
    requires forall k | 0 <= k < |missed| :: missed[k].reason == ContainsNotMatched
    ensures HasTieCandidate(Finish(ranking, missed)) <==> Tied(ranking)
  {
    var rejected := Finish(ranking, missed).rejected;
    forall k | |missed| <= k < |rejected|
      ensures rejected[k].reason == RankReason(ranking[0], ranking[1 + k - |missed|])
      ensures Confidence(ranking[1]) >= Confidence(ranking[1 + k - |missed|])
    {
      assert ranking[1..][k - |missed|] == ranking[1 + k - |missed|];
      assert Confidences(ranking)[1] >= Confidences(ranking)[1 + k - |missed|];
    }
    if |ranking| >= 2 {
      assert rejected[|missed|].reason == RankReason(ranking[0], ranking[1]);
    }
  }

  /** Two rankings of the same matches agree on confidences, and on the head unless it is tied. */
  lemma RankingsAgree(a: seq<Rule>, b: seq<Rule>)
    requires multiset(a) == multiset(b)
    requires Descending(Confidences(a)) && Descending(Confidences(b))
    ensures Confidences(a) == Confidences(b)
    ensures a != [] && !Tied(a) ==> a[0] == b[0]
  {
    MapMultiset(Confidence, a, b);
    DescendingIsUnique(Confidences(a), Confidences(b));
    if a != [] && a[0] != b[0] {
      assert a[0] in multiset(b);
      var k :| 0 <= k < |b| && b[k] == a[0];
      assert Confidences(b)[1] >= Confidences(b)[k] == Confidences(a)[0];
      assert Confidences(a)[1] == Confidences(b)[1];
    }
  }

  predicate AllCoded(rules: seq<Rule>) {
    forall i | 0 <= i < |rules| :: rules[i].code.Some?
  }

  lemma MatchedIsCoded(rules: seq<Rule>, haystack: string)
    requires AllCoded(rules)
    ensures AllCoded(SortByConfidence(Matched(rules, haystack)))
  {
    var ranking := SortByConfidence(Matched(rules, haystack));
    forall k | 0 <= k < |ranking| ensures ranking[k].code.Some? {
      assert ranking[k] in multiset(ranking);
      assert ranking[k] in Matched(rules, haystack);
      FilterKeeps((rule: Rule) => Matches(rule, haystack), rules, ranking[k]);
    }
  }

  /** The decision, read off the ranking alone. */
  function RankingDecision(ranking: seq<Rule>): Decision {
    if ranking == [] then Decision(Blocked, Some("no_candidate"))
    else if Tied(ranking) then Decision(NeedsReview, Some("tie_candidate"))
    else if Confidence(ranking[0]) < CLASSIFIED_CONFIDENCE then Decision(NeedsReview, Some("low_confidence"))
    else Decision(Classified, None)
  }

  lemma DecisionFollowsRanking(rules: seq<Rule>, haystack: string)
    requires AllCoded(rules)
    ensures OutcomeDecision(Classify(rules, haystack)) == RankingDecision(SortByConfidence(Matched(rules, haystack)))
    ensures Descending(Confidences(SortByConfidence(Matched(rules, haystack))))
  {
    SortDescends(Matched(rules, haystack));
    MatchedIsCoded(rules, haystack);
    TieIsRunnerUp(rules, haystack);
  }

  lemma RankingDecisionAgrees(a: seq<Rule>, b: seq<Rule>)
    requires Confidences(a) == Confidences(b)
    ensures RankingDecision(a) == RankingDecision(b)
    ensures a != [] ==> b != [] && Confidence(a[0]) == Confidence(b[0])
    ensures b != [] ==> a != []
  {
    assert |a| == |Confidences(a)| == |b|;
    if a != [] {
      assert Confidences(a)[0] == Confidences(b)[0];
      if |a| >= 2 { assert Confidences(a)[1] == Confidences(b)[1]; }
    }
  }

  /** Permuting the rules changes neither the decision nor the confidence, and changes code or risk band only
      when the decision is a tie. */
  lemma OrderIndependence(rules: seq<Rule>, permuted: seq<Rule>, haystack: string)
    requires multiset(rules) == multiset(permuted) && AllCoded(rules)
    ensures OutcomeDecision(Classify(rules, haystack)) == OutcomeDecision(Classify(permuted, haystack))
    ensures Classify(rules, haystack).confidence == Classify(permuted, haystack).confidence
    ensures OutcomeDecision(Classify(rules, haystack)).failureReason != Some("tie_candidate") ==>
              Classify(rules, haystack).selectedCode == Classify(permuted, haystack).selectedCode &&
              Classify(rules, haystack).riskBand == Classify(permuted, haystack).riskBand
  {
    PermutedIsCoded(rules, permuted);
    FilterMultiset((rule: Rule) => Matches(rule, haystack), rules, permuted);
    DecisionFollowsRanking(rules, haystack);
    DecisionFollowsRanking(permuted, haystack);
    var a, b := SortByConfidence(Matched(rules, haystack)), SortByConfidence(Matched(permuted, haystack));
    RankingsAgree(a, b);
    RankingDecisionAgrees(a, b);
  }

  lemma PermutedIsCoded(rules: seq<Rule>, permuted: seq<Rule>)
    requires multiset(rules) == multiset(permuted) && AllCoded(rules)
    ensures AllCoded(permuted)
  {
    forall k | 0 <= k < |permuted| ensures permuted[k].code.Some? {
      assert permuted[k] in multiset(rules);
    }
  }

  /** `top` is matched once, confidently, and every other match is more than the tie distance below it. */
  ghost predicate ClearWinner(matches: multiset<Rule>, top: Rule) {
    && matches[top] == 1
    && Confidence(top) >= CLASSIFIED_CONFIDENCE
    && forall other | other in matches && other != top :: Confidence(other) < Confidence(top) - TIE_CONFIDENCE_DELTA
  }

  /** A run is classified exactly when its matches have a clear winner, and the winner is what it gets. */
  lemma ClassifiedIffClearWinner(rules: seq<Rule>, haystack: string)
    requires AllCoded(rules)
    ensures OutcomeDecision(Classify(rules, haystack)).status == RunStatus.Classified <==>
            exists top :: ClearWinner(multiset(Matched(rules, haystack)), top)
    ensures forall top | ClearWinner(multiset(Matched(rules, haystack)), top) ::
              Classify(rules, haystack).selectedCode == top.code
                && Classify(rules, haystack).confidence == Confidence(top)
  {
    var matches := multiset(Matched(rules, haystack));
    var ranking := SortByConfidence(Matched(rules, haystack));
    SortDescends(Matched(rules, haystack));
    MatchedIsCoded(rules, haystack);
    TieIsRunnerUp(rules, haystack);
    assert matches == multiset(ranking);
    if OutcomeDecision(Classify(rules, haystack)).status == RunStatus.Classified {
      UntiedHeadWins(ranking);
    }
    forall top | ClearWinner(matches, top)
      ensures ranking != [] && ranking[0] == top && !Tied(ranking)
    {
      WinnerLeads(ranking, top);
    }
  }

  lemma UntiedHeadWins(ranking: seq<Rule>)
    requires ranking != [] && Descending(Confidences(ranking)) && !Tied(ranking)
    requires Confidence(ranking[0]) >= CLASSIFIED_CONFIDENCE
    ensures ClearWinner(multiset(ranking), ranking[0])
  {
    forall k | 1 <= k < |ranking| ensures Confidence(ranking[k]) < Confidence(ranking[0]) - TIE_CONFIDENCE_DELTA {
      assert Confidences(ranking)[1] >= Confidences(ranking)[k];
    }
    assert ranking == [ranking[0]] + ranking[1..];
    assert ranking[0] !in multiset(ranking[1..]);
    forall other | other in multiset(ranking) && other != ranking[0]
      ensures Confidence(other) < Confidence(ranking[0]) - TIE_CONFIDENCE_DELTA
    {
      var k :| 0 <= k < |ranking| && ranking[k] == other;
    }
  }

  lemma WinnerLeads(ranking: seq<Rule>, top: Rule)
    requires Descending(Confidences(ranking)) && ClearWinner(multiset(ranking), top)
    ensures ranking != [] && ranking[0] == top && !Tied(ranking)
  {
    assert top in multiset(ranking);
    var k :| 0 <= k < |ranking| && ranking[k] == top;
    assert Confidences(ranking)[0] >= Confidences(ranking)[k];
    assert ranking[0] in multiset(ranking);
    if |ranking| >= 2 {
      assert ranking[1] in multiset(ranking);
      assert ranking == [ranking[0], ranking[1]] + ranking[2..];
      assert multiset{ranking[0], ranking[1]} <= multiset(ranking);
    }
  }

  // ---- Which rules match, told on the characters of the product ----

  predicate StandsAt(product: string, text: string, i: nat) {
    i + |text| <= |product| && forall k | 0 <= k < |text| :: Text.SameLetter(product[i + k], text[k])
  }

  /** The text of the rule stands somewhere in the product. */
  predicate Hits(rule: Rule, product: string) {
    rule.contains.Some? && exists i | 0 <= i <= |product| :: StandsAt(product, rule.contains.value, i)
  }

  lemma LowerSame(a: char, b: char)
    ensures Text.LowerChar(a) == Text.LowerChar(b) <==> Text.SameLetter(a, b)
  {
  }

  lemma StandsLowered(product: string, text: string, i: nat)
    ensures StandsAt(product, text, i) <==> Text.OccursAt(Text.Lower(product), Text.Lower(text), i)
  {
    hide Text.LowerChar, Text.SameLetter;
    if i + |text| <= |product| {
      var here := Text.Lower(product)[i..i + |text|];
      forall k | 0 <= k < |text| ensures here[k] == Text.Lower(text)[k] <==> Text.SameLetter(product[i + k], text[k]) {
        LowerSame(product[i + k], text[k]);
      }
    }
  }

  lemma HitsIsMatches(rule: Rule, product: string)
    ensures Hits(rule, product) <==> Matches(rule, Text.Lower(product))
  {
    hide Text.OccursAt, StandsAt, Text.Lower;
    if rule.contains.Some? {
      var text := rule.contains.value;
      forall i: nat ensures StandsAt(product, text, i) <==> Text.OccursAt(Text.Lower(product), Text.Lower(text), i) {
        StandsLowered(product, text, i);
      }
      if Hits(rule, product) {
        var i :| 0 <= i <= |product| && StandsAt(product, text, i);
        OccurrenceFits(Text.Lower(product), Text.Lower(text), i);
      }
      if Matches(rule, Text.Lower(product)) {
        var i :| 0 <= i <= |Text.Lower(product)| - |Text.Lower(text)|
          && Text.OccursAt(Text.Lower(product), Text.Lower(text), i);
      }
    }
  }

  lemma OccurrenceFits(s: string, part: string, i: nat)
    requires Text.OccursAt(s, part, i)
    ensures i <= |s| - |part| && Text.Includes(s, part)
  {
  }

  function Hitting(rules: seq<Rule>, product: string): seq<Rule> {
    Filter((rule: Rule) => Hits(rule, product), rules)
  }

  lemma {:induction false} HittingIsMatched(rules: seq<Rule>, product: string)
    ensures Hitting(rules, product) == Matched(rules, Text.Lower(product))
    ensures Filter((rule: Rule) => !Hits(rule, product), rules) == Missed(rules, Text.Lower(product))
  {
    hide Hits, Matches, Text.Lower;
    if rules != [] {
      HitsIsMatches(rules[0], product);
      HittingIsMatched(rules[1..], product);
    }
  }

  function TieOrLower(best: Rule, rule: Rule): RejectedCandidate {
    RejectedCandidate(rule.code, rule.id, if Confidence(best) - Confidence(rule) <= 0.05 then TieScore else LowerScore)
  }

  /** What a successful evaluation is: the rules whose text stands in the product, ranked by falling confidence; the
      first is selected, the others are rejected as tied or lower, and exactly the other rules for their text. */
  lemma EvaluationMeans(runtime: Runtime, pack: Pack, product: string) returns (ranked: seq<Rule>)
    requires Evaluate(runtime, pack, product).Ok?
    ensures pack.rules.Some? && multiset(ranked) == multiset(Hitting(pack.rules.value, product))
    ensures forall i, j | 0 <= i < j < |ranked| :: Confidence(ranked[i]) >= Confidence(ranked[j])
    ensures var outcome := Evaluate(runtime, pack, product).value;
            var missed := Filter((rule: Rule) => !Hits(rule, product), pack.rules.value);
            var misses := Map((rule: Rule) => RejectedCandidate(rule.code, rule.id, ContainsNotMatched), missed);
            if ranked == [] then
              outcome.matchedRules == [] && outcome.selectedCode == None && outcome.rejected == misses
            else
              && outcome.matchedRules == [ranked[0]] && outcome.selectedCode == ranked[0].code
              && outcome.confidence == Confidence(ranked[0])
              && outcome.rejected == misses + Map((rule: Rule) => TieOrLower(ranked[0], rule), ranked[1..])
  {
    hide Hits, Matches, Text.Lower, Hitting;
    var rules, haystack := pack.rules.value, Text.Lower(product);
    HittingIsMatched(rules, product);
    SortDescends(Matched(rules, haystack));
    ranked := SortByConfidence(Matched(rules, haystack));
    assert forall i | 0 <= i < |ranked| :: Confidences(ranked)[i] == Confidence(ranked[i]);
    var missed := Missed(rules, haystack);
    assert Map((rule: Rule) => Reject(rule, ContainsNotMatched), missed)
        == Map((rule: Rule) => RejectedCandidate(rule.code, rule.id, ContainsNotMatched), missed);
    if ranked != [] {
      assert Map((rule: Rule) => Reject(rule, RankReason(ranked[0], rule)), ranked[1..])
          == Map((rule: Rule) => TieOrLower(ranked[0], rule), ranked[1..]);
    }
  }

  /** A pack of one rule selects it exactly on the products that hold its text. */
  lemma OneRule(rule: Rule, product: string)
    requires rule.contains.Some?
    ensures Evaluate(PRODUCTION_RUNTIME, Pack(Some([rule]), None), product) ==
            Ok(if Hits(rule, product)
               then Classification(rule.code, rule.confidence.Or(0.0), rule.riskBand.Or("medium"), [rule], [])
               else Classification(None, 0.0, "high", [], [RejectedCandidate(rule.code, rule.id, ContainsNotMatched)]))
  {
    hide Hits, Matches, Text.Lower;
    var haystack := Text.Lower(product);
    HitsIsMatches(rule, product);
    assert [rule][1..] == [];
    assert Matched([rule], haystack) == if Matches(rule, haystack) then [rule] else [];
    assert Missed([rule], haystack) == if Matches(rule, haystack) then [] else [rule];
    assert SortByConfidence([rule]) == Insert(rule, SortByConfidence([])) == [rule];
    var reject := (r: Rule) => Reject(r, ContainsNotMatched);
    assert Map(reject, [rule]) == [reject(rule)] && Map(reject, []) == [];
    assert Evaluate(PRODUCTION_RUNTIME, Pack(Some([rule]), None), product) == Ok(Classify([rule], haystack));
    if Matches(rule, haystack) {
      assert Classify([rule], haystack) == Finish([rule], []);
      assert [rule][1..] == [] && Finish([rule], []).rejected == [];
    } else {
      assert SortByConfidence([]) == [];
      assert Classify([rule], haystack) == Finish([], [reject(rule)]);
    }
  }

  const SHIRTS := Rule(Some("shirts"), Some("6205.20"), Some("shirt"), Some(0.9), Some("low"), "")

  /** A shirt by any spelling in capitals is classified, and a product without an S is blocked. */
  lemma ShirtsAreClassified(before: string, after: string, other: string)
    requires 's' !in other && 'S' !in other
    ensures var pack := Pack(Some([SHIRTS]), None);
            var hit, miss := Evaluate(PRODUCTION_RUNTIME, pack, before + "Shirt" + after),
            Evaluate(PRODUCTION_RUNTIME, pack, other);
            && hit.Ok? && hit.value.selectedCode == Some("6205.20")
            && OutcomeDecision(hit.value) == Decision(Classified, None)
            && miss.Ok? && OutcomeDecision(miss.value) == Decision(Blocked, Some("no_candidate"))
  {
    var product := before + "Shirt" + after;
    assert StandsAt(product, "shirt", |before|);
    forall i: nat | i <= |other| ensures !StandsAt(other, "shirt", i) {
      if i + 5 <= |other| { assert !Text.SameLetter(other[i + 0], "shirt"[0]); }
    }
    hide Evaluate, StandsAt;
    OneRule(SHIRTS, product);
    OneRule(SHIRTS, other);
  }

  // ---- Conservation of candidates ----

  lemma {:induction false} PartitionKeepsRules(rules: seq<Rule>, haystack: string)
    ensures multiset(Matched(rules, haystack) + Missed(rules, haystack)) == multiset(rules)
  {
    if rules != [] {
      PartitionKeepsRules(rules[1..], haystack);
      assert rules == [rules[0]] + rules[1..];
    }
  }

  lemma PresentCodesAppend(a: seq<Option<string>>, b: seq<Option<string>>)
    ensures PresentCodes(a + b) == PresentCodes(a) + PresentCodes(b)
  {
    FilterAppend((code: Option<string>) => code.Some?, a, b);
  }

  lemma PresentCodesPermuted(a: seq<Rule>, b: seq<Rule>)
    requires multiset(a) == multiset(b)
    ensures multiset(PresentCodes(Map(Code, a))) == multiset(PresentCodes(Map(Code, b)))
  {
    MapMultiset(Code, a, b);
    FilterMultiset((code: Option<string>) => code.Some?, Map(Code, a), Map(Code, b));
    MapMultiset((code: Option<string>) => code.Or(""),
                Filter((code: Option<string>) => code.Some?, Map(Code, a)),
                Filter((code: Option<string>) => code.Some?, Map(Code, b)));
  }

  /** The candidates of a finished evaluation are the codes of its ranking and of its misses. */
  lemma FinishKeepsCodes(ranking: seq<Rule>, missed: seq<Rule>)
    ensures var outcome := Finish(ranking, Map((rule: Rule) => Reject(rule, ContainsNotMatched), missed));
            multiset(CandidateCodes(outcome)) == multiset(PresentCodes(Map(Code, ranking)))
              + multiset(PresentCodes(Map(Code, missed)))
  {
    var outcome := Finish(ranking, Map((rule: Rule) => Reject(rule, ContainsNotMatched), missed));
    var rejectedCodes := Map((candidate: RejectedCandidate) => candidate.code, outcome.rejected);
    if ranking == [] {
      assert rejectedCodes == Map(Code, missed);
      assert Map(Code, ranking) == [];
    } else {
      assert rejectedCodes == Map(Code, missed) + Map(Code, ranking[1..]);
      assert Map(Code, ranking) == [ranking[0].code] + Map(Code, ranking[1..]);
      PresentCodesAppend(Map(Code, missed), Map(Code, ranking[1..]));
      PresentCodesAppend([ranking[0].code], Map(Code, ranking[1..]));
      assert PresentCodes([ranking[0].code]) == if ranking[0].code.Some? then [ranking[0].code.value] else [];
    }
  }

  lemma SelectedComesFirst(ranking: seq<Rule>, rejected: seq<RejectedCandidate>)
    ensures var outcome := Finish(ranking, rejected);
            outcome.selectedCode.Some? ==> CandidateCodes(outcome)[..1] == [outcome.selectedCode.value]
  {
    hide PresentCodes, Reject, RankReason;
  }

  /** Every code of the pack is a candidate exactly as often as the pack has it, the selected one first. */
  lemma CandidateConservation(rules: seq<Rule>, haystack: string)
    ensures multiset(CandidateCodes(Classify(rules, haystack))) == multiset(PresentCodes(Map(Code, rules)))
    ensures var outcome := Classify(rules, haystack);
            outcome.selectedCode.Some? ==> CandidateCodes(outcome)[..1] == [outcome.selectedCode.value]
  {
    hide PresentCodes, Matches, Reject, RankReason, Finish, CandidateCodes, SortByConfidence, Filter;
    var matched, missed := Matched(rules, haystack), Missed(rules, haystack);
    FinishKeepsCodes(SortByConfidence(matched), missed);
    SelectedComesFirst(SortByConfidence(matched),
                       Map((rule: Rule) => Reject(rule, ContainsNotMatched), missed));
    PresentCodesPermuted(SortByConfidence(matched), matched);
    PartitionKeepsRules(rules, haystack);
    PresentCodesPermuted(matched + missed, rules);
    assert Map(Code, matched + missed) == Map(Code, matched) + Map(Code, missed);
    PresentCodesAppend(Map(Code, matched), Map(Code, missed));
  }
}
