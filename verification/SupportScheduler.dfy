/** Which batch full mode runs next: due support workflows before progress items
    (tools/klevar-yolo-runtime/src/support-scheduler.ts, tools/klevar-yolo-runtime/src/progress-parser.ts:44-88,
    tools/klevar-yolo-runtime/src/runtime.ts:677-689). */
module SupportScheduler {
  import opened Wrappers
  import opened Sequences
  import opened Text
  import opened ProgressFile

  const SUPPORT_SEQUENCE: seq<string> := ["modularity", "validate-prd", "security-audit"]
  const FINAL := "final"

  datatype SupportPlan = SupportPlan(kind: string, scope: string, item: ProgressItem)

  datatype Batch = Batch(items: seq<ProgressItem>, support: Option<SupportPlan>)

  // ---- Gate names ----

  predicate IsStemChar(c: char) { 'a' <= c <= 'z' || '0' <= c <= '9' }

  /** `replace(/[^a-z0-9]+/g, "-")` */
  function Dashed(s: string): string {
    if s == "" then ""
    else
      var front, last := Dashed(s[..|s| - 1]), s[|s| - 1];
      if IsStemChar(last) then front + [last]
      else if front != "" && front[|front| - 1] == '-' then front
      else front + "-"
  }

  function DropDashes(s: string): string {
    if s != "" && s[0] == '-' then DropDashes(s[1..])
    else if s != "" && s[|s| - 1] == '-' then DropDashes(s[..|s| - 1])
    else s
  }

  function SafeScope(scope: string): string {
    var stem := DropDashes(Dashed(Lower(scope)));
    if stem == "" then "project" else stem
  }

  function SupportGateName(kind: string, scope: string): string {
    "support-" + kind + "-" + SafeScope(scope) + ".md"
  }

  /** Two support gates have one name exactly when they are of one kind and for scopes with one stem. */
  lemma GateNamesDiffer(kind: string, scope: string, kind': string, scope': string)
    requires kind in SUPPORT_SEQUENCE && kind' in SUPPORT_SEQUENCE
    ensures SupportGateName(kind, scope) == SupportGateName(kind', scope') <==>
            kind == kind' && SafeScope(scope) == SafeScope(scope')
  {
    hide SafeScope;
    var a, b := SupportGateName(kind, scope), SupportGateName(kind', scope');
    assert "modularity"[0] == 'm' && "validate-prd"[0] == 'v' && "security-audit"[0] == 's';
    assert a == "support-" + (kind + "-" + SafeScope(scope) + ".md");
    assert b == "support-" + (kind' + "-" + SafeScope(scope') + ".md");
    assert a[8] == kind[0] && b[8] == kind'[0];
    if a == b {
      var n := 8 + |kind| + 1;
      assert a[n..] == SafeScope(scope) + ".md" && b[n..] == SafeScope(scope') + ".md";
      SameStem(SafeScope(scope), SafeScope(scope'));
    }
  }

  lemma SameStem(a: string, b: string)
    requires a + ".md" == b + ".md"
    ensures a == b
  {
    assert |a| == |b|;
    assert a == (a + ".md")[..|a|] && b == (b + ".md")[..|b|];
  }

  // ---- Plans ----

  function SupportTitle(kind: string): string {
    if kind == "modularity" then " support \U{2014} run modularity check and safe refactor sweep"
    else if kind == "validate-prd" then " support \U{2014} run PRD validation sweep"
    else " support \U{2014} run security audit sweep"
  }

  function Guidance(kind: string): string {
    if kind == "modularity" then
      "Run structural/modularity checks. Only refactor when an objective violation is found. " +
      "Preserve behavior and public contracts; run targeted and full regression evidence."
    else if kind == "validate-prd" then
      "Compare implementation against docs/progress.md and the PRD. " +
      "Fix only objective gaps or record human/manual criteria clearly."
    else
      "Run a security/privacy/secrets/access-control audit. Fix only objective findings with tests or document " +
      "manual follow-up when runtime evidence is impossible."
  }

  function MakeSupportPlan(kind: string, scope: string, subject: string, phase: string): SupportPlan {
    var title := subject + SupportTitle(kind) + " \U{2014} PRD N/A (runtime support)";
    var workflow, target := "- **Support workflow:** " + kind, "- **Support scope:** " + scope;
    var guardrails := "- **Runtime guardrails:** " + Guidance(kind);
    var raw := "- [ ] [FIX] " + title + "\n  " + workflow + "\n  " + target + "\n  " + guardrails;
    SupportPlan(kind, scope, ProgressItem(raw, "[FIX]", title, phase, false, [workflow, target, guardrails], [], None))
  }

  /** The first kind whose gate for the scope is missing. */
  function MissingKind(kinds: seq<string>, scope: string, gates: set<string>): (r: Option<string>)
    ensures r.Some? ==> r.value in kinds && SupportGateName(r.value, scope) !in gates
    ensures r.None? ==> forall kind | kind in kinds :: SupportGateName(kind, scope) in gates
  {
    if kinds == [] then None
    else if SupportGateName(kinds[0], scope) !in gates then Some(kinds[0])
    else MissingKind(kinds[1..], scope, gates)
  }

  /** `nextDuePhaseSupport` */
  function NextDue(due: seq<string>, gates: set<string>): (r: Option<(string, string)>)
    ensures r.Some? ==>
              r.value.0 in due && r.value.1 in SUPPORT_SEQUENCE && SupportGateName(r.value.1, r.value.0) !in gates
    ensures r.None? ==> forall phase, kind | phase in due && kind in SUPPORT_SEQUENCE ::
            SupportGateName(kind, phase) in gates
  {
    if due == [] then None
    else
      match MissingKind(SUPPORT_SEQUENCE, due[0], gates)
      case Some(kind) => Some((due[0], kind))
      case None => NextDue(due[1..], gates)
  }

  /** `nextSupportPlan` */
  function NextSupportPlan(items: seq<ProgressItem>, due: seq<string>, gates: set<string>): Option<SupportPlan> {
    match NextDue(due, gates)
    case Some(pair) => Some(MakeSupportPlan(pair.1, pair.0, pair.0, pair.0))
    case None =>
      if exists i | 0 <= i < |items| :: !items[i].checked then None
      else
        match MissingKind(SUPPORT_SEQUENCE, FINAL, gates)
        case Some(kind) => Some(MakeSupportPlan(kind, FINAL, "Final project", "Runtime Support"))
        case None => None
  }

  /** The method of the due-phase loops. */
  method NextDuePhaseSupport(due: seq<string>, gates: set<string>) returns (r: Option<(string, string)>)
    ensures r == NextDue(due, gates)
  {
    hide SupportGateName;
    for n := 0 to |due|
      invariant NextDue(due, gates) == NextDue(due[n..], gates)
    {
      for m := 0 to |SUPPORT_SEQUENCE|
        invariant MissingKind(SUPPORT_SEQUENCE, due[n], gates) == MissingKind(SUPPORT_SEQUENCE[m..], due[n], gates)
      {
        if SupportGateName(SUPPORT_SEQUENCE[m], due[n]) !in gates {
          return Some((due[n], SUPPORT_SEQUENCE[m]));
        }
        assert SUPPORT_SEQUENCE[m..][1..] == SUPPORT_SEQUENCE[m + 1..];
      }
      assert due[n..][1..] == due[n + 1..];
    }
    r := None;
  }

  // ---- Due phases ----

  predicate PhaseDone(items: seq<ProgressItem>, phase: string) {
    && (exists i | 0 <= i < |items| :: items[i].phase == phase)
    && (forall i | 0 <= i < |items| && items[i].phase == phase :: items[i].checked)
  }

  function PhasesOf(items: seq<ProgressItem>): seq<string> {
    Unique(Filter((phase: string) => phase != "", Map((item: ProgressItem) => item.phase, items)))
  }

  /** `markPhaseSupportDue` */
  function MarkPhaseSupportDue(due: seq<string>, batch: Batch, items: seq<ProgressItem>): seq<string> {
    if batch.support.Some? then due
    else
      var completed := Filter((phase: string) => PhaseDone(items, phase), PhasesOf(batch.items));
      if completed == [] then due else Unique(due + completed)
  }

  // ---- Selecting progress items ----

  function DropDigits(s: string): string {
    if s != "" && '0' <= s[0] <= '9' then DropDigits(s[1..]) else s
  }

  /** `/phase\s+\d+\s+close-out/i` from position `i` on. */
  predicate CloseOutAt(text: string, i: nat) {
    && i <= |text| && StartsWith(text[i..], "phase")
    && var number := TrimStart(text[i + 5..]);
       var rest := DropDigits(number);
       |number| < |text| - i - 5 && |rest| < |number| && |TrimStart(rest)| < |rest|
         && StartsWith(TrimStart(rest), "close-out")
  }

  predicate IsPhaseCloseout(item: ProgressItem) {
    var text := Lower(item.title + "\n" + item.raw);
    exists i | 0 <= i <= |text| :: CloseOutAt(text, i)
  }

  /** `/audit\s+type:\*\*\s*matrix-coverage/i` from position `i` on. */
  predicate MatrixAt(text: string, i: nat) {
    && i <= |text| && StartsWith(text[i..], "audit")
    && var kind := TrimStart(text[i + 5..]);
       |kind| < |text| - i - 5 && StartsWith(kind, "type:**") && StartsWith(TrimStart(kind[7..]), "matrix-coverage")
  }

  predicate IsMatrixCoverageAudit(item: ProgressItem) {
    var details := Lower(JoinLines(item.details));
    (exists i | 0 <= i <= |details| :: MatrixAt(details, i)) || Includes(Lower(item.raw), "matrix-coverage")
  }

  predicate IsAuditItem(item: ProgressItem) {
    item.tag == "[AUDIT]" || IsPhaseCloseout(item) || IsMatrixCoverageAudit(item)
  }

  /** The items before the first audit item. */
  function BeforeAudit(items: seq<ProgressItem>): (r: seq<ProgressItem>)
    ensures r <= items && (|r| < |items| ==> IsAuditItem(items[|r|]))
  {
    if items == [] || IsAuditItem(items[0]) then [] else [items[0]] + BeforeAudit(items[1..])
  }

  /** `auditIsolated`: an audit item alone, or up to `limit` items before the next audit item. */
  function AuditIsolated(items: seq<ProgressItem>, limit: nat): (r: seq<ProgressItem>)
    ensures r <= items && (items != [] && limit > 0 ==> r != [])
    ensures forall i | 0 < i < |r| :: !IsAuditItem(r[i])
    ensures |r| > 1 ==> !IsAuditItem(r[0])
    ensures |r| <= limit || (|r| == 1 && IsAuditItem(r[0]))
    ensures |r| < |items| && |r| < limit ==> IsAuditItem(items[|r|]) || IsAuditItem(items[0])
  {
    if items == [] then []
    else if IsAuditItem(items[0]) then [items[0]]
    else
      var candidates := BeforeAudit(items);
      NoAuditBefore(items);
      if limit < |candidates| then candidates[..limit] else candidates
  }

  lemma NoAuditBefore(items: seq<ProgressItem>)
    ensures forall i | 0 <= i < |BeforeAudit(items)| :: !IsAuditItem(BeforeAudit(items)[i])
  {
    hide IsAuditItem;
  }

  /** `makeBatch` in full mode with an empty inbox. */
  function MakeBatch(items: seq<ProgressItem>, due: seq<string>, gates: set<string>, limit: nat): Batch {
    match NextSupportPlan(items, due, gates)
    case Some(plan) => Batch([plan.item], Some(plan))
    case None => Batch(AuditIsolated(OpenItems(items), limit), None)
  }
}
