/** When support workflows are due, which one comes next, and what isolates an audit item
    (tools/klevar-yolo-runtime/src/support-scheduler.ts, tools/klevar-yolo-runtime/src/progress-parser.ts:53-63). */
module SupportProperties {
  import opened Wrappers
  import opened Sequences
  import opened Text
  import opened ProgressFile
  import opened SupportScheduler

  // ---- Due phases ----

  /** After a batch exactly these phases are due: those that were, and those of its progress items, with a name, whose
      items in the file are all checked. A support batch makes none due. */
  lemma DueMeans(due: seq<string>, batch: Batch, items: seq<ProgressItem>, phase: string)
    ensures phase in MarkPhaseSupportDue(due, batch, items) <==>
            || phase in due
            || (&& batch.support.None? && phase != ""
                && (exists b | 0 <= b < |batch.items| :: batch.items[b].phase == phase)
                && (exists i | 0 <= i < |items| :: items[i].phase == phase)
                && forall i | 0 <= i < |items| && items[i].phase == phase :: items[i].checked)
  {
    hide PhaseDone;
    var phases := Map((item: ProgressItem) => item.phase, batch.items);
    var named := Filter((p: string) => p != "", phases);
    var done := (p: string) => PhaseDone(items, p);
    var completed := Filter(done, PhasesOf(batch.items));
    UniqueHolds(named, phase);
    FilterKeeps((p: string) => p != "", phases, phase);
    FilterKeeps(done, PhasesOf(batch.items), phase);
    UniqueHolds(due + completed, phase);
    assert phase in phases <==> exists b | 0 <= b < |batch.items| :: batch.items[b].phase == phase;
    DoneMeans(items, phase);
  }

  lemma DoneMeans(items: seq<ProgressItem>, phase: string)
    ensures PhaseDone(items, phase) <==>
            && (exists i | 0 <= i < |items| :: items[i].phase == phase)
            && forall i | 0 <= i < |items| && items[i].phase == phase :: items[i].checked
  {
  }

  // ---- The next support workflow ----

  predicate Lacks(gates: set<string>, scope: string) {
    exists k | 0 <= k < |SUPPORT_SEQUENCE| :: SupportGateName(SUPPORT_SEQUENCE[k], scope) !in gates
  }

  lemma DueLacks(due: seq<string>, gates: set<string>)
    ensures NextDue(due, gates).Some? <==> exists d | 0 <= d < |due| :: Lacks(gates, due[d])
  {
    hide SupportGateName;
    if NextDue(due, gates).Some? {
      var pair := NextDue(due, gates).value;
      var d :| 0 <= d < |due| && due[d] == pair.0;
      assert Lacks(gates, due[d]);
    } else {
      forall d | 0 <= d < |due| ensures !Lacks(gates, due[d]) {
        assert due[d] in due;
        KindsAreListed();
      }
    }
  }

  lemma KindsAreListed()
    ensures forall k | 0 <= k < |SUPPORT_SEQUENCE| :: SUPPORT_SEQUENCE[k] in SUPPORT_SEQUENCE
  {
  }

  lemma KindLacks(scope: string, gates: set<string>)
    ensures MissingKind(SUPPORT_SEQUENCE, scope, gates).Some? <==> Lacks(gates, scope)
  {
    hide SupportGateName, MissingKind;
    KindsAreListed();
    var kind := MissingKind(SUPPORT_SEQUENCE, scope, gates);
    if kind.Some? {
      var k :| 0 <= k < |SUPPORT_SEQUENCE| && SUPPORT_SEQUENCE[k] == kind.value;
      assert SupportGateName(SUPPORT_SEQUENCE[k], scope) !in gates;
    }
  }

  /** A support workflow comes next exactly when a due phase lacks a gate, or when everything is checked and the whole
      project lacks one; the phases go first. */
  lemma NextSupportMeans(items: seq<ProgressItem>, due: seq<string>, gates: set<string>)
    ensures var plan := NextSupportPlan(items, due, gates);
            var phase := exists d | 0 <= d < |due| :: Lacks(gates, due[d]);
            var final := (forall i | 0 <= i < |items| :: items[i].checked) && Lacks(gates, FINAL);
            && (plan.Some? <==> phase || final)
            && (plan.Some? ==>
                  && plan.value.kind in SUPPORT_SEQUENCE
                  && SupportGateName(plan.value.kind, plan.value.scope) !in gates
                  && if phase then plan.value.scope in due else plan.value.scope == FINAL)
  {
    hide SupportGateName, Lacks, MissingKind, NextDue, Guidance, SupportTitle;
    DueLacks(due, gates);
    KindLacks(FINAL, gates);
  }

  // ---- The stem of a gate name ----

  function LettersOf(s: string): string {
    Filter(IsStemChar, s)
  }

  /** Letters and digits, and single dashes between them. */
  predicate IsStem(s: string) {
    && s != "" && s[0] != '-' && s[|s| - 1] != '-'
    && (forall i | 0 <= i < |s| :: 'a' <= s[i] <= 'z' || '0' <= s[i] <= '9' || s[i] == '-')
    && forall i | 0 <= i < |s| - 1 && s[i] == '-' :: s[i + 1] != '-'
  }

  predicate IsDashed(s: string) {
    && (forall i | 0 <= i < |s| :: 'a' <= s[i] <= 'z' || '0' <= s[i] <= '9' || s[i] == '-')
    && forall i | 0 <= i < |s| - 1 && s[i] == '-' :: s[i + 1] != '-'
  }

  lemma LettersTogether(a: string, b: string)
    ensures LettersOf(a + b) == LettersOf(a) + LettersOf(b)
  {
    FilterAppend(IsStemChar, a, b);
  }

  lemma OneLetter(c: char)
    ensures LettersOf([c]) == if 'a' <= c <= 'z' || '0' <= c <= '9' then [c] else ""
  {
  }

  lemma {:induction false} DashedKeeps(s: string)
    ensures IsDashed(Dashed(s)) && LettersOf(Dashed(s)) == LettersOf(s)
  {
    hide LettersOf;
    if s == "" {
    } else {
      var front, last := s[..|s| - 1], s[|s| - 1];
      DashedKeeps(front);
      assert s == front + [last];
      LettersTogether(front, [last]);
      OneLetter(last);
      LettersTogether(Dashed(front), [last]);
      LettersTogether(Dashed(front), "-");
      OneLetter('-');
    }
  }

  lemma {:induction false} DroppedKeeps(s: string)
    requires IsDashed(s)
    ensures var r := DropDashes(s);
            IsDashed(r) && LettersOf(r) == LettersOf(s) && (r != "" ==> r[0] != '-' && r[|r| - 1] != '-')
  {
    hide LettersOf;
    OneLetter('-');
    if s != "" && s[0] == '-' {
      assert s == "-" + s[1..];
      LettersTogether("-", s[1..]);
      DroppedKeeps(s[1..]);
    } else if s != "" && s[|s| - 1] == '-' {
      assert s == s[..|s| - 1] + "-";
      LettersTogether(s[..|s| - 1], "-");
      DroppedKeeps(s[..|s| - 1]);
    }
  }

  lemma {:induction false} NoLetters(s: string)
    requires IsDashed(s) && LettersOf(s) == ""
    ensures DropDashes(s) == ""
  {
    hide LettersOf;
    if s != "" {
      assert s == [s[0]] + s[1..];
      LettersTogether([s[0]], s[1..]);
      OneLetter(s[0]);
      NoLetters(s[1..]);
    }
  }

  /** A stem keeps the letters and digits of the scope, in lower case and in order; without any it is `project`. */
  lemma StemMeans(scope: string)
    ensures IsStem(SafeScope(scope))
    ensures if LettersOf(Lower(scope)) == "" then SafeScope(scope) == "project"
            else LettersOf(SafeScope(scope)) == LettersOf(Lower(scope))
  {
    hide LettersOf, Lower, Dashed, DropDashes;
    DashedKeeps(Lower(scope));
    DroppedKeeps(Dashed(Lower(scope)));
    if LettersOf(Lower(scope)) == "" { NoLetters(Dashed(Lower(scope))); }
    assert LettersOf("") == "" by { NoLettersInNothing(); }
    assert IsStem("project");
  }

  lemma NoLettersInNothing()
    ensures LettersOf("") == ""
  {
  }

  // ---- Audit items ----

  /** An item is isolated by its tag, whatever it says. */
  lemma TagIsolates(item: ProgressItem)
    requires item.tag == "[AUDIT]"
    ensures IsAuditItem(item) && AuditIsolated([item], 5) == [item]
    ensures forall rest: seq<ProgressItem>, limit: nat :: AuditIsolated([item] + rest, limit) == [item]
  {
    hide IsPhaseCloseout, IsMatrixCoverageAudit;
    forall rest: seq<ProgressItem>, limit: nat ensures AuditIsolated([item] + rest, limit) == [item] {
      assert ([item] + rest)[0] == item;
    }
  }

  /** So does the close-out of a phase, */
  lemma CloseOutIsolates(item: ProgressItem)
    requires item.title == "Phase 1 close-out"
    ensures IsAuditItem(item)
  {
    hide Lower, CloseOutAt;
    var text := Lower(item.title + "\n" + item.raw);
    LowerStarts(item.raw);
    CloseOutStands(text);
    assert CloseOutAt(text, 0);
  }

  lemma LowerStarts(raw: string)
    ensures var text := Lower("Phase 1 close-out" + "\n" + raw); |text| >= 17 && text[..17] == "phase 1 close-out"
  {
    var title, lowered := "Phase 1 close-out", "phase 1 close-out";
    var text := Lower(title + "\n" + raw);
    forall k | 0 <= k < 17 ensures text[k] == lowered[k] { assert (title + "\n" + raw)[k] == title[k]; }
  }

  lemma CloseOutStands(text: string)
    requires |text| >= 17 && text[..17] == "phase 1 close-out"
    ensures CloseOutAt(text, 0)
  {
    hide TrimStart, DropDigits;
    var rest := text[17..];
    assert text == "phase 1 close-out" + rest && text[0..] == text;
    CloseOutParts();
    TailOf("phase 1 close-out", rest, 5);
    assert text[..5] == "phase 1 close-out"[..5] == "phase";
    AfterPhase(rest);
    assert ("close-out" + rest)[..9] == "close-out";
  }

  lemma CloseOutParts()
    ensures |"phase 1 close-out"| == 17 && "phase 1 close-out"[..5] == "phase"
            && "phase 1 close-out"[5..] == " 1 close-out"
  {
  }

  lemma AfterPhase(rest: string)
    ensures TrimStart(" 1 close-out" + rest) == "1 close-out" + rest
    ensures DropDigits("1 close-out" + rest) == " close-out" + rest
    ensures TrimStart(" close-out" + rest) == "close-out" + rest
    ensures |" 1 close-out"| == 12 && |"1 close-out"| == 11 && |" close-out"| == 10 && |"close-out"| == 9
  {
    TailOf(" 1 close-out", rest, 1);
    TailOf("1 close-out", rest, 1);
    TailOf(" close-out", rest, 1);
    assert " 1 close-out"[1..] == "1 close-out" && "1 close-out"[1..] == " close-out";
    assert " close-out"[1..] == "close-out";
  }

  lemma TailOf(a: string, b: string, k: nat)
    requires k <= |a|
    ensures (a + b)[k..] == a[k..] + b
  {
  }

  /** and an audit of matrix coverage. */
  lemma MatrixIsolates(item: ProgressItem, front: string, rest: string)
    requires Lower(JoinLines(item.details)) == front + PHRASE + rest
    ensures IsAuditItem(item)
  {
    hide Lower, MatrixAt, IsPhaseCloseout;
    MatrixStands(front, rest);
  }

  const PHRASE := "audit type:** matrix-coverage"

  /** The phrase, part by part. */
  lemma PhraseParts()
    ensures PHRASE == "audit" + " " + "type:**" + " " + "matrix-coverage"
    ensures |"audit"| == 5 && |"type:**"| == 7 && |"matrix-coverage"| == 15
    ensures "audit"[0] == 'a' && "type:**"[0] == 't' && "matrix-coverage"[0] == 'm'
  {
  }

  lemma SpaceIsTrimmed(word: string, rest: string)
    requires word != "" && !IsSpace(word[0])
    ensures TrimStart(" " + word + rest) == word + rest
  {
    assert (" " + word + rest)[1..] == word + rest;
  }

  /** Three words in a text, with single spaces between them. */
  lemma ThreeWords(front: string, a: string, b: string, c: string, rest: string)
    ensures var text := front + (a + " " + b + " " + c) + rest;
            && text[|front|..] == a + (" " + b + (" " + c + rest))
            && text[|front| + |a|..] == " " + b + (" " + c + rest)
            && (b + (" " + c + rest))[|b|..] == " " + c + rest
  {
    var tail := " " + b + (" " + c + rest);
    assert front + (a + " " + b + " " + c) + rest == front + (a + tail);
    TailOf(front, a + tail, |front|);
    assert (front + (a + tail))[|front| + |a|..] == tail;
  }

  lemma Prefixed(a: string, b: string)
    ensures StartsWith(a + b, a)
  {
  }

  lemma MatrixStands(front: string, rest: string)
    ensures MatrixAt(front + PHRASE + rest, |front|)
  {
    hide TrimStart, StartsWith;
    PhraseParts();
    ThreeWords(front, "audit", "type:**", "matrix-coverage", rest);
    SpaceIsTrimmed("type:**", " " + "matrix-coverage" + rest);
    SpaceIsTrimmed("matrix-coverage", rest);
    Prefixed("audit", " " + "type:**" + (" " + "matrix-coverage" + rest));
    Prefixed("type:**", " " + "matrix-coverage" + rest);
    Prefixed("matrix-coverage", rest);
  }
}
