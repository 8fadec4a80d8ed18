/** Full mode ends, and what holds then (tools/klevar-yolo-runtime/src/runtime.ts:57-63 and 177-184). The inbox is
    empty, and only ticking writes the progress file. */
module FullMode {
  import opened Sequences
  import opened Text
  import opened ProgressFile
  import opened ProgressProperties
  import opened SupportScheduler

  datatype World = World(text: string, due: seq<string>, gates: set<string>)

  /** What a completed batch leaves: ticked items, phases newly due, and the support gate. */
  function AfterBatch(w: World, batch: Batch): World {
    var text := TickAll(w.text, batch.items);
    World(text, MarkPhaseSupportDue(w.due, batch, Items(text)),
          match batch.support
          case Some(plan) => w.gates + {SupportGateName(plan.kind, plan.scope)}
          case None => w.gates)
  }

  const SUPPORT_MARKER := "- **Support workflow:** "

  /** Open items are marked `[ ]` and stand on lines of their own, and the file quotes no support workflow, also after
      an item is ticked. */
  predicate Orderly(text: string) {
    Tidy(Lines(text)) && KeptOut(Lines(text), SUPPORT_MARKER)
  }

  /** Where no open item reads a pattern but `$$`, it is enough that no line holds the marker before. */
  lemma ContextFreeIsOrderly(text: string)
    requires Tidy(Lines(text))
             && (forall j | 0 <= j < |Lines(text)| && OpenAt(Lines(text), j) :: ContextFree(CheckedRaw(Lines(text)[j])))
             && (forall j | 0 <= j < |Lines(text)| :: !Includes(Lines(text)[j], SUPPORT_MARKER))
    ensures Orderly(text)
  {
    hide Lines, OpenAt, ContextFree, CheckedRaw, Includes, Tidy, KeptOut;
    MarkerShape();
    UnmarkedIsKeptOut(Lines(text), SUPPORT_MARKER);
  }

  // ---- The measure ----

  function Scopes(w: World): set<string> {
    (set phase | phase in w.due) + (set item | item in Items(w.text) :: item.phase) + {FINAL}
  }

  function MissingGates(w: World): set<string> {
    (set kind, scope | kind in SUPPORT_SEQUENCE && scope in Scopes(w) :: SupportGateName(kind, scope)) - w.gates
  }

  /** Unchecked items plus missing support gates over due phases, all phases and `final`. */
  function Measure(w: World): nat {
    |OpenItems(Items(w.text))| + |MissingGates(w)|
  }

  lemma {:induction false} SubsetIsSmaller(a: set<string>, b: set<string>)
    requires a <= b
    ensures |a| <= |b| && (a < b ==> |a| < |b|)
  {
    var rest := b - a;
    assert b == a + rest;
    assert |b| == |a| + |rest|;
    assert a < b ==> rest != {};
  }

  // ---- A support batch ----

  lemma SupportRawHasMarker(kind: string, scope: string, subject: string, phase: string)
    ensures Includes(MakeSupportPlan(kind, scope, subject, phase).item.raw, SUPPORT_MARKER)
  {
    hide SupportTitle, Guidance;
    var title := subject + SupportTitle(kind) + " \U{2014} PRD N/A (runtime support)";
    var head := "- [ ] [FIX] " + title + "\n  ";
    var tail := kind + "\n  " + ("- **Support scope:** " + scope) + "\n  "
      + ("- **Runtime guardrails:** " + Guidance(kind));
    var raw := MakeSupportPlan(kind, scope, subject, phase).item.raw;
    assert raw == head + SUPPORT_MARKER + tail;
    assert raw[|head|..|head| + |SUPPORT_MARKER|] == SUPPORT_MARKER;
    OccursIncludes(raw, SUPPORT_MARKER, |head|);
  }

  lemma MarkerShape()
    ensures Unmarked(SUPPORT_MARKER) && OnOneLine(SUPPORT_MARKER)
  {
  }

  lemma IncludesTransitive(a: string, b: string, c: string)
    requires Includes(a, b) && Includes(b, c)
    ensures Includes(a, c)
  {
    var i := OccurrenceIn(a, b);
    var j := OccurrenceIn(b, c);
    var inner, middle := a[i + j..i + j + |c|], a[i..i + |b|];
    assert middle == b && middle[j..j + |c|] == c;
    forall x | 0 <= x < |c| ensures inner[x] == c[x] {
      assert inner[x] == a[i + j + x] == middle[j + x];
    }
    OccursIncludes(a, c, i + j);
  }

  /** Where a support plan comes from. */
  lemma PlanShape(items: seq<ProgressItem>, due: seq<string>, gates: set<string>)
    requires NextSupportPlan(items, due, gates).Some?
    ensures var plan := NextSupportPlan(items, due, gates).value;
            && plan.kind in SUPPORT_SEQUENCE && (plan.scope in due || plan.scope == FINAL)
            && SupportGateName(plan.kind, plan.scope) !in gates
            && Includes(plan.item.raw, SUPPORT_MARKER)
  {
    hide SupportGateName, Includes, SupportTitle, Guidance;
    match NextDue(due, gates)
    case Some(pair) => SupportRawHasMarker(pair.1, pair.0, pair.0, pair.0);
    case None => SupportRawHasMarker(MissingKind(SUPPORT_SEQUENCE, FINAL, gates).value, FINAL, "Final project",
                                     "Runtime Support");
  }

  lemma SupportLeavesText(text: string, items: seq<ProgressItem>, due: seq<string>, gates: set<string>)
    requires Orderly(text) && NextSupportPlan(items, due, gates).Some?
    ensures TickAll(text, [NextSupportPlan(items, due, gates).value.item]) == text
  {
    hide Includes, Tidy, NextSupportPlan, OpenAt, TickedRaw, Lines;
    PlanShape(items, due, gates);
    MarkerShape();
    KeptOutOfText(text, SUPPORT_MARKER);
    var raw := NextSupportPlan(items, due, gates).value.item.raw;
    if Includes(text, raw) { IncludesTransitive(text, raw, SUPPORT_MARKER); }
    var one := [NextSupportPlan(items, due, gates).value.item];
    assert one[1..] == [];
    assert TickOne(text, raw) == text;
    assert TickAll(text, []) == text;
  }

  lemma SupportBatchProgresses(w: World, limit: nat)
    requires Orderly(w.text) && NextSupportPlan(Items(w.text), w.due, w.gates).Some?
    ensures var w' := AfterBatch(w, MakeBatch(Items(w.text), w.due, w.gates, limit));
            w'.text == w.text && w'.due == w.due && w.gates <= w'.gates && Measure(w') < Measure(w)
  {
    hide Orderly, NextSupportPlan, SupportGateName, TickAll, Items;
    PlanShape(Items(w.text), w.due, w.gates);
    SupportLeavesText(w.text, Items(w.text), w.due, w.gates);
    var w' := AfterBatch(w, MakeBatch(Items(w.text), w.due, w.gates, limit));
    var plan := NextSupportPlan(Items(w.text), w.due, w.gates).value;
    assert SupportGateName(plan.kind, plan.scope) in MissingGates(w) - MissingGates(w');
    SubsetIsSmaller(MissingGates(w'), MissingGates(w));
  }

  // ---- A progress batch ----

  lemma PhasesOfItems(items: seq<ProgressItem>, phase: string)
    ensures phase in PhasesOf(items) <==> phase != "" && exists i | 0 <= i < |items| :: items[i].phase == phase
  {
    var phases := Map((item: ProgressItem) => item.phase, items);
    FilterKeeps((phase: string) => phase != "", phases, phase);
    if exists i | 0 <= i < |items| :: items[i].phase == phase {
      var i :| 0 <= i < |items| && items[i].phase == phase;
      assert phases[i] == phase;
    }
  }

  lemma DueAfter(due: seq<string>, batch: Batch, items: seq<ProgressItem>, phase: string)
    requires batch.support.None?
    ensures phase in MarkPhaseSupportDue(due, batch, items) <==>
            phase in due || (phase in PhasesOf(batch.items) && PhaseDone(items, phase))
  {
    hide PhasesOf, PhaseDone;
    FilterKeeps((phase: string) => PhaseDone(items, phase), PhasesOf(batch.items), phase);
  }

  lemma AdvancedPhases(items: seq<ProgressItem>, items': seq<ProgressItem>)
    requires Advanced(items, items')
    ensures (set item | item in items' :: item.phase) == (set item | item in items :: item.phase)
  {
    var after, before := set item | item in items' :: item.phase, set item | item in items :: item.phase;
    forall phase ensures phase in after <==> phase in before {
      if phase in after {
        var i :| 0 <= i < |items'| && items'[i].phase == phase;
        assert items[i] in items && items[i].phase == phase;
      }
      if phase in before {
        var i :| 0 <= i < |items| && items[i].phase == phase;
        assert items'[i] in items' && items'[i].phase == phase;
      }
    }
  }

  lemma OpenSlice(open: seq<ProgressItem>, n: nat, items: seq<ProgressItem>)
    requires n <= |open| && open == OpenItems(items)
    ensures forall i | 0 <= i < n :: open[i] in items && !open[i].checked
  {
    forall i | 0 <= i < n ensures open[i] in items && !open[i].checked {
      OpenIsKept(items, open[i]);
    }
  }

  /** The batch ticks a non-empty prefix of the open items: fewer are open, and no scope is new. */
  lemma ProgressBatchProgresses(w: World, limit: nat)
    requires Orderly(w.text) && NextSupportPlan(Items(w.text), w.due, w.gates).None?
    requires MakeBatch(Items(w.text), w.due, w.gates, limit).items != []
    ensures var batch := MakeBatch(Items(w.text), w.due, w.gates, limit);
            var w' := AfterBatch(w, batch);
            && Orderly(w'.text) && w'.gates == w.gates && Advanced(Items(w.text), Items(w'.text))
            && batch.items <= OpenItems(Items(w.text))
            && OpenItems(Items(w'.text)) == OpenItems(Items(w.text))[|batch.items|..]
            && Scopes(w') <= Scopes(w) && Measure(w') < Measure(w)
  {
    hide Tidy, KeptOut, Lines, Scan, NextSupportPlan, AuditIsolated, TickAll, Advanced, MarkPhaseSupportDue, OpenItems,
      PhasesOf, PhaseDone,
         SupportGateName;
    var items := Items(w.text);
    var open := OpenItems(items);
    var batch := MakeBatch(items, w.due, w.gates, limit);
    var n := |batch.items|;
    assert batch.items == open[..n];
    var w' := AfterBatch(w, batch);
    TickPrefix(w.text, n);
    MarkerShape();
    TickKeepsOut(w.text, n, SUPPORT_MARKER);
    AdvancedPhases(items, Items(w'.text));
    OpenSlice(open, n, items);
    forall phase | phase in w'.due ensures phase in Scopes(w) {
      DueAfter(w.due, batch, Items(w'.text), phase);
      PhasesOfItems(batch.items, phase);
    }
    assert Scopes(w') <= Scopes(w);
    SubsetIsSmaller(MissingGates(w'), MissingGates(w));
  }

  /** No progress batch starts while a due phase lacks any of its three support gates. */
  lemma SupportComesFirst(w: World, limit: nat, phase: string, kind: string)
    requires MakeBatch(Items(w.text), w.due, w.gates, limit).support.None?
    requires phase in w.due && kind in SUPPORT_SEQUENCE
    ensures SupportGateName(kind, phase) in w.gates
  {
    hide SupportGateName, MakeSupportPlan;
  }

  // ---- What full mode owes every phase ----

  lemma {:induction false} PhasesAreNamed(lines: seq<string>, i: nat)
    ensures Scan(lines).phase != ""
    ensures i < |Scan(lines).items| ==> Scan(lines).items[i].phase != ""
  {
    hide IsFence, HeadingOf, ItemOf, DetailOf, FieldOf, ParseList, Trim;
    if lines != [] {
      PhasesAreNamed(lines[..|lines| - 1], i);
      NamedHeading(lines[|lines| - 1]);
    }
  }

  lemma NamedHeading(line: string)
    ensures HeadingOf(line).Some? ==> HeadingOf(line).value != ""
  {
    if HeadingOf(line).Some? {
      var heading := TrimStart(line[2..]);
      assert heading[0] == "Phase"[0];
      TrimStartsAlike(heading);
    }
  }

  predicate HasOpen(items: seq<ProgressItem>, phase: string) {
    exists i | 0 <= i < |items| :: items[i].phase == phase && !items[i].checked
  }

  /** A phase that had open items at the start still has some, or is due. */
  ghost predicate Owed(start: seq<ProgressItem>, w: World) {
    forall phase | HasOpen(start, phase) :: HasOpen(Items(w.text), phase) || phase in w.due
  }

  lemma {:induction false} OpenIsKept(items: seq<ProgressItem>, x: ProgressItem)
    ensures x in OpenItems(items) <==> x in items && !x.checked
  {
    FilterKeeps(IsOpenItem, items, x);
  }

  /** The batch that checks the last open item of a phase makes the phase due. */
  lemma OwedAfterBatch(w: World, limit: nat, phase: string)
    requires Orderly(w.text) && NextSupportPlan(Items(w.text), w.due, w.gates).None?
    requires MakeBatch(Items(w.text), w.due, w.gates, limit).items != []
    requires HasOpen(Items(w.text), phase)
    ensures var w' := AfterBatch(w, MakeBatch(Items(w.text), w.due, w.gates, limit));
            HasOpen(Items(w'.text), phase) || phase in w'.due
  {
    hide Orderly, Lines, Scan, NextSupportPlan, AuditIsolated, TickAll, MarkPhaseSupportDue, OpenItems, PhasesOf,
      Measure;
    ProgressBatchProgresses(w, limit);
    var batch := MakeBatch(Items(w.text), w.due, w.gates, limit);
    var w' := AfterBatch(w, batch);
    var items, items' := Items(w.text), Items(w'.text);
    var n := |batch.items|;
    var i :| 0 <= i < |items| && items[i].phase == phase && !items[i].checked;
    OpenIsKept(items, items[i]);
    var open := OpenItems(items);
    var j :| 0 <= j < |open| && open[j] == items[i];
    if j >= n {
      assert open[n..][j - n] == items[i];
      OpenIsKept(items', items[i]);
      var k :| 0 <= k < |items'| && items'[k] == items[i];
      assert HasOpen(items', phase);
    } else if !HasOpen(items', phase) {
      assert batch.items[j] == items[i];
      PhasesAreNamed(Lines(w.text), i);
      PhasesOfItems(batch.items, phase);
      assert items'[i].phase == phase;
      assert PhaseDone(items', phase);
      DueAfter(w.due, batch, items', phase);
    }
  }

  // ---- The loop ----

  datatype RunEnd = NoneLeft | Failed

  class Project {
    var text: string
    var due: seq<string>
    var gates: set<string>

    function View(): World
      reads this
    {
      World(text, due, gates)
    }

    constructor (text: string, due: seq<string>, gates: set<string>)
      ensures View() == World(text, due, gates)
    {
      this.text, this.due, this.gates := text, due, gates;
    }

    /** `runSingleBatch`, whose agents and gates either complete the batch or fail it. */
    method RunSingleBatch(limit: nat, passes: bool) returns (complete: bool, batch: Batch)
      modifies this
      ensures batch == MakeBatch(Items(old(text)), old(due), old(gates), limit)
      ensures complete == (batch.items != [] && passes)
      ensures View() == if complete then AfterBatch(old(View()), batch) else old(View())
    {
      hide Lines, Scan, TickAll, MarkPhaseSupportDue, NextSupportPlan, AuditIsolated;
      var items := ParseProgress(text);
      batch := MakeBatch(items, due, gates, limit);
      complete := batch.items != [] && passes;
      if complete {
        text := TickProgressItems(text, batch.items);
        var after := ParseProgress(text);
        due := MarkPhaseSupportDue(due, batch, after);
        if batch.support.Some? {
          gates := gates + {SupportGateName(batch.support.value.kind, batch.support.value.scope)};
        }
      }
    }

    /** The full-mode loop of `runYolo`: it ends within as many batches as the measure counts. When nothing is left,
        every item is checked, every due phase and the project as a whole have their support gates, and so has every
        phase that had an open item at the start. */
    method RunFull(limit: nat, passes: nat -> bool) returns (end: RunEnd, batches: nat)
      requires Orderly(text) && limit > 0
      modifies this
      ensures batches <= Measure(old(View()))
      ensures end.NoneLeft? ==> OpenItems(Items(text)) == []
      ensures end.NoneLeft? ==>
                forall scope, kind | (scope in due || scope == FINAL || HasOpen(Items(old(text)), scope))
                  && kind in SUPPORT_SEQUENCE ::
                  SupportGateName(kind, scope) in gates
    {
      hide Orderly, Lines, Scan, TickAll, MarkPhaseSupportDue, NextSupportPlan, AuditIsolated, Measure, OpenItems,
        HasOpen, SupportGateName;
      ghost var start := Items(text);
      batches := 0;
      while true
        invariant Orderly(text) && Owed(start, View())
        invariant batches + Measure(View()) <= Measure(old(View()))
        decreases Measure(View())
      {
        ghost var before := View();
        var complete, batch := RunSingleBatch(limit, passes(batches));
        if batch.items == [] {
          NothingLeft(before, limit);
          forall phase | HasOpen(start, phase) ensures phase in due {
            NoneOpen(Items(text), phase);
          }
          return NoneLeft, batches;
        }
        if !complete {
          return Failed, batches;
        }
        BatchProgresses(before, limit, start);
        batches := batches + 1;
      }
    }
  }

  lemma BatchProgresses(w: World, limit: nat, start: seq<ProgressItem>)
    requires Orderly(w.text) && Owed(start, w)
    requires MakeBatch(Items(w.text), w.due, w.gates, limit).items != []
    ensures var w' := AfterBatch(w, MakeBatch(Items(w.text), w.due, w.gates, limit));
            Orderly(w'.text) && Owed(start, w') && Measure(w') < Measure(w)
  {
    hide Orderly, Lines, Scan, TickAll, MarkPhaseSupportDue, NextSupportPlan, AuditIsolated, Measure, OpenItems,
      HasOpen, SupportGateName,
         Scopes, Advanced;
    var w' := AfterBatch(w, MakeBatch(Items(w.text), w.due, w.gates, limit));
    if NextSupportPlan(Items(w.text), w.due, w.gates).Some? {
      SupportBatchProgresses(w, limit);
    } else {
      ProgressBatchProgresses(w, limit);
      forall phase | HasOpen(start, phase) ensures HasOpen(Items(w'.text), phase) || phase in w'.due {
        if HasOpen(Items(w.text), phase) {
          OwedAfterBatch(w, limit, phase);
        } else {
          DueAfter(w.due, MakeBatch(Items(w.text), w.due, w.gates, limit), Items(w'.text), phase);
        }
      }
    }
  }

  lemma NoneOpen(items: seq<ProgressItem>, phase: string)
    requires OpenItems(items) == []
    ensures !HasOpen(items, phase)
  {
    if HasOpen(items, phase) {
      var i :| 0 <= i < |items| && items[i].phase == phase && !items[i].checked;
      OpenIsKept(items, items[i]);
    }
  }

  /** An empty batch means nothing is open and no due or final gate is missing. */
  lemma NothingLeft(w: World, limit: nat)
    requires MakeBatch(Items(w.text), w.due, w.gates, limit).items == [] && limit > 0
    ensures OpenItems(Items(w.text)) == []
    ensures forall scope, kind | (scope in w.due || scope == FINAL) && kind in SUPPORT_SEQUENCE ::
            SupportGateName(kind, scope) in w.gates
  {
    hide SupportGateName, MakeSupportPlan, Lines, Scan, OpenItems;
    var items := Items(w.text);
    assert OpenItems(items) == [];
    forall i | 0 <= i < |items| ensures items[i].checked {
      OpenIsKept(items, items[i]);
    }
  }
}
