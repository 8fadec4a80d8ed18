/** docs/progress.md: reading its items and ticking them off (tools/klevar-yolo-runtime/src/progress-parser.ts:4-34 and
    53-63, tools/klevar-yolo-runtime/src/progress-updater.ts). */
module ProgressFile {
  import opened Wrappers
  import opened Sequences
  import opened Text

  datatype ProgressItem = ProgressItem(raw: string, tag: string, title: string, phase: string, checked: bool,
                                       details: seq<string>, affectedFiles: seq<string>, claim: Option<string>)

  predicate IsOpenItem(item: ProgressItem) { !item.checked }

  function OpenItems(items: seq<ProgressItem>): seq<ProgressItem> {
    Filter(IsOpenItem, items)
  }

  // ---- JavaScript string replacement ----

  /** `s.indexOf(part)` */
  function IndexOf(s: string, part: string): (r: Option<nat>)
    ensures r.Some? ==> OccursAt(s, part, r.value) && forall i: nat | i < r.value :: !OccursAt(s, part, i)
    ensures r.None? ==> forall i: nat :: !OccursAt(s, part, i)
  {
    if OccursAt(s, part, 0) then Some(0)
    else if s == "" then None
    else
      var r := IndexOf(s[1..], part);
      ShiftOccurrences(s, part);
      if r.Some? then Some(r.value + 1) else None
  }

  lemma ShiftOccurrences(s: string, part: string)
    requires s != ""
    ensures forall i: nat {:trigger OccursAt(s, part, i)} | i > 0 :: OccursAt(s, part, i) <==>
            OccursAt(s[1..], part, i - 1)
  {
    forall i: nat | i > 0 ensures OccursAt(s, part, i) <==> OccursAt(s[1..], part, i - 1) {
      if i + |part| <= |s| {
        var here, there := s[i..i + |part|], s[1..][i - 1..i - 1 + |part|];
        assert forall x | 0 <= x < |part| :: here[x] == s[i + x] && there[x] == s[i + x];
        assert here == there;
      }
    }
  }

  /** The patterns `$$`, `$&`, `$\`` and `$'` of a replacement string. */
  function Expand(replacement: string, matched: string, before: string, after: string): string {
    if replacement == "" then ""
    else if replacement[0] == '$' && |replacement| > 1 && replacement[1] in "$&`'" then
      (match replacement[1]
       case '$' => "$"
       case '&' => matched
       case '`' => before
       case _ => after) + Expand(replacement[2..], matched, before, after)
    else [replacement[0]] + Expand(replacement[1..], matched, before, after)
  }

  /** `s.replace(part, replacement)` */
  function ReplaceFirst(s: string, part: string, replacement: string): string {
    match IndexOf(s, part)
    case None => s
    case Some(i) => s[..i] + Expand(replacement, part, s[..i], s[i + |part|..]) + s[i + |part|..]
  }

  // ---- Lines ----

  /** `text.split(/\r?\n/)` */
  function Lines(text: string): (r: seq<string>)
    ensures r != []
    decreases |text|
  {
    var line := Before(text, '\n');
    if |line| == |text| then [line] else [ChopReturn(line)] + Lines(text[|line| + 1..])
  }

  function ChopReturn(line: string): string {
    if line != "" && line[|line| - 1] == '\r' then line[..|line| - 1] else line
  }

  predicate IsFence(line: string) {
    StartsWith(Trim(line), "```")
  }

  /** `/^##\s+(Phase[^\n]+)/` */
  function HeadingOf(line: string): Option<string> {
    if !StartsWith(line, "##") then None
    else
      var heading := TrimStart(line[2..]);
      if |heading| < |line| - 2 && |heading| > |"Phase"| && StartsWith(heading, "Phase") then Some(Trim(heading))
        else None
  }

  /** The length of the run of tag letters `s` starts with. */
  function TagLetters(s: string): (n: nat)
    ensures n <= |s|
  {
    if s != "" && ('A' <= s[0] <= 'Z' || s[0] == '-') then 1 + TagLetters(s[1..]) else 0
  }

  /** The tag `[A-Z-]+` in brackets at the start of `s`, or "". */
  function TagOf(s: string): (tag: string)
    ensures tag <= s
  {
    if s == "" || s[0] != '[' then ""
    else
      var n := TagLetters(s[1..]);
      if n > 0 && n + 1 < |s| && s[n + 1] == ']' then s[..n + 2] else ""
  }

  /** `\s+(.+)$` */
  predicate IsTitle(s: string) {
    && s != "" && IsSpace(s[0])
    && (if TrimStart(s) != "" then OneLine(TrimStart(s)) else |s| >= 2 && OneLine(s[|s| - 1..]))
  }

  datatype ItemLine = ItemLine(mark: char, tag: string, title: string)

  /** `/^- \[( |x|\/)\]\s+(\[[A-Z-]+\])\s+(.+)$/` */
  function ItemOf(line: string): Option<ItemLine> {
    if |line| < 5 || line[..3] != "- [" || line[4] != ']' || (line[3] != ' ' && line[3] != 'x' && line[3] != '/') then
      None
    else
      match BodyOf(line[5..])
      case Some(body) => Some(ItemLine(line[3], body.0, body.1))
      case None => None
  }

  /** The tag and the title after the box. */
  function BodyOf(rest: string): Option<(string, string)> {
    var body := TrimStart(rest);
    var tag := TagOf(body);
    if |body| == |rest| || tag == "" || !IsTitle(body[|tag|..]) then None else Some((tag, Trim(body[|tag|..])))
  }

  /** What follows the dash of a line that starts like `  - **`. */
  function DetailOf(line: string): Option<string> {
    var dashed := TrimStart(line);
    if |dashed| == |line| || dashed == "" || dashed[0] != '-' then None
    else
      var detail := TrimStart(dashed[1..]);
      if |detail| < |dashed| - 1 && StartsWith(detail, "**") then Some(detail) else None
  }

  /** The capture of `/^\s+-\s+\*\*label:\*\*\s*(.+)$/i`, where label is `name` in lower case. */
  function FieldOf(line: string, name: string): Option<string> {
    match DetailOf(line)
    case None => None
    case Some(detail) =>
      var bold := "**" + name + ":**";
      if !StartsWith(Lower(detail), bold) then None
      else
        var rest := detail[|bold|..];
        var value := TrimStart(rest);
        if value != "" && OneLine(value) then Some(value)
        else if value == "" && rest != "" && OneLine(rest[|rest| - 1..]) then Some(rest[|rest| - 1..])
        else None
  }

  function StripEnds(s: string, first: char, last: char): string {
    var headed := if s != "" && s[0] == first then s[1..] else s;
    if headed != "" && headed[|headed| - 1] == last then DropEnd(headed, 1) else headed
  }

  function ParseList(value: string): seq<string> {
    Filter((file: string) => file != "",
           Map((file: string) => StripEnds(Trim(file), '`', '`'), Split(StripEnds(value, '[', ']'), ',')))
  }

  // ---- Parsing ----

  datatype Scanned = Scanned(phase: string, inFence: bool, items: seq<ProgressItem>)

  function Detailed(item: ProgressItem, line: string): ProgressItem {
    var affected, claim := FieldOf(line, "affected files"), FieldOf(line, "claim");
    item.(details := item.details + [Trim(line)],
          affectedFiles := if affected.Some? then ParseList(affected.value) else item.affectedFiles,
          claim := if claim.Some? then Some(Trim(claim.value)) else item.claim)
  }

  function NewItem(line: string, item: ItemLine, phase: string): ProgressItem {
    ProgressItem(line, item.tag, item.title, phase, item.mark == 'x', [], [], None)
  }

  function ScanLine(s: Scanned, line: string): Scanned {
    if IsFence(line) then s.(inFence := !s.inFence)
    else if s.inFence then s
    else
      var phase := HeadingOf(line).Or(s.phase);
      var n := |s.items|;
      match ItemOf(line)
      case Some(item) => Scanned(phase, false, s.items + [NewItem(line, item, phase)])
      case None =>
        if n > 0 && DetailOf(line).Some? then Scanned(phase, false, s.items[n - 1 := Detailed(s.items[n - 1], line)])
        else s.(phase := phase)
  }

  function Scan(lines: seq<string>): Scanned {
    if lines == [] then Scanned("Unphased", false, [])
    else ScanLine(Scan(lines[..|lines| - 1]), lines[|lines| - 1])
  }

  function Items(text: string): seq<ProgressItem> {
    Scan(Lines(text)).items
  }

  /** `parseProgress` */
  method ParseProgress(text: string) returns (items: seq<ProgressItem>)
    ensures items == Items(text)
  {
    hide IsFence, HeadingOf, ItemOf, DetailOf, FieldOf, Lines, ParseList, Trim;
    var lines := Lines(text);
    items := [];
    var phase, inFence := "Unphased", false;
    for n := 0 to |lines|
      invariant Scanned(phase, inFence, items) == Scan(lines[..n])
    {
      assert lines[..n + 1][..n] == lines[..n];
      var line := lines[n];
      if IsFence(line) {
        inFence := !inFence;
        continue;
      }
      if inFence {
        continue;
      }
      if HeadingOf(line).Some? {
        phase := HeadingOf(line).value;
      }
      var item := ItemOf(line);
      if item.Some? {
        items := items + [NewItem(line, item.value, phase)];
        continue;
      }
      if items != [] && DetailOf(line).Some? {
        items := items[|items| - 1 := Detailed(items[|items| - 1], line)];
      }
    }
    assert lines[..|lines|] == lines;
  }

  // ---- Ticking ----

  /** What `tickProgressItems` puts in place of a raw line. */
  function CheckedRaw(raw: string): string {
    ReplaceFirst(ReplaceFirst(raw, "- [ ]", "- [x]"), "- [/ ]", "- [x]")
  }

  function TickOne(text: string, raw: string): string {
    if Includes(text, raw) then ReplaceFirst(text, raw, CheckedRaw(raw)) else text
  }

  function TickAll(text: string, items: seq<ProgressItem>): string
    decreases |items|
  {
    if items == [] then text
    else TickAll(TickOne(text, items[0].raw), items[1..])
  }

  /** `tickProgressItems`, on the text of the file. */
  method TickProgressItems(text: string, items: seq<ProgressItem>) returns (ticked: string)
    ensures ticked == TickAll(text, items)
  {
    hide Includes, ReplaceFirst, CheckedRaw;
    ticked := text;
    for n := 0 to |items|
      invariant TickAll(ticked, items[n..]) == TickAll(text, items)
    {
      assert items[n..][1..] == items[n + 1..];
      var raw := items[n].raw;
      var checked := CheckedRaw(raw);
      if Includes(ticked, raw) {
        ticked := ReplaceFirst(ticked, raw, checked);
      }
    }
  }
}
