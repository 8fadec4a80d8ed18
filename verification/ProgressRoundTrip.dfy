/** Reading what is written: a progress file in the form the runtime documents is read back entry by entry
    (tools/klevar-yolo-runtime/src/progress-parser.ts:4-42). */
module ProgressRoundTrip {
  import opened Wrappers
  import opened Sequences
  import opened Text
  import opened ProgressFile
  import opened ProgressProperties

  // ---- Entries as they are written ----

  /** An item under its phase, with the files it affects and the claim on it. */
  datatype Entry = Entry(phase: string, done: bool, tag: string, title: string, files: seq<string>,
                         claim: Option<string>)

  /** Text on one line without white space at its ends. */
  predicate IsText(s: string) {
    s != "" && !IsSpace(s[0]) && !IsSpace(s[|s| - 1]) && OneLine(s)
  }

  /** A name in a list: no comma, and no mark that a list strips. */
  predicate IsName(s: string) {
    && IsText(s) && ',' !in s && s[0] != '`' && s[|s| - 1] != '`' && s[0] != '[' && s[|s| - 1] != ']'
  }

  predicate IsWritable(e: Entry) {
    && IsText(e.phase) && StartsWith(e.phase, "Phase") && |e.phase| > 5 && IsTag(e.tag) && IsText(e.title)
    && (e.files != [] ==> AllNames(e.files)) && (e.claim.Some? ==> IsText(e.claim.value))
  }

  function JoinNames(names: seq<string>): string {
    if names == [] then "" else if |names| == 1 then names[0] else names[0] + ", " + JoinNames(names[1..])
  }

  function HeadingLine(e: Entry): string { "## " + e.phase }

  function ItemLineOf(e: Entry): string {
    "- [" + (if e.done then "x" else " ") + "] " + e.tag + " " + e.title
  }

  function FilesText(e: Entry): string { "- **Affected files:** " + JoinNames(e.files) }

  function ClaimText(claim: string): string { "- **Claim:** " + claim }

  function Details(e: Entry): seq<string> {
    (if e.files == [] then [] else [FilesText(e)]) + (if e.claim.Some? then [ClaimText(e.claim.value)] else [])
  }

  function WrittenEntry(e: Entry): seq<string> {
    [HeadingLine(e), ItemLineOf(e)] + Map((text: string) => "  " + text, Details(e))
  }

  function Written(entries: seq<Entry>): seq<string> {
    if entries == [] then []
    else Written(entries[..|entries| - 1]) + WrittenEntry(entries[|entries| - 1])
  }

  /** The item an entry is read as. */
  function AsItem(e: Entry): ProgressItem {
    ProgressItem(ItemLineOf(e), e.tag, e.title, e.phase, e.done, Details(e), e.files, e.claim)
  }

  // ---- Headings and items ----

  lemma TextIsTrim(s: string)
    requires IsText(s)
    ensures Trim(s) == s && TrimStart(s) == s
  {
    TrimPlain(s);
  }

  lemma HeadingIsRead(e: Entry)
    requires IsText(e.phase) && StartsWith(e.phase, "Phase") && |e.phase| > 5
    ensures HeadingOf(HeadingLine(e)) == Some(e.phase) && ItemOf(HeadingLine(e)).None?
    ensures !IsFence(HeadingLine(e)) && DetailOf(HeadingLine(e)).None?
  {
    hide Trim;
    var line := HeadingLine(e);
    assert line[..2] == "##" && line[2..] == " " + e.phase && (" " + e.phase)[1..] == e.phase;
    TextIsTrim(e.phase);
    assert TrimStart(" " + e.phase) == e.phase;
    TrimStartsAlike(line);
    assert line[..3] != "- [" by { assert line[0] == '#'; }
  }

  lemma ItemIsRead(e: Entry)
    requires IsTag(e.tag) && IsText(e.title)
    ensures var line := ItemLineOf(e);
            && ItemOf(line) == Some(ItemLine(if e.done then 'x' else ' ', e.tag, e.title))
            && HeadingOf(line).None? && !IsFence(line)
  {
    hide Trim, BodyOf, TagOf;
    var line, mark := ItemLineOf(e), if e.done then "x" else " ";
    DashIsNoFence(line);
    assert line[..3] == "- [" && line[3] == mark[0] && line[4] == ']';
    assert line[5..] == " " + e.tag + (" " + e.title);
    TitleIsTitle(e.title);
    assert AllBlank(" ") by { assert IsSpace(' '); }
    BodyFromParts(" ", e.tag, " " + e.title);
  }

  lemma TitleIsTitle(title: string)
    requires IsText(title)
    ensures IsTitle(" " + title) && Trim(" " + title) == title
  {
    assert (" " + title)[1..] == title;
    TextIsTrim(title);
    assert TrimStart(" " + title) == title;
  }

  // ---- Details ----

  /** A line of details: its text after two spaces, a dash and a bold label. */
  lemma DetailIsRead(shown: string, value: string)
    requires shown != "" && value != "" && !IsSpace(value[|value| - 1])
    ensures var line := "  - **" + shown + ":** " + value;
            && DetailOf(line) == Some("**" + shown + ":** " + value) && ItemOf(line).None?
            && HeadingOf(line).None? && !IsFence(line) && Trim(line) == line[2..]
  {
    hide Trim;
    var detail := "**" + shown + ":** " + value;
    var line := "  - **" + shown + ":** " + value;
    assert line == "  " + ("- " + detail) && AllBlank("  ") by { assert IsSpace(' '); }
    TrimStartOf("  ", "- " + detail);
    assert ("- " + detail)[1..] == " " + detail;
    assert AllBlank(" ") by { assert IsSpace(' '); }
    TrimStartOf(" ", detail);
    assert detail[..2] == "**";
    assert line[0] == ' ';
    TrimmedDetail(line, "- " + detail);
    assert Trim(line)[0] == '-';
  }

  lemma TrimmedDetail(line: string, rest: string)
    requires line == "  " + rest && rest != "" && !IsSpace(rest[0]) && !IsSpace(rest[|rest| - 1])
    ensures Trim(line) == rest == line[2..]
  {
    assert AllBlank(line[..2]) && AllBlank(line[|line|..]);
    TrimsTo(line, 2, |line|);
  }

  /** The value of the field whose label it is, and of no other. */
  lemma FieldIsRead(shown: string, name: string, value: string)
    requires Lower(shown) == name && name != "" && ':' !in name && IsText(value)
    ensures FieldOf("  - **" + shown + ":** " + value, name) == Some(value)
    ensures forall other | other != name && ':' !in other :: FieldOf("  - **" + shown + ":** " + value, other).None?
  {
    hide DetailOf, Lower, Trim;
    var detail := "**" + shown + ":** " + value;
    assert |Lower(shown)| == |shown|;
    DetailIsRead(shown, value);
    LowerDetail(shown, name, value);
    var n := |"**" + name + ":**"|;
    assert detail[n..] == " " + value && (" " + value)[1..] == value;
    TextIsTrim(value);
    assert TrimStart(" " + value) == value;
    forall other | other != name && ':' !in other
      ensures FieldOf("  - **" + shown + ":** " + value, other).None?
    {
      if StartsWith(Lower(detail), "**" + other + ":**") { SameLabel(Lower(detail), name, other); }
    }
  }

  lemma LowerDetail(shown: string, name: string, value: string)
    requires Lower(shown) == name
    ensures StartsWith(Lower("**" + shown + ":** " + value), "**" + name + ":**")
  {
    var detail, bold := "**" + shown + ":** " + value, "**" + name + ":**";
    assert |shown| == |name|;
    forall k | 0 <= k < |bold| ensures Lower(detail)[k] == bold[k] {
      if 2 <= k < 2 + |shown| {
        assert detail[k] == shown[k - 2] && Lower(shown)[k - 2] == name[k - 2] == bold[k];
      }
    }
    assert Lower(detail)[..|bold|] == bold;
  }

  /** Two labels before the first colon of a text are the same. */
  lemma SameLabel(text: string, a: string, b: string)
    requires StartsWith(text, "**" + a + ":**") && StartsWith(text, "**" + b + ":**") && ':' !in a && ':' !in b
    ensures a == b
  {
    LabelIsBefore(text, a);
    LabelIsBefore(text, b);
  }

  lemma LabelIsBefore(text: string, name: string)
    requires StartsWith(text, "**" + name + ":**") && ':' !in name
    ensures Before(text[2..], ':') == name
  {
    hide Before;
    var bold := "**" + name + ":**";
    var rest := ":**" + text[|bold|..];
    assert text == bold + text[|bold|..];
    assert text[2..] == name + rest;
    BeforeOfJoined(name, rest, ':');
    NothingBefore(rest);
  }

  lemma NothingBefore(rest: string)
    requires rest != "" && rest[0] == ':'
    ensures Before(rest, ':') == ""
  {
  }

  // ---- Lists of files ----

  predicate AllNames(names: seq<string>) {
    names != [] && forall n | 0 <= n < |names| :: IsName(names[n])
  }

  /** A joined list is one text that neither starts nor ends with a bracket. */
  predicate IsList(s: string) {
    IsText(s) && s[0] != '[' && s[|s| - 1] != ']'
  }

  lemma {:induction false} JoinedIsList(names: seq<string>)
    requires AllNames(names)
    ensures IsList(JoinNames(names))
  {
    hide OneLine;
    if |names| > 1 {
      var first, rest := names[0], JoinNames(names[1..]);
      assert IsName(first) && forall n | 0 <= n < |names[1..]| :: names[1..][n] == names[n + 1];
      JoinedIsList(names[1..]);
      OneLineJoined(first, rest);
      var joined := first + (", " + rest);
      assert JoinNames(names) == joined && joined[0] == first[0] && joined[|joined| - 1] == rest[|rest| - 1];
    }
  }

  lemma {:induction false} NamesAreSplit(names: seq<string>)
    requires AllNames(names)
    ensures var parts := Split(JoinNames(names), ',');
            |parts| == |names| && parts[0] == names[0] && forall n | 0 < n < |names| :: parts[n] == " " + names[n]
  {
    hide Before, IsText, OneLine;
    var first := names[0];
    assert IsName(first);
    if |names| == 1 {
      BeforeOfJoined(first, "", ',');
      NothingAfter();
      assert first + "" == first;
    } else {
      var rest := JoinNames(names[1..]);
      assert forall n | 0 <= n < |names[1..]| :: names[1..][n] == names[n + 1];
      NamesAreSplit(names[1..]);
      FirstIsSplit(first, rest);
      assert JoinNames(names) == first + ", " + rest;
    }
  }

  lemma FirstIsSplit(first: string, rest: string)
    requires ',' !in first
    ensures var parts := Split(rest, ',');
            Split(first + ", " + rest, ',') == [first] + ([" " + parts[0]] + parts[1..])
  {
    hide Before;
    var joined := first + (", " + rest);
    assert joined == first + ", " + rest;
    BeforeOfJoined(first, ", " + rest, ',');
    CommaFirst(rest);
    assert Before(joined, ',') == first;
    assert joined[|first| + 1..] == " " + rest;
    SpacedSplit(rest);
  }

  lemma NothingAfter()
    ensures Before("", ',') == ""
  {
  }

  lemma CommaFirst(rest: string)
    ensures Before(", " + rest, ',') == ""
  {
    assert (", " + rest)[0] == ',';
  }

  /** A space before a text goes to its first part. */
  lemma SpacedSplit(s: string)
    ensures var parts := Split(s, ',');
            Split(" " + s, ',') == [" " + parts[0]] + parts[1..]
  {
    hide Before;
    var part := Before(s, ',');
    BeforeOfJoined(" ", s, ',');
    assert |part| < |s| ==> (" " + s)[|part| + 2..] == s[|part| + 1..];
  }

  lemma OneLineJoined(first: string, rest: string)
    requires OneLine(first) && OneLine(rest)
    ensures OneLine(first + (", " + rest))
  {
  }

  /** A list of files is read name by name. */
  lemma NamesAreRead(names: seq<string>)
    requires AllNames(names)
    ensures ParseList(JoinNames(names)) == names
  {
    hide Split, JoinNames, Trim, StripEnds, OneLine;
    NamesAreSplit(names);
    JoinedIsList(names);
    var value := JoinNames(names);
    assert StripEnds(value, '[', ']') == value by { NothingStripped(value, '[', ']'); }
    var parts := Split(value, ',');
    var read := Map((file: string) => StripEnds(Trim(file), '`', '`'), parts);
    forall n | 0 <= n < |names| ensures read[n] == names[n] && names[n] != "" {
      assert IsName(names[n]);
      PartIsRead(names[n], parts[n]);
    }
    assert read == names;
    FilterAll((file: string) => file != "", read);
  }

  lemma NothingStripped(s: string, first: char, last: char)
    requires s != "" && s[0] != first && s[|s| - 1] != last
    ensures StripEnds(s, first, last) == s
  {
  }

  lemma PartIsRead(name: string, part: string)
    requires IsName(name) && (part == name || part == " " + name)
    ensures StripEnds(Trim(part), '`', '`') == name
  {
    if part == " " + name {
      assert part[1..] == name && part[|part| - 1] == name[|name| - 1];
      assert AllBlank(part[..1]) by { assert part[..1] == " " && IsSpace(' '); }
      assert AllBlank(part[|part|..]);
      TrimsTo(part, 1, |part|);
    } else {
      TrimPlain(part);
    }
    NothingStripped(name, '`', '`');
  }

  // ---- Entries ----

  lemma OneMoreLine(lines: seq<string>, line: string)
    ensures Scan(lines + [line]) == ScanLine(Scan(lines), line)
  {
    assert (lines + [line])[..|lines|] == lines;
  }

  /** The item as it is read so far. */
  function Partly(e: Entry, files: bool, claim: bool): ProgressItem {
    AsItem(e).(details := (if files && e.files != [] then [FilesText(e)] else [])
                          + (if claim && e.claim.Some? then [ClaimText(e.claim.value)] else []),
               affectedFiles := if files then e.files else [], claim := if claim then e.claim else None)
  }

  lemma FilesFields(e: Entry)
    requires e.files != [] && AllNames(e.files)
    ensures var line := "  " + FilesText(e);
            && !IsFence(line) && HeadingOf(line).None? && ItemOf(line).None? && DetailOf(line).Some?
            && FieldOf(line, "affected files") == Some(JoinNames(e.files)) && FieldOf(line, "claim").None?
            && Trim(line) == FilesText(e)
  {
    hide FieldOf, DetailOf, ItemOf, HeadingOf, IsFence, Trim, JoinNames, OneLine, Lower, AllNames;
    var value := JoinNames(e.files);
    JoinedIsList(e.files);
    var line := "  - **" + "Affected files" + ":** " + value;
    assert line == "  " + FilesText(e) && line[2..] == FilesText(e);
    DetailIsRead("Affected files", value);
    LowerLabels();
    FieldIsRead("Affected files", "affected files", value);
    assert FieldOf(line, "claim").None?;
  }

  lemma FilesAreRead(e: Entry)
    requires IsWritable(e) && e.files != []
    ensures var line := "  " + FilesText(e);
            && !IsFence(line) && HeadingOf(line).None? && ItemOf(line).None? && DetailOf(line).Some?
            && Detailed(Partly(e, false, false), line) == Partly(e, true, false)
  {
    hide FieldOf, DetailOf, ItemOf, HeadingOf, IsFence, Trim, JoinNames, ParseList, FilesText, AllNames;
    FilesFields(e);
    NamesAreRead(e.files);
  }

  lemma LowerLabels()
    ensures Lower("Affected files") == "affected files" && Lower("Claim") == "claim"
    ensures ':' !in "affected files" && ':' !in "claim" && "affected files" != "claim"
  {
    SameChars(Lower("Affected files"), "affected files");
    SameChars(Lower("Claim"), "claim");
    assert |"affected files"| == 14 && |"claim"| == 5;
  }

  lemma ClaimFields(claim: string)
    requires IsText(claim)
    ensures var line := "  " + ClaimText(claim);
            && !IsFence(line) && HeadingOf(line).None? && ItemOf(line).None? && DetailOf(line).Some?
            && FieldOf(line, "claim") == Some(claim) && FieldOf(line, "affected files").None?
            && Trim(line) == ClaimText(claim) && Trim(claim) == claim
  {
    hide FieldOf, DetailOf, ItemOf, HeadingOf, IsFence, Trim, OneLine, Lower;
    var line := "  - **" + "Claim" + ":** " + claim;
    assert line == "  " + ClaimText(claim) && line[2..] == ClaimText(claim);
    DetailIsRead("Claim", claim);
    LowerLabels();
    FieldIsRead("Claim", "claim", claim);
    assert FieldOf(line, "affected files").None?;
    TextIsTrim(claim);
  }

  lemma ClaimIsRead(e: Entry)
    requires IsWritable(e) && e.claim.Some?
    ensures var line := "  " + ClaimText(e.claim.value);
            && !IsFence(line) && HeadingOf(line).None? && ItemOf(line).None? && DetailOf(line).Some?
            && Detailed(Partly(e, true, false), line) == Partly(e, true, true)
  {
    hide FieldOf, DetailOf, ItemOf, HeadingOf, IsFence, Trim, ParseList, ClaimText, FilesText, AllNames, OneLine;
    ClaimFields(e.claim.value);
  }

  lemma NewIsPartly(e: Entry)
    ensures NewItem(ItemLineOf(e), ItemLine(if e.done then 'x' else ' ', e.tag, e.title), e.phase)
            == Partly(e, false, false)
  {
  }

  /** After the lines of an entry, outside a fence, its item is read, in its phase. */
  lemma EntryIsRead(lines: seq<string>, e: Entry)
    requires IsWritable(e) && !Scan(lines).inFence
    ensures Scan(lines + WrittenEntry(e)) == Scanned(e.phase, false, Scan(lines).items + [AsItem(e)])
  {
    hide IsFence, HeadingOf, ItemOf, DetailOf, Detailed, HeadingLine, ItemLineOf, FilesText, ClaimText, Scan;
    var items := Scan(lines).items;
    var heading, item := lines + [HeadingLine(e)], lines + [HeadingLine(e)] + [ItemLineOf(e)];
    HeadingIsRead(e);
    ItemIsRead(e);
    OneMoreLine(lines, HeadingLine(e));
    OneMoreLine(heading, ItemLineOf(e));
    NewIsPartly(e);
    assert Scan(item) == Scanned(e.phase, false, items + [Partly(e, false, false)]);
    var files := if e.files == [] then item else item + ["  " + FilesText(e)];
    if e.files != [] {
      FilesAreRead(e);
      OneMoreLine(item, "  " + FilesText(e));
    }
    assert Partly(e, true, false) == Partly(e, false, false) || e.files != [];
    assert Scan(files) == Scanned(e.phase, false, items + [Partly(e, true, false)]);
    var claim := if e.claim.None? then files else files + ["  " + ClaimText(e.claim.value)];
    if e.claim.Some? {
      ClaimIsRead(e);
      OneMoreLine(files, "  " + ClaimText(e.claim.value));
    }
    assert Scan(claim) == Scanned(e.phase, false, items + [Partly(e, true, true)]);
    assert Partly(e, true, true) == AsItem(e);
    assert lines + WrittenEntry(e) == claim;
  }

  /** Reading what was written gives the items of all entries, in order. */
  lemma {:induction false} WrittenIsRead(entries: seq<Entry>)
    requires forall i | 0 <= i < |entries| :: IsWritable(entries[i])
    ensures Scan(Written(entries)).items == Map(AsItem, entries) && !Scan(Written(entries)).inFence
  {
    hide WrittenEntry, IsWritable, ScanLine;
    if entries != [] {
      var front, last := entries[..|entries| - 1], entries[|entries| - 1];
      WrittenIsRead(front);
      EntryIsRead(Written(front), last);
      assert entries == front + [last];
    }
  }

  // ---- The text of the file ----

  predicate IsLine(s: string) {
    s != "" && OneLine(s)
  }

  lemma {:induction false} JoinedIsSplit(lines: seq<string>)
    requires lines != [] && forall i | 0 <= i < |lines| :: IsLine(lines[i])
    ensures Lines(JoinLines(lines)) == lines
  {
    hide Lines, IsLine;
    assert IsLine(lines[0]);
    LineIsOnOneLine(lines[0]);
    if |lines| == 1 {
      OneLineOfPlain(lines[0]);
    } else {
      assert forall i | 0 <= i < |lines[1..]| :: lines[1..][i] == lines[i + 1];
      JoinedIsSplit(lines[1..]);
      LinesOfHead(lines[0], "", JoinLines(lines[1..]));
      assert lines[0] + ("" + ("\n" + JoinLines(lines[1..]))) == lines[0] + "\n" + JoinLines(lines[1..]);
    }
  }

  lemma LineIsOnOneLine(line: string)
    requires IsLine(line)
    ensures OnOneLine(line)
  {
  }

  lemma OneLineTogether(a: string, b: string)
    requires OneLine(a) && OneLine(b)
    ensures OneLine(a + b)
  {
  }

  lemma {:induction false} WrittenIsOneLine(entries: seq<Entry>, i: nat)
    requires (forall k | 0 <= k < |entries| :: IsWritable(entries[k])) && i < |Written(entries)|
    ensures IsLine(Written(entries)[i])
  {
    hide WrittenEntry, IsWritable, IsLine;
    if entries != [] {
      var front, last := entries[..|entries| - 1], entries[|entries| - 1];
      if i < |Written(front)| {
        WrittenIsOneLine(front, i);
      } else {
        EntryIsOneLine(last, i - |Written(front)|);
      }
    }
  }

  lemma EntryIsOneLine(e: Entry, i: nat)
    requires IsWritable(e) && i < |WrittenEntry(e)|
    ensures IsLine(WrittenEntry(e)[i])
  {
    hide AllNames, OneLine, JoinNames;
    MarksAreOneLine();
    OneLineTogether("## ", e.phase);
    TagIsOneLine(e.tag);
    ItemIsOneLine(if e.done then "x" else " ", e.tag, e.title);
    if e.files != [] {
      JoinedIsList(e.files);
      OneLineTogether("- **Affected files:** ", JoinNames(e.files));
      OneLineTogether("  ", FilesText(e));
    }
    if e.claim.Some? {
      OneLineTogether("- **Claim:** ", e.claim.value);
      OneLineTogether("  ", ClaimText(e.claim.value));
    }
  }

  lemma MarksAreOneLine()
    ensures OneLine("## ") && OneLine("- **Affected files:** ") && OneLine("- **Claim:** ") && OneLine("  ")
    ensures OneLine("- [") && OneLine("] ") && OneLine("x") && OneLine(" ")
  {
    hide OneLine;
    PrintableIsOneLine("## ");
    PrintableIsOneLine("- **Affected files:** ");
    PrintableIsOneLine("- **Claim:** ");
    PrintableIsOneLine("  ");
    PrintableIsOneLine("- [");
    PrintableIsOneLine("] ");
    PrintableIsOneLine("x");
    PrintableIsOneLine(" ");
  }

  lemma PrintableIsOneLine(s: string)
    requires forall k | 0 <= k < |s| :: ' ' <= s[k] <= '~'
    ensures OneLine(s)
  {
  }

  lemma ItemIsOneLine(mark: string, tag: string, title: string)
    requires OneLine(mark) && OneLine(tag) && OneLine(title)
    ensures OneLine("- [" + mark + "] " + tag + " " + title)
  {
    hide OneLine;
    MarksAreOneLine();
    OneLineTogether("- [", mark);
    OneLineTogether("- [" + mark, "] ");
    OneLineTogether("- [" + mark + "] ", tag);
    OneLineTogether("- [" + mark + "] " + tag, " ");
    OneLineTogether("- [" + mark + "] " + tag + " ", title);
  }

  lemma TagIsOneLine(tag: string)
    requires IsTag(tag)
    ensures OneLine(tag)
  {
  }

  /** The whole round trip: the text of the written lines is read as the items of the entries. */
  lemma WrittenFileIsRead(entries: seq<Entry>)
    requires entries != [] && forall i | 0 <= i < |entries| :: IsWritable(entries[i])
    ensures Items(JoinLines(Written(entries))) == Map(AsItem, entries)
  {
    hide Lines, IsWritable, IsLine;
    WrittenIsRead(entries);
    forall i | 0 <= i < |Written(entries)| ensures IsLine(Written(entries)[i]) { WrittenIsOneLine(entries, i); }
    JoinedIsSplit(Written(entries));
  }

  // ---- Code fences ----

  /** What stands between two fences is not read. */
  lemma {:induction false} FencedIsIgnored(lines: seq<string>, inner: seq<string>)
    requires !Scan(lines).inFence && forall i | 0 <= i < |inner| :: !IsFence(inner[i])
    ensures var fenced := lines + ["```"] + inner;
            Scan(fenced) == Scan(lines).(inFence := true) && Scan(fenced + ["```"]) == Scan(lines)
  {
    hide IsFence, HeadingOf, ItemOf, DetailOf, Scan;
    var fenced := lines + ["```"] + inner;
    assert IsFence("```") by { FenceIsFence(); }
    OneMoreLine(lines, "```");
    if inner != [] {
      var n := |inner| - 1;
      FencedIsIgnored(lines, inner[..n]);
      assert fenced == lines + ["```"] + inner[..n] + [inner[n]];
      OneMoreLine(lines + ["```"] + inner[..n], inner[n]);
    } else {
      assert fenced == lines + ["```"];
    }
    OneMoreLine(fenced, "```");
  }

  lemma FenceIsFence()
    ensures IsFence("```")
  {
    TrimPlain("```");
  }
}
