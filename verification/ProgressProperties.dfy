/** Ticking the text of the progress file checks exactly the items that were ticked. */
module ProgressProperties {
  import opened Wrappers
  import opened Text
  import opened ProgressFile

  // ---- Open lines and items ----

  /** The line is outside a code fence and holds an item that is not checked. */
  predicate OpenAt(lines: seq<string>, k: nat) {
    && k < |lines| && !Scan(lines[..k]).inFence && !IsFence(lines[k])
    && ItemOf(lines[k]).Some? && ItemOf(lines[k]).value.mark != 'x'
  }

  /** How often the pattern `$c` is read in a replacement. */
  function Reads(s: string, c: char): nat
    decreases |s|
  {
    if s == "" then 0
    else if s[0] == '$' && |s| > 1 && s[1] in "$&`'" then (if s[1] == c then 1 else 0) + Reads(s[2..], c)
    else Reads(s[1..], c)
  }

  /** Neither what precedes the item in the file nor what follows it is read in a replacement. */
  predicate NoSides(s: string) {
    Reads(s, '`') == 0 && Reads(s, '\'') == 0
  }

  /** No pattern but `$$` is read in a replacement. */
  predicate ContextFree(s: string) {
    NoSides(s) && Reads(s, '&') == 0
  }

  /** `$$` is a dollar sign, and any other `$` stands for itself. */
  function Undollar(s: string): string
    decreases |s|
  {
    if s == "" then ""
    else if s[0] == '$' && |s| > 1 && s[1] == '$' then "$" + Undollar(s[2..])
    else [s[0]] + Undollar(s[1..])
  }

  /** An open item line whose replacement does not read the text around it. It may read the line itself, as `$&`, when
      the line has no carriage return or other line end among its spaces. */
  predicate Tickable(raw: string) {
    && StartsWith(raw, "- [ ]") && ItemOf(raw).Some? && '\n' !in raw
    && NoSides(CheckedRaw(raw)) && (ContextFree(CheckedRaw(raw)) || OneLine(raw))
  }

  /** What ticking such a line makes of it. */
  function TickedRaw(raw: string): string {
    Expand(CheckedRaw(raw), raw, "", "")
  }

  /** Every open item is tickable, and no line but an open item's own holds its text, also after another open item is
      ticked. */
  predicate Tidy(lines: seq<string>) {
    forall k, j | 0 <= k < |lines| && 0 <= j < |lines| && OpenAt(lines, k) ::
      && Tickable(lines[k])
      && (Includes(lines[j], lines[k]) ==> lines[j] == lines[k] && OpenAt(lines, j))
      && (j != k && OpenAt(lines, j) ==> !Includes(TickedRaw(lines[j]), lines[k]))
  }

  // ---- The checked line ----

  lemma IndexIs(s: string, part: string, i: nat)
    requires OccursAt(s, part, i) && forall j: nat | j < i :: !OccursAt(s, part, j)
    ensures IndexOf(s, part) == Some(i)
  {
  }

  /** A replacement without one of the four patterns is taken as it is. */
  predicate NoPattern(s: string) {
    forall i | 0 <= i < |s| - 1 && s[i] == '$' :: s[i + 1] !in "$&`'"
  }

  lemma {:induction false} ExpandPlain(replacement: string, matched: string, before: string, after: string)
    requires NoPattern(replacement)
    ensures Expand(replacement, matched, before, after) == replacement
  {
    if replacement != "" {
      assert forall i | 0 <= i < |replacement[1..]| :: replacement[1..][i] == replacement[i + 1];
      ExpandPlain(replacement[1..], matched, before, after);
    }
  }

  lemma {:induction false} ExpandDollars(replacement: string, matched: string, before: string, after: string)
    requires ContextFree(replacement)
    ensures Expand(replacement, matched, before, after) == Undollar(replacement)
    decreases |replacement|
  {
    if replacement != "" {
      if replacement[0] == '$' && |replacement| > 1 && replacement[1] in "$&`'" {
        assert replacement[1] == '$';
        ExpandDollars(replacement[2..], matched, before, after);
      } else {
        ExpandDollars(replacement[1..], matched, before, after);
      }
    }
  }

  /** A replacement that reads nothing around the item is expanded without it. */
  lemma {:induction false} ExpandSideless(replacement: string, matched: string, before: string, after: string)
    requires NoSides(replacement)
    ensures Expand(replacement, matched, before, after) == Expand(replacement, matched, "", "")
    decreases |replacement|
  {
    if replacement != "" {
      if replacement[0] == '$' && |replacement| > 1 && replacement[1] in "$&`'" {
        ExpandSideless(replacement[2..], matched, before, after);
      } else {
        ExpandSideless(replacement[1..], matched, before, after);
      }
    }
  }

  lemma {:induction false} ExpandHead(head: string, rest: string, matched: string, before: string, after: string)
    requires '$' !in head
    ensures Expand(head + rest, matched, before, after) == head + Expand(rest, matched, before, after)
  {
    if head == "" {
      assert head + rest == rest;
    } else {
      assert (head + rest)[1..] == head[1..] + rest;
      ExpandHead(head[1..], rest, matched, before, after);
    }
  }

  lemma {:induction false} ReadsHead(head: string, rest: string, c: char)
    requires '$' !in head
    ensures Reads(head + rest, c) == Reads(rest, c)
  {
    if head == "" {
      assert head + rest == rest;
    } else {
      assert (head + rest)[1..] == head[1..] + rest;
      ReadsHead(head[1..], rest, c);
    }
  }

  /** Expanding brings in the characters of the item only, at the ends too. */
  lemma {:induction false} ExpandEnds(s: string, matched: string)
    requires s != "" && NoSides(s) && matched != ""
    ensures var t := Expand(s, matched, "", "");
            t != "" && t[0] in [s[0], matched[0]] && t[|t| - 1] in [s[|s| - 1], matched[|matched| - 1]]
    decreases |s|
  {
    var n := if s[0] == '$' && |s| > 1 && s[1] in "$&`'" then 2 else 1;
    if s[n..] != "" {
      ExpandEnds(s[n..], matched);
    }
  }

  lemma {:induction false} ExpandChars(s: string, matched: string)
    ensures forall c | c in Expand(s, matched, "", "") :: c in s || (c in matched && Reads(s, '&') > 0)
    decreases |s|
  {
    if s != "" {
      ExpandChars(if s[0] == '$' && |s| > 1 && s[1] in "$&`'" then s[2..] else s[1..], matched);
    }
  }

  /** The item is not read, or is on one line. */
  predicate ReadsOneLine(s: string, matched: string) {
    Reads(s, '&') == 0 || OneLine(matched)
  }

  /** No new character. */
  lemma {:induction false} UndollarChars(s: string)
    ensures forall c | c in Undollar(s) :: c in s
    decreases |s|
  {
    if s != "" {
      UndollarChars(if s[0] == '$' && |s| > 1 && s[1] == '$' then s[2..] else s[1..]);
    }
  }

  /** Until its first dollar sign, a text and what `$$` makes of it are the same. */
  lemma {:induction false} UndollarPrefix(s: string, part: string)
    requires '$' !in part && part <= Undollar(s)
    ensures part <= s
    decreases |s|
  {
    if part != "" {
      assert Undollar(s)[0] == part[0];
      assert Undollar(s)[1..] == Undollar(s[1..]);
      UndollarPrefix(s[1..], part[1..]);
      assert part == [part[0]] + part[1..];
    }
  }

  /** A text without dollar signs occurs after only where it occurred before. */
  lemma {:induction false} UndollarOccurs(s: string, part: string, i: nat)
    requires part != "" && '$' !in part && OccursAt(Undollar(s), part, i)
    ensures Includes(s, part)
    decreases |s|
  {
    hide Includes;
    var t := Undollar(s);
    if i == 0 {
      assert part <= t;
      UndollarPrefix(s, part);
      OccursIncludes(s, part, 0);
    } else {
      var n := if s[0] == '$' && |s| > 1 && s[1] == '$' then 2 else 1;
      assert t[1..] == Undollar(s[n..]);
      assert t[i..i + |part|] == t[1..][i - 1..i - 1 + |part|];
      UndollarOccurs(s[n..], part, i - 1);
      IncludesTail(s, n, part);
    }
  }

  lemma IncludesTail(s: string, n: nat, part: string)
    requires n <= |s| && Includes(s[n..], part)
    ensures Includes(s, part)
  {
    hide Includes;
    var i := OccurrenceIn(s[n..], part);
    assert s[n + i..n + i + |part|] == s[n..][i..i + |part|];
    OccursIncludes(s, part, n + i);
  }

  lemma OccursIncludes(s: string, part: string, i: nat)
    requires OccursAt(s, part, i)
    ensures Includes(s, part)
  {
  }

  /** No occurrence of a text without 'x' covers the new mark, and one after it is an occurrence in the raw line. */
  lemma OccursInRest(raw: string, part: string, i: nat)
    requires |raw| >= 5 && |part| > 4 && part[0] == '-' && part[1] == ' ' && part[2] == '[' && part[3] != 'x'
    requires OccursAt("- [x]" + raw[5..], part, i)
    ensures i >= 5 && OccursAt(raw, part, i)
  {
    var checked := "- [x]" + raw[5..];
    assert checked[i..i + |part|][0] == checked[i] == '-';
    assert checked[i..i + |part|][3] == checked[i + 3];
    assert checked[0] == '-' && checked[1] == ' ' && checked[2] == '[' && checked[3] == 'x' && checked[4] == ']';
    assert i >= 5;
    assert checked[i..i + |part|] == raw[i..i + |part|];
  }

  /** The new mark; and the first `- [/ ]` of the line, if any, becomes one too. */
  lemma CheckedRawIs(raw: string)
    requires StartsWith(raw, "- [ ]")
    ensures CheckedRaw(raw) == ReplaceFirst("- [x]" + raw[5..], "- [/ ]", "- [x]")
    ensures !Includes(raw, "- [/ ]") ==> CheckedRaw(raw) == "- [x]" + raw[5..]
  {
    assert raw[..5] == "- [ ]";
    assert OccursAt(raw, "- [ ]", 0);
    IndexIs(raw, "- [ ]", 0);
    ExpandPlain("- [x]", "- [ ]", raw[..0], raw[5..]);
    var checked := "- [x]" + raw[5..];
    assert ReplaceFirst(raw, "- [ ]", "- [x]") == checked;
    if IndexOf(checked, "- [/ ]").Some? {
      OccursInRest(raw, "- [/ ]", IndexOf(checked, "- [/ ]").value);
      OccursIncludes(raw, "- [/ ]", IndexOf(checked, "- [/ ]").value);
    }
  }

  lemma BoxIsPlain()
    ensures NoPattern("- [x]")
  {
  }

  lemma SlashReplaced(line: string, i: nat)
    requires IndexOf(line, "- [/ ]") == Some(i)
    ensures i + 6 <= |line| && ReplaceFirst(line, "- [/ ]", "- [x]") == line[..i] + "- [x]" + line[i + 6..]
  {
    hide IndexOf, Expand, NoPattern, OccursAt;
    OccursFits(line, "- [/ ]", i);
    BoxIsPlain();
    ExpandPlain("- [x]", "- [/ ]", line[..i], line[i + 6..]);
  }

  // ---- The parts of an item line ----

  predicate IsTag(tag: string) {
    && |tag| > 2 && tag[0] == '[' && tag[|tag| - 1] == ']'
    && forall i | 0 < i < |tag| - 1 :: 'A' <= tag[i] <= 'Z' || tag[i] == '-'
  }

  lemma {:induction false} TrimStartOf(spaces: string, rest: string)
    requires AllBlank(spaces) && (rest != "" ==> !IsSpace(rest[0]))
    ensures TrimStart(spaces + rest) == rest
  {
    if spaces == "" {
      assert spaces + rest == rest;
    } else {
      assert (spaces + rest)[1..] == spaces[1..] + rest;
      TrimStartOf(spaces[1..], rest);
    }
  }

  lemma TrimmedSpaces(s: string)
    ensures s == s[..|s| - |TrimStart(s)|] + TrimStart(s) && AllBlank(s[..|s| - |TrimStart(s)|])
  {
    hide TrimStart;
    TrimStartIsTail(s);
    var n := |s| - |TrimStart(s)|;
    assert s == s[..n] + s[n..];
    forall i | 0 <= i < n ensures IsSpace(s[..n][i]) {
      TrimmedIsSpace(s, i);
    }
  }

  lemma {:induction false} TrimmedIsSpace(s: string, i: nat)
    requires i < |s| - |TrimStart(s)|
    ensures IsSpace(s[i])
  {
    if i > 0 { TrimmedIsSpace(s[1..], i - 1); }
  }

  lemma {:induction false} TagLettersOf(s: string, n: nat)
    requires n < |s| && s[n] == ']' && forall i | 0 <= i < n :: 'A' <= s[i] <= 'Z' || s[i] == '-'
    ensures TagLetters(s) == n
  {
    if n > 0 { TagLettersOf(s[1..], n - 1); }
  }

  lemma {:induction false} TagLettersAre(s: string)
    ensures forall i | 0 <= i < TagLetters(s) :: 'A' <= s[i] <= 'Z' || s[i] == '-'
  {
    if s != "" && ('A' <= s[0] <= 'Z' || s[0] == '-') {
      TagLettersAre(s[1..]);
      forall i | 0 <= i < TagLetters(s) ensures 'A' <= s[i] <= 'Z' || s[i] == '-' {
        if i > 0 { assert s[i] == s[1..][i - 1]; }
      }
    }
  }

  lemma TagOfTagged(tag: string, rest: string)
    requires IsTag(tag)
    ensures TagOf(tag + rest) == tag
  {
    hide TagLetters;
    var s := tag + rest;
    assert s[1..][|tag| - 2] == s[|tag| - 1] == ']';
    forall i | 0 <= i < |tag| - 2 ensures 'A' <= s[1..][i] <= 'Z' || s[1..][i] == '-' {
      assert s[1..][i] == tag[i + 1];
    }
    TagLettersOf(s[1..], |tag| - 2);
    assert s[..|tag|] == tag;
  }

  lemma TagIsTag(s: string)
    requires TagOf(s) != ""
    ensures IsTag(TagOf(s))
  {
    hide TagLetters;
    TagLettersAre(s[1..]);
    var n := TagLetters(s[1..]);
    forall i | 0 < i < n + 1 ensures 'A' <= s[i] <= 'Z' || s[i] == '-' {
      assert s[i] == s[1..][i - 1];
    }
  }

  /** What follows the box is white space, the tag and the title. */
  lemma BodyParts(rest: string) returns (spaces: string, tag: string, title: string)
    requires BodyOf(rest).Some?
    ensures rest == spaces + tag + title && spaces != "" && AllBlank(spaces) && IsTag(tag) && IsTitle(title)
    ensures BodyOf(rest).value.0 == tag
  {
    hide TrimStart, TagOf, IsTitle, IsTag, AllBlank;
    var body := TrimStart(rest);
    TrimmedSpaces(rest);
    spaces, tag, title := rest[..|rest| - |body|], TagOf(body), body[|TagOf(body)|..];
    TagIsTag(body);
    assert body == tag + title;
  }

  lemma BodyFromParts(spaces: string, tag: string, title: string)
    requires spaces != "" && AllBlank(spaces) && IsTag(tag) && IsTitle(title)
    ensures BodyOf(spaces + tag + title) == Some((tag, Trim(title)))
  {
    hide TagOf, IsTitle, AllBlank, TrimStart, Trim;
    assert spaces + tag + title == spaces + (tag + title);
    assert !IsSpace((tag + title)[0]);
    TrimStartOf(spaces, tag + title);
    TagOfTagged(tag, title);
    assert (tag + title)[|tag|..] == title;
  }

  /** What ticking makes of a title. */
  function TickedTitle(raw: string, title: string): string {
    Expand(ReplaceFirst(title, "- [/ ]", "- [x]"), raw, "", "")
  }

  /** Where a `- [/ ]` cannot begin: on a character other than a dash, or on one that no space follows. */
  lemma NoSlashAt(line: string, i: nat)
    requires i + 1 < |line| ==> line[i] != '-' || line[i + 1] != ' '
    ensures !OccursAt(line, "- [/ ]", i)
  {
    OccursStart(line, "- [/ ]", i);
  }

  lemma FourthOfSlash(line: string)
    ensures OccursAt(line, "- [/ ]", 0) ==> |line| > 3 && line[3] == '/'
  {
    assert OccursAt(line, "- [/ ]", 0) ==> line[0..6][3] == line[3];
  }

  lemma NoSlashInBox(rest: string, i: nat)
    requires i < 5
    ensures !OccursAt("- [x]" + rest, "- [/ ]", i)
  {
    var line := "- [x]" + rest;
    if i == 0 { FourthOfSlash(line); } else { NoSlashAt(line, i); }
  }

  lemma NoSlashInSpaces(before: string, spaces: string, rest: string, i: nat)
    requires AllBlank(spaces) && |before| <= i < |before| + |spaces|
    ensures !OccursAt(before + spaces + rest, "- [/ ]", i)
  {
    var line := before + spaces + rest;
    assert line[i] == spaces[i - |before|];
    NoSlashAt(line, i);
  }

  lemma NoSlashInTag(before: string, tag: string, rest: string, i: nat)
    requires IsTag(tag) && |before| <= i < |before| + |tag|
    ensures !OccursAt(before + tag + rest, "- [/ ]", i)
  {
    var line, k := before + tag + rest, i - |before|;
    assert line[i] == tag[k];
    if k + 1 < |tag| { assert line[i + 1] == tag[k + 1]; }
    NoSlashAt(line, i);
  }

  /** The box and the tag hold no `- [/ ]`. */
  lemma SlashIsInTitle(spaces: string, tag: string, title: string, i: nat)
    requires AllBlank(spaces) && IsTag(tag) && IsTitle(title)
    requires OccursAt("- [x]" + spaces + tag + title, "- [/ ]", i)
    ensures i > 5 + |spaces| + |tag| && OccursAt(title, "- [/ ]", i - 5 - |spaces| - |tag|)
  {
    hide AllBlank, IsTag, OccursAt, TrimStart;
    var box, h := "- [x]", 5 + |spaces| + |tag|;
    var line := box + spaces + tag + title;
    assert line == box + (spaces + tag + title) == box + spaces + (tag + title) == (box + spaces) + tag + title;
    if i < 5 { NoSlashInBox(spaces + tag + title, i); }
    if 5 <= i < 5 + |spaces| { NoSlashInSpaces(box, spaces, tag + title, i); }
    if 5 + |spaces| <= i < h { NoSlashInTag(box + spaces, tag, title, i); }
    if i == h {
      assert line[h] == title[0];
      NoSlashAt(line, i);
    }
    OccursInTail(box + spaces + tag, title, i);
  }

  lemma OccursInTail(head: string, tail: string, i: nat)
    requires i >= |head| && OccursAt(head + tail, "- [/ ]", i)
    ensures OccursAt(tail, "- [/ ]", i - |head|)
  {
    assert (head + tail)[i..i + 6] == tail[i - |head|..i - |head| + 6];
  }

  lemma TickedLineIs(raw: string, spaces: string, tag: string, title: string)
    requires StartsWith(raw, "- [ ]") && raw[5..] == spaces + tag + title && AllBlank(spaces) && IsTag(tag)
             && IsTitle(title)
    ensures TickedRaw(raw) == "- [x]" + spaces + tag + TickedTitle(raw, title)
    ensures forall c :: Reads(CheckedRaw(raw), c) == Reads(ReplaceFirst(title, "- [/ ]", "- [x]"), c)
  {
    hide CheckedRaw, Expand, Reads, IsTitle, AllBlank, IsTag;
    CheckedRawIs(raw);
    var head, new_ := "- [x]" + spaces + tag, ReplaceFirst(title, "- [/ ]", "- [x]");
    assert "- [x]" + raw[5..] == head + title;
    SlashesMove(spaces, tag, title);
    NoDollar(spaces, tag);
    ExpandHead(head, new_, raw, "", "");
    forall c ensures Reads(CheckedRaw(raw), c) == Reads(new_, c) {
      ReadsHead(head, new_, c);
    }
  }

  lemma NoDollar(spaces: string, tag: string)
    requires AllBlank(spaces) && IsTag(tag)
    ensures '$' !in "- [x]" + spaces + tag
  {
    assert '$' !in "- [x]" && '$' !in spaces && '$' !in tag;
  }

  lemma SlashIndexMoves(spaces: string, tag: string, title: string)
    requires AllBlank(spaces) && IsTag(tag) && IsTitle(title)
    ensures var head, index := "- [x]" + spaces + tag, IndexOf(title, "- [/ ]");
            IndexOf(head + title, "- [/ ]") == if index.Some? then Some(|head| + index.value) else None
  {
    hide IndexOf, OccursAt, IsTitle, IsTag, AllBlank;
    var head := "- [x]" + spaces + tag;
    var line, h := head + title, |head|;
    forall i: nat | i < h ensures !OccursAt(line, "- [/ ]", i) {
      if OccursAt(line, "- [/ ]", i) { SlashIsInTitle(spaces, tag, title, i); }
    }
    IndexOfSkips(line, "- [/ ]", h);
    assert line[h..] == title;
    if IndexOf(title, "- [/ ]").None? && IndexOf(line, "- [/ ]").Some? {
      SlashIsInTitle(spaces, tag, title, IndexOf(line, "- [/ ]").value);
    }
  }

  lemma SlashesMove(spaces: string, tag: string, title: string)
    requires AllBlank(spaces) && IsTag(tag) && IsTitle(title)
    ensures var head := "- [x]" + spaces + tag;
            ReplaceFirst(head + title, "- [/ ]", "- [x]") == head + ReplaceFirst(title, "- [/ ]", "- [x]")
  {
    hide ReplaceFirst, IndexOf, OccursAt, IsTitle, IsTag, AllBlank;
    var head := "- [x]" + spaces + tag;
    var line, h := head + title, |head|;
    SlashIndexMoves(spaces, tag, title);
    if IndexOf(title, "- [/ ]").Some? {
      var i := IndexOf(title, "- [/ ]").value;
      SlashReplaced(title, i);
      SlashReplaced(line, h + i);
      OccursFits(title, "- [/ ]", i);
      assert line[..h + i] == head + title[..i] && line[h + i + 6..] == title[i + 6..];
    } else {
      NothingReplaced(title);
      NothingReplaced(line);
    }
  }

  lemma OccursFits(s: string, part: string, i: nat)
    requires OccursAt(s, part, i)
    ensures i + |part| <= |s|
  {
  }

  lemma NothingReplaced(s: string)
    requires IndexOf(s, "- [/ ]").None?
    ensures ReplaceFirst(s, "- [/ ]", "- [x]") == s
  {
  }

  /** Replacing in a title keeps it one: its white space, its first other character, and one line. */
  lemma SlashTitle(title: string)
    requires IsTitle(title)
    ensures var new_ := ReplaceFirst(title, "- [/ ]", "- [x]");
            && IsTitle(new_) && new_ != "" && new_[|new_| - 1] == title[|title| - 1]
            && (forall c | c in new_ :: c in title || c in "- [x]")
  {
    hide IndexOf, ReplaceFirst, IsTitle;
    assert title != "" by { LastOfTitle(title); }
    if IndexOf(title, "- [/ ]").Some? {
      var i := IndexOf(title, "- [/ ]").value;
      SlashReplaced(title, i);
      OccursChars(title, "- [/ ]", i);
      assert title[i] == '-' && title[i + 5] == ']';
      SlashInTrimmed(title, i);
      CharsAroundBox(title, i);
    } else {
      NothingReplaced(title);
    }
  }

  lemma CharsAroundBox(s: string, i: nat)
    requires i + 6 <= |s| && s[i + 5] == ']'
    ensures var t := s[..i] + "- [x]" + s[i + 6..];
            t[|t| - 1] == s[|s| - 1] && forall c | c in t :: c in s || c in "- [x]"
  {
    var head, box, rest := s[..i], "- [x]", s[i + 6..];
    var t := head + box + rest;
    if rest == "" {
      assert t[|t| - 1] == box[4] && |s| == i + 6;
    } else {
      assert t[|t| - 1] == rest[|rest| - 1] == s[|s| - 1];
    }
    forall c | c in t ensures c in s || c in box {
      assert c in head || c in box || c in rest;
    }
  }

  lemma SlashInTrimmed(title: string, i: nat)
    requires IsTitle(title) && i + 6 <= |title| && title[i] == '-'
    ensures IsTitle(title[..i] + "- [x]" + title[i + 6..])
  {
    hide TrimStart, OneLine;
    TrimmedSpaces(title);
    var n := |title| - |TrimStart(title)|;
    var spaces, text := title[..n], title[n..];
    NotInSpaces(spaces, text, i);
    OneLineParts(text, i - n);
    var new_ := text[..i - n] + "- [x]" + text[i - n + 6..];
    assert title[..i] + "- [x]" + title[i + 6..] == spaces + new_;
    assert new_[0] == text[0];
    TitleFromParts(spaces, new_);
  }

  lemma NotInSpaces(spaces: string, text: string, i: nat)
    requires AllBlank(spaces) && i < |spaces + text| && (spaces + text)[i] == '-'
    ensures i >= |spaces|
  {
    assert forall k | 0 <= k < |spaces| :: (spaces + text)[k] == spaces[k];
  }

  lemma TitleFromParts(spaces: string, text: string)
    requires spaces != "" && AllBlank(spaces) && text != "" && !IsSpace(text[0]) && OneLine(text)
    ensures IsTitle(spaces + text)
  {
    hide TrimStart, OneLine;
    TrimStartOf(spaces, text);
  }

  lemma OneLineParts(s: string, i: nat)
    requires i + 6 <= |s| && OneLine(s)
    ensures OneLine(s[..i] + "- [x]" + s[i + 6..])
  {
    assert OneLine(s[..i]) && OneLine(s[i + 6..]) && OneLine("- [x]");
  }

  /** Expanding keeps a title one: its white space, its first other character, and one line. */
  lemma ExpandedTitle(raw: string, title: string)
    requires IsTitle(title) && NoSides(title) && ReadsOneLine(title, raw) && raw != "" && raw[0] == '-'
    ensures IsTitle(Expand(title, raw, "", ""))
  {
    hide TrimStart, Expand, OneLine, Reads;
    TrimmedSpaces(title);
    var n := |title| - |TrimStart(title)|;
    var spaces, text := title[..n], title[n..];
    SpacesHaveNoDollar(spaces);
    ExpandHead(spaces, text, raw, "", "");
    forall c ensures Reads(title, c) == Reads(text, c) { ReadsHead(spaces, text, c); }
    if text != "" {
      ExpandEnds(text, raw);
      assert OneLine(Expand(text, raw, "", "")) by { ExpandOneLine(text, raw); }
      assert !IsSpace(text[0]) by { TrimmedHead(title); }
      assert spaces != "";
      TitleFromParts(spaces, Expand(text, raw, "", ""));
    } else {
      NothingExpanded(raw);
      assert spaces == title;
    }
  }

  lemma ExpandOneLine(s: string, matched: string)
    requires OneLine(s) && ReadsOneLine(s, matched)
    ensures OneLine(Expand(s, matched, "", ""))
  {
    hide Expand, Reads;
    ExpandChars(s, matched);
  }

  lemma TrimmedHead(s: string)
    ensures TrimStart(s) != "" ==> !IsSpace(TrimStart(s)[0])
  {
  }

  lemma NothingExpanded(matched: string)
    ensures Expand("", matched, "", "") == ""
  {
  }

  lemma SpacesHaveNoDollar(s: string)
    requires AllBlank(s)
    ensures '$' !in s
  {
  }

  lemma TrimStartsAlike(s: string)
    requires s != "" && !IsSpace(s[0])
    ensures TrimStart(s) == s
    ensures Trim(s) != "" && Trim(s)[0] == s[0]
  {
    TrimEndKeepsHead(s);
  }

  /** A line that starts with a dash is neither a fence nor a heading. */
  lemma DashIsNoFence(line: string)
    requires line != "" && line[0] == '-'
    ensures !IsFence(line) && HeadingOf(line).None?
  {
    TrimStartsAlike(line);
  }

  /** A ticked line is the same item, checked; its title changes only where it holds a pattern or `- [/ ]`. */
  lemma CheckedItem(raw: string)
    requires Tickable(raw)
    ensures var ticked := TickedRaw(raw);
            && ticked != "" && ticked[0] == '-' && '\n' !in ticked && ticked[|ticked| - 1] != '\r'
            && ItemOf(ticked).Some? && ItemOf(ticked).value.mark == 'x'
              && ItemOf(ticked).value.tag == ItemOf(raw).value.tag
            && (NoPattern(raw) && !Includes(raw, "- [/ ]") ==>
                ticked == "- [x]" + raw[5..] && ItemOf(ticked).value.title == ItemOf(raw).value.title)
  {
    hide Tickable, BodyOf, TickedRaw, IsTitle, AllBlank, IsTag, TickedTitle;
    TickableShape(raw);
    var spaces, tag, title := BodyParts(raw[5..]);
    TickedLineIs(raw, spaces, tag, title);
    TickedTitleIs(raw, spaces, tag, title);
    BodyFromParts(spaces, tag, TickedTitle(raw, title));
    var ticked := TickedRaw(raw);
    assert ticked[5..] == spaces + tag + TickedTitle(raw, title);
    assert ticked[..3] == "- [" && ticked[3] == 'x' && ticked[4] == ']';
    NoNewline(raw, spaces, tag, title);
    if NoPattern(raw) && !Includes(raw, "- [/ ]") {
      PlainTicked(raw);
    }
  }

  lemma NoNewline(raw: string, spaces: string, tag: string, title: string)
    requires Tickable(raw) && raw[5..] == spaces + tag + title && |raw| >= 5
    requires forall c | c in TickedTitle(raw, title) :: c in raw || c in "- [x]"
    ensures '\n' !in "- [x]" + spaces + tag + TickedTitle(raw, title)
  {
    hide ItemOf, CheckedRaw, ContextFree, TickedTitle, NoSides, OneLine;
    assert forall i | 0 <= i < |raw[5..]| :: raw[5..][i] == raw[i + 5];
    assert '\n' !in spaces + tag + title;
    assert '\n' !in spaces && '\n' !in tag && '\n' !in TickedTitle(raw, title);
  }

  lemma PlainTicked(raw: string)
    requires StartsWith(raw, "- [ ]") && NoPattern(raw) && !Includes(raw, "- [/ ]")
    ensures TickedRaw(raw) == "- [x]" + raw[5..]
  {
    hide CheckedRaw, Includes;
    CheckedRawIs(raw);
    var checked := "- [x]" + raw[5..];
    assert raw[..5] == "- [ ]";
    assert forall i | 5 <= i < |raw| :: checked[i] == raw[i];
    ExpandPlain(checked, raw, "", "");
  }

  lemma TickedTitleIs(raw: string, spaces: string, tag: string, title: string)
    requires Tickable(raw) && raw[5..] == spaces + tag + title && AllBlank(spaces) && IsTag(tag) && IsTitle(title)
    ensures var ticked := TickedTitle(raw, title);
            && IsTitle(ticked) && ticked != "" && ticked[|ticked| - 1] != '\r'
            && forall c | c in ticked :: c in raw || c in "- [x]"
  {
    hide ReplaceFirst, Expand, IsTitle, OneLine, Reads, AllBlank, IsTag, Tickable, ItemOf, CheckedRaw;
    TickableShape(raw);
    TickedLineIs(raw, spaces, tag, title);
    SlashTitle(title);
    var slashed := ReplaceFirst(title, "- [/ ]", "- [x]");
    ExpandedTitle(raw, slashed);
    ExpandChars(slashed, raw);
    ExpandEnds(slashed, raw);
    LastOfItem(raw);
    LastOfTitle(title);
    InParts(raw, spaces, tag, title);
  }

  lemma InParts(raw: string, spaces: string, tag: string, title: string)
    requires |raw| >= 5 && raw[5..] == spaces + tag + title
    ensures forall c | c in title :: c in raw
  {
    forall c | c in title ensures c in raw {
      assert c in raw[5..];
    }
  }

  lemma TickableShape(raw: string)
    requires Tickable(raw)
    ensures |raw| >= 5 && raw[0] == '-' && raw[1] == ' ' && raw[2] == '[' && raw[3] == ' ' && raw[4] == ']'
    ensures StartsWith(raw, "- [ ]") && ItemOf(raw).Some? && '\n' !in raw && NoSides(CheckedRaw(raw))
            && ReadsOneLine(CheckedRaw(raw), raw)
  {
    hide ItemOf, CheckedRaw, Reads, OneLine;
    assert raw[..5] == "- [ ]";
  }

  // ---- Scanning a file with one line checked ----

  /** The item as it is read from its new line. */
  function Checked(item: ProgressItem, raw: string): ProgressItem {
    item.(raw := raw, title := if ItemOf(raw).Some? then ItemOf(raw).value.title else item.title, checked := true)
  }

  function Ticked(item: ProgressItem): ProgressItem {
    Checked(item, TickedRaw(item.raw))
  }

  /** The position among the items of the item on line `k`. */
  function ItemIndex(lines: seq<string>, k: nat): nat
    requires k < |lines|
  {
    |Scan(lines[..k]).items|
  }

  /** The lines before an open one are scanned alike, and it is scanned as an item. */
  lemma ScanOpen(lines: seq<string>, k: nat)
    requires OpenAt(lines, k)
    ensures var s := Scan(lines[..k]);
            Scan(lines[..k + 1]) == Scanned(HeadingOf(lines[k]).Or(s.phase), false,
                                            s.items + [NewItem(lines[k], ItemOf(lines[k]).value,
                                                               HeadingOf(lines[k]).Or(s.phase))])
  {
    hide IsFence, HeadingOf, ItemOf, DetailOf;
    assert lines[..k + 1][..k] == lines[..k];
  }

  lemma ScanOpened(lines: seq<string>, k: nat)
    requires OpenAt(lines, k) && Tickable(lines[k])
    ensures var lines' := lines[k := TickedRaw(lines[k])];
            var s, s', m := Scan(lines[..k + 1]), Scan(lines'[..k + 1]), ItemIndex(lines, k);
            && m < |s.items| && !s.items[m].checked && s.items[m].raw == lines[k]
            && s' == s.(items := s.items[m := Checked(s.items[m], TickedRaw(lines[k]))])
  {
    hide Tickable, TickedRaw, IsFence, HeadingOf, ItemOf, DetailOf;
    var checked := TickedRaw(lines[k]);
    var lines' := lines[k := checked];
    ScanOpen(lines, k);
    CheckedItem(lines[k]);
    TickableShape(lines[k]);
    DashIsNoFence(lines[k]);
    DashIsNoFence(checked);
    assert lines'[..k + 1][..k] == lines[..k];
  }

  lemma {:induction false} ScanChecked(lines: seq<string>, k: nat, n: nat)
    requires OpenAt(lines, k) && Tickable(lines[k]) && k < n <= |lines|
    ensures var lines' := lines[k := TickedRaw(lines[k])];
            var s, s', m := Scan(lines[..n]), Scan(lines'[..n]), ItemIndex(lines, k);
            && m < |s.items| && !s.items[m].checked && s.items[m].raw == lines[k]
            && s' == s.(items := s.items[m := Checked(s.items[m], TickedRaw(lines[k]))])
  {
    hide Tickable, TickedRaw, ScanLine, OpenAt, Checked;
    if n == k + 1 {
      ScanOpened(lines, k);
    } else {
      var lines' := lines[k := TickedRaw(lines[k])];
      assert lines[..n][..n - 1] == lines[..n - 1] && lines'[..n][..n - 1] == lines'[..n - 1];
      ScanChecked(lines, k, n - 1);
      assert lines'[n - 1] == lines[n - 1];
      ScanLineCommutes(Scan(lines[..n - 1]), lines[n - 1], ItemIndex(lines, k), TickedRaw(lines[k]));
    }
  }

  /** Checking an earlier item and scanning a line commute. */
  lemma ScanLineCommutes(s: Scanned, line: string, m: nat, raw: string)
    requires m < |s.items|
    ensures var t := ScanLine(s, line);
            && m < |t.items| && t.items[m].checked == s.items[m].checked && t.items[m].raw == s.items[m].raw
            && ScanLine(s.(items := s.items[m := Checked(s.items[m], raw)]), line) ==
              t.(items := t.items[m := Checked(t.items[m], raw)])
  {
    hide IsFence, HeadingOf, ItemOf, DetailOf, FieldOf, ParseList, Trim;
  }

  // ---- Which line an item came from ----

  /** The first open item of the file stands on the first open line. */
  lemma {:induction false} OpenItemLine(lines: seq<string>, n: nat, m: nat) returns (k: nat)
    requires n <= |lines| && m < |Scan(lines[..n]).items| && !Scan(lines[..n]).items[m].checked
    ensures k < n && OpenAt(lines, k) && ItemIndex(lines, k) == m && lines[k] == Scan(lines[..n]).items[m].raw
  {
    hide IsFence, HeadingOf, ItemOf, DetailOf, FieldOf, ParseList, Trim;
    assert lines[..n][..n - 1] == lines[..n - 1];
    if m < |Scan(lines[..n - 1]).items| {
      k := OpenItemLine(lines, n - 1, m);
    } else {
      k := n - 1;
    }
  }

  lemma {:induction false} ItemIndexGrows(lines: seq<string>, k: nat, n: nat)
    requires k <= n <= |lines|
    ensures |Scan(lines[..k]).items| <= |Scan(lines[..n]).items|
    ensures k < n && OpenAt(lines, k) ==>
            |Scan(lines[..k]).items| < |Scan(lines[..n]).items| && !Scan(lines[..n]).items[ItemIndex(lines, k)].checked
  {
    hide IsFence, HeadingOf, ItemOf, DetailOf, FieldOf, ParseList, Trim;
    if k < n {
      assert lines[..n][..n - 1] == lines[..n - 1];
      ItemIndexGrows(lines, k, n - 1);
    }
  }

  // ---- From text to lines ----

  lemma IndexOfSkips(text: string, part: string, n: nat)
    requires n <= |text| && forall i: nat | i < n :: !OccursAt(text, part, i)
    ensures IndexOf(text[n..], part).Some? ==> IndexOf(text, part) == Some(n + IndexOf(text[n..], part).value)
  {
    var rest := text[n..];
    if IndexOf(rest, part).Some? {
      var i := IndexOf(rest, part).value;
      assert text[n + i..n + i + |part|] == rest[i..i + |part|];
      forall j: nat | j < n + i ensures !OccursAt(text, part, j) {
        if j >= n && j + |part| <= |text| {
          assert text[j..j + |part|] == rest[j - n..j - n + |part|];
          assert !OccursAt(rest, part, j - n);
        }
      }
      IndexIs(text, part, n + i);
    }
  }

  /** An occurrence without a line end lies in one line, and not in its carriage return. */
  lemma OccursInLine(text: string, part: string, i: nat)
    requires OccursAt(text, part, i) && '\n' !in part && part != "" && i <= |Before(text, '\n')|
    requires part[|part| - 1] != '\r'
    ensures Includes(ChopReturn(Before(text, '\n')), part)
  {
    hide Before, ChopReturn;
    var chopped := ChopReturn(Before(text, '\n'));
    OccursBeforeEnd(text, part, i);
    SameChars(chopped[i..i + |part|], part);
    OccursIncludes(chopped, part, i);
  }

  lemma OccursBeforeEnd(text: string, part: string, i: nat)
    requires OccursAt(text, part, i) && '\n' !in part && part != "" && i <= |Before(text, '\n')|
    requires part[|part| - 1] != '\r'
    ensures var chopped := ChopReturn(Before(text, '\n'));
            i + |part| <= |chopped| && forall x | 0 <= x < |part| :: chopped[i..i + |part|][x] == part[x]
  {
    hide Before;
    var line := Before(text, '\n');
    OccursChars(text, part, i);
    assert |line| < |text| ==> text[|line|] == '\n';
    assert i + |part| <= |line|;
    assert part[|part| - 1] == text[i + |part| - 1];
  }

  predicate OnOneLine(raw: string) {
    raw != "" && '\n' !in raw && raw[|raw| - 1] != '\r'
  }

  lemma UnfoldLines(text: string)
    ensures var line := Before(text, '\n');
            Lines(text) == if |line| == |text| then [line] else [ChopReturn(line)] + Lines(text[|line| + 1..])
  {
  }

  lemma LinesOfPrefixed(line: string, rest: string)
    requires '\n' !in line
    ensures Lines(line + "\n" + rest) == [ChopReturn(line)] + Lines(rest)
  {
    hide Lines;
    var text := line + "\n" + rest;
    assert text == line + ("\n" + rest);
    BeforeOfJoined(line, "\n" + rest, '\n');
    assert Before("\n" + rest, '\n') == "" && line + "" == line;
    assert text[|line| + 1..] == rest;
    UnfoldLines(text);
  }

  /** Replacing the text of the first line that holds it replaces that line. */
  lemma {:induction false} LinesReplaced(text: string, raw: string, new_: string, k: nat)
    requires OnOneLine(raw) && OnOneLine(new_)
    requires k < |Lines(text)| && Lines(text)[k] == raw && forall j | 0 <= j < k :: !Includes(Lines(text)[j], raw)
    ensures var i := IndexOf(text, raw);
            i.Some? && i.value + |raw| <= |text|
              && Lines(text[..i.value] + new_ + text[i.value + |raw|..]) == Lines(text)[k := new_]
    decreases |text|
  {
    hide IndexOf, Includes, Lines, OnOneLine, Before, ChopReturn;
    if k == 0 {
      FirstLineReplaced(text, raw, new_);
      IndexAtStart(text, raw);
      assert text[..0] + new_ + text[|raw|..] == new_ + text[|raw|..];
    } else {
      UnfoldLines(text);
      var line := Before(text, '\n');
      var rest := text[|line| + 1..];
      forall j | 0 <= j < k - 1 ensures !Includes(Lines(rest)[j], raw) {
        assert Lines(rest)[j] == Lines(text)[j + 1];
      }
      LinesReplaced(rest, raw, new_, k - 1);
      assert !Includes(Lines(text)[0], raw);
      NotInFirstLine(text, raw);
      IndexOfSkips(text, raw, |line| + 1);
      var i := IndexOf(rest, raw).value;
      SplicedAfterLine(text, line, i, |raw|, new_);
      LinesOfPrefixed(line, rest[..i] + new_ + rest[i + |raw|..]);
    }
  }

  lemma SplicedAfterLine(text: string, line: string, i: nat, n: nat, new_: string)
    requires |line| < |text| && line == text[..|line|] && text[|line|] == '\n' && |line| + 1 + i + n <= |text|
    ensures var rest := text[|line| + 1..];
            text[..|line| + 1 + i] + new_ + text[|line| + 1 + i + n..]
            == line + "\n" + (rest[..i] + new_ + rest[i + n..])
  {
    assert text[..|line| + 1 + i] == line + "\n" + text[|line| + 1..][..i];
  }

  lemma NotInFirstLine(text: string, raw: string)
    requires OnOneLine(raw) && |Before(text, '\n')| < |text| && !Includes(ChopReturn(Before(text, '\n')), raw)
    ensures forall i: nat | i < |Before(text, '\n')| + 1 :: !OccursAt(text, raw, i)
  {
    hide Includes, ChopReturn, Before, OccursAt;
    forall i: nat | i < |Before(text, '\n')| + 1 ensures !OccursAt(text, raw, i) {
      if OccursAt(text, raw, i) { OccursInLine(text, raw, i); }
    }
  }

  lemma IndexAtStart(text: string, raw: string)
    requires raw <= text
    ensures IndexOf(text, raw) == Some(0)
  {
    assert OccursAt(text, raw, 0);
    IndexIs(text, raw, 0);
  }

  lemma FirstLineReplaced(text: string, raw: string, new_: string)
    requires OnOneLine(raw) && OnOneLine(new_) && Lines(text) != [] && Lines(text)[0] == raw
    ensures raw <= text && Lines(new_ + text[|raw|..]) == Lines(text)[0 := new_]
  {
    hide Lines, Before, ChopReturn, OnOneLine;
    UnfoldLines(text);
    var line := Before(text, '\n');
    if |line| == |text| {
      assert new_ + text[|raw|..] == new_;
      OneLineOfPlain(new_);
    } else {
      FirstTerminatedLine(text, raw, new_);
    }
  }

  lemma FirstTerminatedLine(text: string, raw: string, new_: string)
    requires OnOneLine(new_) && |Before(text, '\n')| < |text| && ChopReturn(Before(text, '\n')) == raw
    ensures raw <= text && Lines(new_ + text[|raw|..]) == [new_] + Lines(text[|Before(text, '\n')| + 1..])
  {
    hide Lines, Before, ChopReturn, OnOneLine;
    var line := Before(text, '\n');
    var end := EndOf(line);
    SplitAtEnd(text, raw, end, text[|line| + 1..]);
    LinesOfHead(new_, end, text[|line| + 1..]);
  }

  lemma LinesOfHead(line: string, end: string, rest: string)
    requires OnOneLine(line) && (end == "" || end == "\r")
    ensures Lines(line + (end + ("\n" + rest))) == [line] + Lines(rest)
  {
    hide Lines;
    ChopEnd(line, end);
    LinesOfPrefixed(line + end, rest);
    assert line + (end + ("\n" + rest)) == line + end + "\n" + rest;
  }

  lemma SplitAtEnd(text: string, raw: string, end: string, rest: string)
    requires |raw + end| < |text| && raw + end == text[..|raw + end|] && text[|raw + end|] == '\n'
             && rest == text[|raw + end| + 1..]
    ensures raw <= text && text[|raw|..] == end + ("\n" + rest)
  {
    assert text == text[..|raw + end|] + [text[|raw + end|]] + rest;
  }

  /** The carriage return that `ChopReturn` takes away. */
  lemma EndOf(line: string) returns (end: string)
    ensures line == ChopReturn(line) + end && (end == "" || end == "\r")
  {
    end := line[|ChopReturn(line)|..];
  }

  lemma OneLineOfPlain(line: string)
    requires OnOneLine(line)
    ensures Lines(line) == [line]
  {
    hide Lines;
    LinesOfPlain(line);
  }

  lemma ChopEnd(line: string, end: string)
    requires OnOneLine(line) && (end == "" || end == "\r")
    ensures ChopReturn(line + end) == line && '\n' !in line + end
  {
    assert line + "" == line;
  }

  lemma LinesOfPlain(line: string)
    requires '\n' !in line
    ensures Lines(line) == [line]
  {
    BeforeOfJoined(line, "", '\n');
    assert line + "" == line;
  }

  // ---- Ticking the first open item ----

  /** `m` is the position of the first item that is not checked. */
  predicate IsFirstOpen(items: seq<ProgressItem>, m: nat) {
    m < |items| && !items[m].checked && forall i | 0 <= i < m :: items[i].checked
  }

  lemma {:induction false} FirstOpenHeads(items: seq<ProgressItem>, m: nat)
    requires IsFirstOpen(items, m)
    ensures OpenItems(items) == [items[m]] + OpenItems(items[m + 1..])
    ensures forall checked: ProgressItem | checked.checked ::
            OpenItems(items[m := checked]) == OpenItems(items[m + 1..])
  {
    if m == 0 {
      forall checked: ProgressItem | checked.checked ensures OpenItems(items[0 := checked]) == OpenItems(items[1..]) {
        assert items[0 := checked][1..] == items[1..];
      }
    } else {
      FirstOpenHeads(items[1..], m - 1);
      assert items[1..][m..] == items[m + 1..];
      forall checked: ProgressItem | checked.checked
        ensures OpenItems(items[m := checked]) == OpenItems(items[m + 1..]) {
        assert items[m := checked][1..] == items[1..][m - 1 := checked];
      }
    }
  }

  lemma {:induction false} FirstOpenExists(items: seq<ProgressItem>) returns (m: nat)
    requires OpenItems(items) != []
    ensures IsFirstOpen(items, m) && OpenItems(items)[0] == items[m]
  {
    if !items[0].checked {
      m := 0;
    } else {
      m := FirstOpenExists(items[1..]);
      m := m + 1;
    }
    FirstOpenHeads(items, m);
  }

  lemma TickableOnOneLine(raw: string)
    requires Tickable(raw)
    ensures OnOneLine(raw) && OnOneLine(TickedRaw(raw))
  {
    hide ItemOf, TickedRaw, Tickable;
    TickableShape(raw);
    LastOfItem(raw);
    CheckedItem(raw);
  }

  /** `t` is a suffix of `s`. */
  predicate EndsAs(s: string, t: string) {
    |t| <= |s| && t == s[|s| - |t|..]
  }

  lemma LastOfItem(line: string)
    requires ItemOf(line).Some?
    ensures |line| > 5 && line[|line| - 1] != '\r'
  {
    hide TagLetters, TagOf, TrimStart, Trim;
    TrimStartIsTail(line[5..]);
    var body := TrimStart(line[5..]);
    var title := body[|TagOf(body)|..];
    LastOfTitle(title);
    assert EndsAs(line, title);
  }

  lemma LastOfTitle(title: string)
    requires IsTitle(title)
    ensures title != "" && title[|title| - 1] != '\r'
  {
    hide TrimStart;
    TrimStartIsTail(title);
    var trimmed := TrimStart(title);
    if trimmed != "" {
      assert trimmed[|trimmed| - 1] == title[|title| - 1];
    }
  }

  lemma TickOneIs(text: string, raw: string, i: nat)
    requires IndexOf(text, raw) == Some(i)
    ensures i + |raw| <= |text|
    ensures TickOne(text, raw) == text[..i] + Expand(CheckedRaw(raw), raw, text[..i], text[i + |raw|..])
            + text[i + |raw|..]
  {
    hide CheckedRaw, Expand, IndexOf;
    OccursIncludes(text, raw, i);
  }

  lemma TickWritesLine(text: string, raw: string, i: nat)
    requires IndexOf(text, raw) == Some(i) && Tickable(raw)
    ensures i + |raw| <= |text| && TickOne(text, raw) == text[..i] + TickedRaw(raw) + text[i + |raw|..]
  {
    hide IndexOf, CheckedRaw, TickOne, Expand, ItemOf, NoSides;
    TickOneIs(text, raw, i);
    TickableShape(raw);
    ExpandSideless(CheckedRaw(raw), raw, text[..i], text[i + |raw|..]);
  }

  /** Ticking the first open item checks its line and leaves the others. */
  lemma TickChecksLine(text: string, k: nat, m: nat)
    requires k < |Lines(text)| && Tidy(Lines(text)) && OpenAt(Lines(text), k)
    requires ItemIndex(Lines(text), k) == m && IsFirstOpen(Items(text), m)
    ensures Lines(TickOne(text, Lines(text)[k])) == Lines(text)[k := TickedRaw(Lines(text)[k])]
  {
    hide Lines, Scan, Tickable, IndexOf, TickedRaw, Includes, OpenAt, IsFirstOpen, ItemIndex, OnOneLine, OccursAt,
      TickOne, Tidy;
    var lines := Lines(text);
    var raw := lines[k];
    TidyAt(lines, k, k);
    forall j | 0 <= j < k ensures !Includes(lines[j], raw) {
      if Includes(lines[j], raw) {
        TidyAt(lines, k, j);
        assert lines[..|lines|] == lines;
        NoOpenBefore(lines, j, k, m);
      }
    }
    TickableOnOneLine(raw);
    LinesReplaced(text, raw, TickedRaw(raw), k);
    TickWritesLine(text, raw, IndexOf(text, raw).value);
  }

  lemma NoOpenBefore(lines: seq<string>, j: nat, k: nat, m: nat)
    requires j < k < |lines| && OpenAt(lines, k) && ItemIndex(lines, k) == m
             && IsFirstOpen(Scan(lines[..|lines|]).items, m)
    ensures !OpenAt(lines, j)
  {
    hide OpenAt, Scan;
    if OpenAt(lines, j) {
      ItemIndexGrows(lines, j, |lines|);
      ItemIndexGrows(lines, j, k);
      assert false;
    }
  }

  lemma {:induction false} FenceUnchanged(lines: seq<string>, k: nat, j: nat)
    requires k < |lines| && OpenAt(lines, k) && Tickable(lines[k]) && j <= |lines|
    ensures Scan(lines[k := TickedRaw(lines[k])][..j]).inFence == Scan(lines[..j]).inFence
  {
    hide Scan, OpenAt, Tickable, TickedRaw;
    if j <= k {
      assert lines[k := TickedRaw(lines[k])][..j] == lines[..j];
    } else {
      ScanChecked(lines, k, j);
    }
  }

  /** Checking an open line opens no other and closes it. */
  lemma OpenAfterCheck(lines: seq<string>, k: nat, j: nat)
    requires k < |lines| && OpenAt(lines, k) && Tickable(lines[k]) && j < |lines|
    ensures OpenAt(lines[k := TickedRaw(lines[k])], j) <==> OpenAt(lines, j) && j != k
  {
    hide Scan, Tickable, TickedRaw, IsFence, ItemOf;
    FenceUnchanged(lines, k, j);
    CheckedItem(lines[k]);
  }

  predicate Plain(raw: string) {
    NoPattern(raw) && !Includes(raw, "- [/ ]")
  }

  /** On lines without patterns and `- [/ ]` a tick brings no open item's text in, so that a file is tidy when no line
      but an open item's own holds its text. */
  lemma PlainIsTidy(lines: seq<string>)
    requires forall k | 0 <= k < |lines| && OpenAt(lines, k) :: Tickable(lines[k]) && Plain(lines[k])
    requires forall k, j | 0 <= k < |lines| && 0 <= j < |lines| && OpenAt(lines, k) && Includes(lines[j], lines[k]) ::
               lines[j] == lines[k] && OpenAt(lines, j)
    ensures Tidy(lines)
  {
    hide Tickable, Plain, OpenAt, Includes, TickedRaw;
    forall k, j | 0 <= k < |lines| && 0 <= j < |lines| && OpenAt(lines, k) && OpenAt(lines, j)
      ensures !Includes(TickedRaw(lines[j]), lines[k])
    {
      NotInChecked(lines[j], lines[k]);
    }
  }

  /** An open item's text does not occur in the line that has just been checked. */
  lemma NotInChecked(raw: string, other: string)
    requires Tickable(raw) && Tickable(other) && Plain(raw) && (Includes(raw, other) ==> raw == other)
    ensures !Includes(TickedRaw(raw), other)
  {
    hide ItemOf, Tickable, TickedRaw, Includes;
    TickableShape(raw);
    TickableShape(other);
    PlainTicked(raw);
    if Includes(TickedRaw(raw), other) {
      var i := OccurrenceIn(TickedRaw(raw), other);
      OccursInRest(raw, other, i);
      OccursIncludes(raw, other, i);
    }
  }

  lemma OccurrenceIn(s: string, part: string) returns (i: nat)
    requires Includes(s, part)
    ensures OccursAt(s, part, i)
  {
    i :| 0 <= i <= |s| - |part| && OccursAt(s, part, i);
  }

  lemma TidyAfterCheck(lines: seq<string>, k: nat)
    requires Tidy(lines) && k < |lines| && OpenAt(lines, k)
    ensures Tidy(lines[k := TickedRaw(lines[k])])
  {
    hide OpenAt, Tickable, TickedRaw, Includes;
    var lines' := lines[k := TickedRaw(lines[k])];
    TidyAt(lines, k, k);
    forall a, j | 0 <= a < |lines'| && 0 <= j < |lines'| && OpenAt(lines', a)
      ensures Tickable(lines'[a]) && (Includes(lines'[j], lines'[a]) ==> lines'[j] == lines'[a] && OpenAt(lines', j))
      ensures j != a && OpenAt(lines', j) ==> !Includes(TickedRaw(lines'[j]), lines'[a])
    {
      OpenAfterCheck(lines, k, a);
      OpenAfterCheck(lines, k, j);
      TidyAt(lines, a, j);
      TidyAt(lines, a, k);
    }
  }

  lemma TidyAt(lines: seq<string>, k: nat, j: nat)
    requires Tidy(lines) && k < |lines| && j < |lines| && OpenAt(lines, k)
    ensures Tickable(lines[k]) && (Includes(lines[j], lines[k]) ==> lines[j] == lines[k] && OpenAt(lines, j))
    ensures j != k && OpenAt(lines, j) ==> !Includes(TickedRaw(lines[j]), lines[k])
  {
    hide OpenAt, Tickable, Includes, TickedRaw;
  }

  /** Ticking the first open item of a tidy file checks exactly that item, and the file stays tidy. */
  lemma TickFirstOpen(text: string, m: nat)
    requires Tidy(Lines(text)) && IsFirstOpen(Items(text), m)
    ensures var text' := TickOne(text, Items(text)[m].raw);
            && Tidy(Lines(text'))
            && Items(text') == Items(text)[m := Ticked(Items(text)[m])]
  {
    hide Lines, Scan, OpenAt, Tickable, TickedRaw, TickOne, Tidy, IsFirstOpen, Checked;
    var lines := Lines(text);
    assert lines[..|lines|] == lines;
    FirstOpenIsOpen(Items(text), m);
    var k := OpenItemLine(lines, |lines|, m);
    TidyAt(lines, k, k);
    TickChecksLine(text, k, m);
    TidyAfterCheck(lines, k);
    ScanChecked(lines, k, |lines|);
    var lines' := lines[k := TickedRaw(lines[k])];
    assert lines'[..|lines|] == lines';
  }

  lemma FirstOpenIsOpen(items: seq<ProgressItem>, m: nat)
    requires IsFirstOpen(items, m)
    ensures m < |items| && !items[m].checked
  {
  }

  /** The same items, some of the open ones ticked meanwhile. */
  predicate Advanced(items: seq<ProgressItem>, items': seq<ProgressItem>) {
    |items| == |items'| &&
    forall i | 0 <= i < |items| :: items'[i] == items[i] || (!items[i].checked && items'[i] == Ticked(items[i]))
  }

  /** Ticking the first `n` open items of a tidy file leaves exactly the other open items, unchanged. */
  lemma {:induction false} TickPrefix(text: string, n: nat)
    requires Tidy(Lines(text)) && n <= |OpenItems(Items(text))|
    ensures var text' := TickAll(text, OpenItems(Items(text))[..n]);
            && Tidy(Lines(text')) && Advanced(Items(text), Items(text'))
            && OpenItems(Items(text')) == OpenItems(Items(text))[n..]
    decreases n
  {
    hide Lines, Scan, Tidy, TickOne, TickedRaw, ItemOf, IsFirstOpen, OpenItems;
    var items := Items(text);
    var open := OpenItems(items);
    if n > 0 {
      var m := FirstOpenExists(items);
      FirstOpenIsOpen(items, m);
      TickFirstOpen(text, m);
      FirstOpenHeads(items, m);
      var text1 := TickOne(text, items[m].raw);
      assert OpenItems(Items(text1)) == open[1..];
      TickPrefix(text1, n - 1);
      assert open[..n][1..] == open[1..][..n - 1];
    }
  }

  /** No line holds the text `part`, also after it is ticked. */
  predicate KeptOut(lines: seq<string>, part: string) {
    forall j | 0 <= j < |lines| ::
      !Includes(lines[j], part) && (OpenAt(lines, j) ==> !Includes(TickedRaw(lines[j]), part))
  }

  /** A text that a check mark cannot complete. */
  predicate Unmarked(part: string) {
    |part| > 4 && part[0] == '-' && 'x' !in part && '$' !in part && '\n' !in part && part[|part| - 1] != '\r'
  }

  /** Such a text stays out of a tidy file whose open items read no pattern but `$$`. */
  lemma UnmarkedIsKeptOut(lines: seq<string>, part: string)
    requires Tidy(lines) && Unmarked(part) && forall j | 0 <= j < |lines| :: !Includes(lines[j], part)
    requires forall j | 0 <= j < |lines| && OpenAt(lines, j) :: ContextFree(CheckedRaw(lines[j]))
    ensures KeptOut(lines, part)
  {
    hide Tidy, OpenAt, Tickable, TickedRaw, Includes, Unmarked, ContextFree, CheckedRaw;
    forall j | 0 <= j < |lines| && OpenAt(lines, j) ensures !Includes(TickedRaw(lines[j]), part) {
      TidyAt(lines, j, j);
      KeptOutOfChecked(lines[j], part);
    }
  }

  lemma KeptOutOfChecked(raw: string, part: string)
    requires Tickable(raw) && ContextFree(CheckedRaw(raw)) && Unmarked(part) && !Includes(raw, part)
    ensures !Includes(TickedRaw(raw), part)
  {
    hide ItemOf, Tickable, CheckedRaw, Includes, Unmarked, Undollar, Expand, ContextFree;
    TickableShape(raw);
    CheckedRawIs(raw);
    ExpandDollars(CheckedRaw(raw), raw, "", "");
    if Includes(TickedRaw(raw), part) {
      var i := OccurrenceIn(TickedRaw(raw), part);
      assert part != "" && '$' !in part by { UnmarkedHasNoDollar(part); }
      UndollarOccurs(CheckedRaw(raw), part, i);
      KeptOutOfBoxes(raw, part);
    }
  }

  lemma UnmarkedHasNoDollar(part: string)
    requires Unmarked(part)
    ensures part != "" && '$' !in part
  {
  }

  lemma KeptOutOfBoxes(raw: string, part: string)
    requires StartsWith(raw, "- [ ]") && Unmarked(part)
             && Includes(ReplaceFirst("- [x]" + raw[5..], "- [/ ]", "- [x]"), part)
    ensures Includes(raw, part)
  {
    hide Includes, Unmarked, IndexOf, ReplaceFirst;
    var box := "- [x]" + raw[5..];
    assert raw[..5] == "- [ ]";
    assert raw == "" + "- [ ]" + raw[5..] && box == "" + "- [x]" + raw[5..];
    var line := ReplaceFirst(box, "- [/ ]", "- [x]");
    if IndexOf(box, "- [/ ]").Some? {
      var i := IndexOf(box, "- [/ ]").value;
      SlashReplaced(box, i);
      OccursFits(box, "- [/ ]", i);
      assert box[i..i + 6] == "- [/ ]";
      assert box == box[..i] + "- [/ ]" + box[i + 6..];
      var k := OccurrenceIn(line, part);
      OccursAroundBox(box[..i], "- [/ ]", box[i + 6..], part, k);
    } else {
      NothingReplaced(box);
    }
    var k := OccurrenceIn(box, part);
    OccursAroundBox("", "- [ ]", raw[5..], part, k);
  }

  /** A text that a check mark cannot complete occurs around it only where it occurred around what the mark replaced. */
  lemma OccursAroundBox(before: string, old_: string, after: string, part: string, k: nat)
    requires Unmarked(part) && OccursAt(before + "- [x]" + after, part, k) && |old_| >= 3 && old_[..3] == "- ["
    ensures Includes(before + old_ + after, part)
  {
    hide Includes;
    var line, was, n := before + "- [x]" + after, before + old_ + after, |before|;
    OccursChars(line, part, k);
    assert line[n + 3] == 'x' && line[n + 4] == ']';
    assert line[k] == '-';
    if k + |part| <= n + 3 {
      assert line[..n + 3] == was[..n + 3] by { assert "- [x]"[..3] == old_[..3]; }
      assert was[k..k + |part|] == was[..n + 3][k..k + |part|] == line[k..k + |part|];
      OccursIncludes(was, part, k);
    } else {
      assert k > n + 3;
      assert k >= n + 5;
      var d := k - n - 5;
      assert line[k..k + |part|] == after[d..d + |part|];
      assert was[n + |old_| + d..n + |old_| + d + |part|] == after[d..d + |part|];
      OccursIncludes(was, part, n + |old_| + d);
    }
  }

  /** Ticking brings no such text into the file. */
  lemma {:induction false} TickKeepsOut(text: string, n: nat, part: string)
    requires Tidy(Lines(text)) && n <= |OpenItems(Items(text))| && KeptOut(Lines(text), part)
    ensures KeptOut(Lines(TickAll(text, OpenItems(Items(text))[..n])), part)
    decreases n
  {
    hide Lines, Scan, Tidy, TickOne, TickedRaw, IsFirstOpen, OpenItems, Includes, Tickable, OpenAt;
    var items := Items(text);
    var open := OpenItems(items);
    if n > 0 {
      var m := FirstOpenExists(items);
      FirstOpenIsOpen(items, m);
      TickFirstOpen(text, m);
      FirstOpenHeads(items, m);
      var lines := Lines(text);
      assert lines[..|lines|] == lines;
      var k := OpenItemLine(lines, |lines|, m);
      TidyAt(lines, k, k);
      TickChecksLine(text, k, m);
      forall j | 0 <= j < |lines| ensures OpenAt(lines[k := TickedRaw(lines[k])], j) ==> OpenAt(lines, j) && j != k {
        OpenAfterCheck(lines, k, j);
      }
      TickKeepsOut(TickOne(text, items[m].raw), n - 1, part);
      assert open[..n][1..] == open[1..][..n - 1];
    }
  }

  /** A text that no line holds does not occur in the file. */
  lemma {:induction false} KeptOutOfText(text: string, part: string)
    requires OnOneLine(part) && forall j | 0 <= j < |Lines(text)| :: !Includes(Lines(text)[j], part)
    ensures !Includes(text, part)
    decreases |text|
  {
    hide Includes, Lines, Before, ChopReturn, OnOneLine;
    UnfoldLines(text);
    var line := Before(text, '\n');
    assert !Includes(Lines(text)[0], part);
    if |line| < |text| { NotInFirstLine(text, part); } else { assert line == text; }
    if Includes(text, part) && |line| < |text| {
      var i := OccurrenceIn(text, part);
      if i > |line| {
        var rest := text[|line| + 1..];
        assert forall j | 0 <= j < |Lines(rest)| :: Lines(rest)[j] == Lines(text)[j + 1];
        KeptOutOfText(rest, part);
        assert rest[i - |line| - 1..i - |line| - 1 + |part|] == text[i..i + |part|];
        OccursIncludes(rest, part, i - |line| - 1);
      }
    }
  }
}
