/** What ticking an item writes into the progress file: the checked line exactly when its title holds no replacement
    pattern (tools/klevar-yolo-runtime/src/progress-updater.ts:4-12). */
module ProgressWrites {
  import opened Wrappers
  import opened Text
  import opened ProgressFile
  import opened ProgressProperties

  // ---- What ticking writes ----

  function Meaning(c: char, matched: string, before: string, after: string): string {
    match c
    case '$' => "$"
    case '&' => matched
    case '`' => before
    case _ => after
  }

  /** Ticking an item whose new line holds no pattern writes that line. */
  lemma TickWrites(text: string, raw: string, i: nat)
    requires IndexOf(text, raw) == Some(i) && NoPattern(CheckedRaw(raw))
    ensures i + |raw| <= |text| && TickOne(text, raw) == text[..i] + CheckedRaw(raw) + text[i + |raw|..]
  {
    hide CheckedRaw, TickOne, NoPattern, Expand;
    TickOneIs(text, raw, i);
    ExpandPlain(CheckedRaw(raw), raw, text[..i], text[i + |raw|..]);
  }

  /** Ticking an item whose new line holds a pattern writes the line up to the first one, what it stands for, and the
      rest expanded: a dollar sign, the unticked item, all that precedes it in the file, or all that follows it. */
  lemma TickWritesPattern(text: string, raw: string, i: nat, head: string, c: char, tail: string)
    requires IndexOf(text, raw) == Some(i)
    requires CheckedRaw(raw) == head + "$" + [c] + tail && NoPattern(head + "$") && c in "$&`'"
    ensures i + |raw| <= |text|
    ensures var before, after := text[..i], text[i + |raw|..];
            TickOne(text, raw) == before + (head + Meaning(c, raw, before, after) + Expand(tail, raw, before, after))
              + after
  {
    hide CheckedRaw, Expand, Meaning, TickOne, NoPattern, IndexOf;
    TickOneIs(text, raw, i);
    ExpandAt(head, c, tail, raw, text[..i], text[i + |raw|..]);
  }

  lemma {:induction false} ExpandAt(head: string, c: char, tail: string, matched: string, before: string, after: string)
    requires NoPattern(head + "$") && c in "$&`'"
    ensures Expand(head + "$" + [c] + tail, matched, before, after)
            == head + Meaning(c, matched, before, after) + Expand(tail, matched, before, after)
  {
    var s := head + "$" + [c] + tail;
    if head == "" {
      assert s[0] == '$' && s[1] == c && s[2..] == tail;
      assert Expand(s, matched, before, after) == Meaning(c, matched, before, after)
        + Expand(tail, matched, before, after);
      assert head + Meaning(c, matched, before, after) == Meaning(c, matched, before, after);
    } else {
      assert s[0] == head[0] && s[1] == (head + "$")[1];
      assert s[1..] == head[1..] + "$" + [c] + tail;
      assert forall i | 0 <= i < |head[1..] + "$"| :: (head[1..] + "$")[i] == (head + "$")[i + 1];
      ExpandAt(head[1..], c, tail, matched, before, after);
      assert head == [head[0]] + head[1..];
    }
  }

  /** An item with `$'` anywhere in its title is ticked into a copy of everything that follows it in the file, so that
      no open item after it becomes fewer. */
  lemma DollarQuoteCopiesRest(before: string, title: string, tail: string, after: string)
    requires NoPattern(title + "$") && NoPattern(tail) && !Includes("- [ ] " + title + "$'" + tail, "- [/ ]")
    requires IndexOf(before + ("- [ ] " + title + "$'" + tail) + after, "- [ ] " + title + "$'" + tail) ==
             Some(|before|)
    ensures TickOne(before + ("- [ ] " + title + "$'" + tail) + after, "- [ ] " + title + "$'" + tail)
            == before + ("- [x] " + title + after + tail) + after
  {
    hide IndexOf, CheckedRaw, Includes, TickOne, Expand;
    var raw := "- [ ] " + title + "$'" + tail;
    var text := before + raw + after;
    CheckedRawIs(raw);
    assert raw[5..] == " " + title + "$'" + tail;
    var head := "- [x] " + title;
    assert CheckedRaw(raw) == head + "$" + ['\''] + tail;
    assert forall i | 6 <= i < |head + "$"| :: (head + "$")[i] == (title + "$")[i - 6];
    TickWritesPattern(text, raw, |before|, head, '\'', tail);
    assert text[..|before|] == before && text[|before| + |raw|..] == after;
    ExpandPlain(tail, raw, before, after);
  }

  // ---- When ticking writes the checked line ----

  /** How many patterns are read in a replacement. */
  function Patterns(s: string): nat {
    Reads(s, '$') + Reads(s, '&') + Reads(s, '`') + Reads(s, '\'')
  }

  lemma {:induction false} PatternsFit(s: string)
    ensures 2 * Patterns(s) <= |s|
    decreases |s|
  {
    if s != "" {
      PatternsFit(if s[0] == '$' && |s| > 1 && s[1] in "$&`'" then s[2..] else s[1..]);
    }
  }

  lemma {:induction false} PatternsAreRead(s: string)
    ensures Patterns(s) == 0 <==> NoPattern(s)
    decreases |s|
  {
    hide NoPattern;
    if s != "" && !(|s| > 1 && s[0] == '$' && s[1] in "$&`'") {
      NoPatternTail(s);
      PatternsAreRead(s[1..]);
    } else {
      FirstPattern(s);
    }
  }

  lemma FirstPattern(s: string)
    ensures s == "" ==> NoPattern(s)
    ensures |s| > 1 && s[0] == '$' && s[1] in "$&`'" ==> !NoPattern(s)
  {
  }

  lemma NoPatternTail(s: string)
    requires s != "" && !(|s| > 1 && s[0] == '$' && s[1] in "$&`'")
    ensures NoPattern(s[1..]) <==> NoPattern(s)
  {
    assert forall i | 0 < i < |s| :: s[1..][i - 1] == s[i];
    assert forall i | 0 <= i < |s[1..]| :: s[1..][i] == s[i + 1];
  }

  lemma {:induction false} ExpandLength(s: string, matched: string, before: string, after: string)
    ensures |Expand(s, matched, before, after)| == |s| - 2 * Patterns(s) + Reads(s, '$') + Reads(s, '&') * |matched|
                                                   + Reads(s, '`') * |before| + Reads(s, '\'') * |after|
    decreases |s|
  {
    if s != "" {
      var n := if s[0] == '$' && |s| > 1 && s[1] in "$&`'" then 2 else 1;
      var rest := s[n..];
      ExpandLength(rest, matched, before, after);
      OneMore(Reads(rest, '&'), |matched|);
      OneMore(Reads(rest, '`'), |before|);
      OneMore(Reads(rest, '\''), |after|);
    }
  }

  lemma OneMore(n: nat, k: nat)
    ensures (n + 1) * k == n * k + k && (1 + n) * k == n * k + k
  {
  }

  lemma {:induction false} UndollarLength(s: string)
    ensures |Undollar(s)| <= |s| && |Undollar(s)| == |s| - Reads(s, '$')
    decreases |s|
  {
    if s != "" {
      UndollarLength(if s[0] == '$' && |s| > 1 && s[1] == '$' then s[2..] else s[1..]);
    }
  }

  /** What is before or after the item in the file: nothing, or other lines. */
  predicate OtherLines(side: string) {
    side == "" || '\n' in side
  }

  /** The item found at `i` is a line, or a part of one, between line feeds. */
  predicate OwnLine(text: string, raw: string, i: nat) {
    && i + |raw| <= |text| && '\n' !in raw
    && OtherLines(text[..i]) && OtherLines(text[i + |raw|..])
  }

  /** A side that is read is written. */
  lemma {:induction false} SideIsWritten(s: string, matched: string, before: string, after: string)
    ensures Reads(s, '`') > 0 && '\n' in before ==> '\n' in Expand(s, matched, before, after)
    ensures Reads(s, '\'') > 0 && '\n' in after ==> '\n' in Expand(s, matched, before, after)
    decreases |s|
  {
    if s != "" {
      SideIsWritten(if s[0] == '$' && |s| > 1 && s[1] in "$&`'" then s[2..] else s[1..], matched, before, after);
    }
  }

  /** On one line only `$&` makes an expansion longer than the item, and the other patterns make it shorter. */
  lemma LineLength(s: string, raw: string, before: string, after: string)
    requires s != "" && s[0] != '$' && OtherLines(before) && OtherLines(after)
    requires '\n' !in Expand(s, raw, before, after)
    ensures var length := |Expand(s, raw, before, after)|;
            if Reads(s, '&') > 0 then length > |raw|
            else length == |s| - Reads(s, '$') - 2 * Reads(s, '`') - 2 * Reads(s, '\'')
  {
    hide Expand, Reads;
    SideIsWritten(s, raw, before, after);
    ExpandLength(s, raw, before, after);
    assert Reads(s, '`') * |before| == 0 == Reads(s, '\'') * |after|;
    assert Patterns(s) == Patterns(s[1..]) by { FirstIsRead(s); }
    PatternsFit(s[1..]);
    if Reads(s, '&') > 0 { OneMore(Reads(s, '&') - 1, |raw|); }
  }

  lemma FirstIsRead(s: string)
    requires s != "" && s[0] != '$'
    ensures Patterns(s) == Patterns(s[1..])
  {
  }

  /** What a box or a `- [/ ]` in a line that starts with a dash becomes. */
  lemma Boxed(s: string, part: string)
    requires s != "" && s[0] == '-' && (part == "- [ ]" || part == "- [/ ]")
    ensures var t := ReplaceFirst(s, part, "- [x]");
            && t != "" && t[0] == '-' && |t| == |s| - (if Includes(s, part) then |part| - 5 else 0)
            && (forall c | c in t :: c in s || c in "- [x]")
            && (t == s <==> !Includes(s, part)) && (StartsWith(s, "- [/]") ==> StartsWith(t, "- [/]"))
  {
    hide IndexOf, Expand, Includes;
    match IndexOf(s, part)
    case None =>
      if Includes(s, part) { var i := OccurrenceIn(s, part); }
    case Some(i) =>
      OccursChars(s, part, i);
      OccursIncludes(s, part, i);
      BoxIsPlain();
      ExpandPlain("- [x]", part, s[..i], s[i + |part|..]);
      var t := s[..i] + "- [x]" + s[i + |part|..];
      assert t[i + 3] == 'x' && s[i + 3] != 'x';
      if StartsWith(s, "- [/]") {
        NotInSlash(s, part, i);
        assert t[..5] == s[..i][..5] == s[..5];
      }
  }

  lemma NotInSlash(s: string, part: string, i: nat)
    requires StartsWith(s, "- [/]") && (part == "- [ ]" || part == "- [/ ]") && OccursAt(s, part, i)
    ensures i >= 5
  {
    OccursChars(s, part, i);
    var slash := "- [/]";
    assert s[..5] == slash;
    assert s[0] == slash[0] && s[1] == slash[1] && s[2] == slash[2] && s[3] == slash[3] && s[4] == slash[4];
  }

  /** The line as it is checked is no longer than the item, and differs from it when it holds a box. */
  lemma CheckedRawShape(raw: string)
    requires raw != "" && raw[0] == '-'
    ensures var checked := CheckedRaw(raw);
            && checked != "" && checked[0] == '-' && |checked| <= |raw|
            && (forall c | c in checked :: c in raw || c in "- [x]")
            && (StartsWith(raw, "- [/]") ==> StartsWith(checked, "- [/]"))
            && (checked == raw ==> !Includes(raw, "- [ ]") && !Includes(raw, "- [/ ]"))
  {
    hide ReplaceFirst, Includes, StartsWith;
    Boxed(raw, "- [ ]");
    Boxed(ReplaceFirst(raw, "- [ ]", "- [x]"), "- [/ ]");
  }

  lemma Between(before: string, a: string, b: string, after: string)
    ensures before + a + after == before + b + after <==> a == b
  {
    if before + a + after == before + b + after {
      assert |a| == |b|;
      assert a == (before + a + after)[|before|..|before| + |a|] == b;
    }
  }

  /** Ticking an item on a line of its own writes the checked line exactly when that line holds no pattern; it writes
      the line with its `$$` as dollar signs exactly when it holds no other pattern; and it writes a line that depends
      on the item alone exactly when no side that holds anything is read. */
  lemma TickWritesExactly(text: string, raw: string, i: nat)
    requires IndexOf(text, raw) == Some(i) && raw != "" && raw[0] == '-' && OwnLine(text, raw, i)
    ensures var checked, before, after := CheckedRaw(raw), text[..i], text[i + |raw|..];
            && (TickOne(text, raw) == before + checked + after <==> NoPattern(checked))
            && (TickOne(text, raw) == before + Undollar(checked) + after <==> ContextFree(checked))
            && (TickOne(text, raw) == before + TickedRaw(raw) + after <==>
                (Reads(checked, '`') == 0 || before == "") && (Reads(checked, '\'') == 0 || after == ""))
  {
    hide CheckedRaw, TickOne, NoPattern, ContextFree, Expand, Reads, Undollar, IndexOf;
    var checked, before, after := CheckedRaw(raw), text[..i], text[i + |raw|..];
    var new_ := Expand(checked, raw, before, after);
    TickOneIs(text, raw, i);
    CheckedRawShape(raw);
    WrittenPlain(checked, raw, before, after);
    WrittenUndollared(checked, raw, before, after);
    WrittenAlone(checked, raw, before, after);
    Between(before, new_, checked, after);
    Between(before, new_, Undollar(checked), after);
    Between(before, new_, TickedRaw(raw), after);
  }

  lemma WrittenPlain(s: string, raw: string, before: string, after: string)
    requires s != "" && s[0] != '$' && |s| <= |raw| && '\n' !in s && OtherLines(before) && OtherLines(after)
    ensures Expand(s, raw, before, after) == s <==> NoPattern(s)
  {
    hide Expand, Reads, NoPattern;
    if NoPattern(s) { ExpandPlain(s, raw, before, after); }
    if Expand(s, raw, before, after) == s {
      LineLength(s, raw, before, after);
      PatternsAreRead(s);
    }
  }

  lemma WrittenUndollared(s: string, raw: string, before: string, after: string)
    requires s != "" && s[0] != '$' && |s| <= |raw| && '\n' !in s && OtherLines(before) && OtherLines(after)
    ensures Expand(s, raw, before, after) == Undollar(s) <==> ContextFree(s)
  {
    hide Expand, Reads, Undollar;
    if ContextFree(s) { ExpandDollars(s, raw, before, after); }
    if Expand(s, raw, before, after) == Undollar(s) {
      UndollarChars(s);
      UndollarLength(s);
      LineLength(s, raw, before, after);
    }
  }

  lemma WrittenAlone(s: string, raw: string, before: string, after: string)
    ensures Expand(s, raw, before, after) == Expand(s, raw, "", "") <==>
            (Reads(s, '`') == 0 || before == "") && (Reads(s, '\'') == 0 || after == "")
  {
    hide Expand, Reads;
    ExpandLength(s, raw, before, after);
    ExpandLength(s, raw, "", "");
    if (Reads(s, '`') == 0 || before == "") && (Reads(s, '\'') == 0 || after == "") {
      UnreadSides(s, raw, before, after);
    } else if Reads(s, '`') != 0 && before != "" {
      OneMore(Reads(s, '`') - 1, |before|);
    } else {
      OneMore(Reads(s, '\'') - 1, |after|);
    }
  }

  lemma {:induction false} UnreadSides(s: string, raw: string, before: string, after: string)
    requires (Reads(s, '`') == 0 || before == "") && (Reads(s, '\'') == 0 || after == "")
    ensures Expand(s, raw, before, after) == Expand(s, raw, "", "")
    decreases |s|
  {
    if s != "" {
      UnreadSides(if s[0] == '$' && |s| > 1 && s[1] in "$&`'" then s[2..] else s[1..], raw, before, after);
    }
  }

  // ---- Items that ticking does not check ----

  /** An item marked `[/]` is never ticked: the updater looks for `[/ ]`. Whatever its title holds, it is still marked
      `[/]` afterwards, and the file is unchanged exactly when the title holds no pattern and no box. */
  lemma SlashIsNeverTicked(text: string, raw: string, i: nat)
    requires IndexOf(text, raw) == Some(i) && StartsWith(raw, "- [/]")
    ensures OccursAt(TickOne(text, raw), "- [/]", i)
    ensures OwnLine(text, raw, i) ==>
              (TickOne(text, raw) == text <==>
               NoPattern(raw) && !Includes(raw, "- [ ]") && !Includes(raw, "- [/ ]"))
  {
    hide CheckedRaw, TickOne, NoPattern, Expand, Reads, Includes, IndexOf;
    var checked, before, after := CheckedRaw(raw), text[..i], text[i + |raw|..];
    var new_ := Expand(checked, raw, before, after);
    assert raw[..5] == "- [/]";
    TickOneIs(text, raw, i);
    CheckedRawShape(raw);
    assert checked[..5] == "- [/]";
    assert checked == "- [/]" + checked[5..];
    ExpandHead("- [/]", checked[5..], raw, before, after);
    var written := before + new_ + after;
    assert written[i..i + 5] == new_[..5] == "- [/]";
    if OwnLine(text, raw, i) {
      SlashUnchanged(raw, before, after);
      assert text[i..i + |raw|] == raw;
      assert text == before + raw + after;
      Between(before, new_, raw, after);
    }
  }

  lemma SlashUnchanged(raw: string, before: string, after: string)
    requires raw != "" && raw[0] == '-' && '\n' !in raw && OtherLines(before) && OtherLines(after)
    ensures Expand(CheckedRaw(raw), raw, before, after) == raw <==>
            NoPattern(raw) && !Includes(raw, "- [ ]") && !Includes(raw, "- [/ ]")
  {
    hide CheckedRaw, NoPattern, Expand, Reads, Includes;
    var checked := CheckedRaw(raw);
    CheckedRawShape(raw);
    if NoPattern(raw) && !Includes(raw, "- [ ]") && !Includes(raw, "- [/ ]") {
      BoxlessIsUnchanged(raw);
      ExpandPlain(raw, raw, before, after);
    }
    if Expand(checked, raw, before, after) == raw {
      LineLength(checked, raw, before, after);
      PatternsAreRead(checked);
      ExpandPlain(checked, raw, before, after);
    }
  }

  lemma BoxlessIsUnchanged(raw: string)
    requires !Includes(raw, "- [ ]") && !Includes(raw, "- [/ ]")
    ensures CheckedRaw(raw) == raw
  {
    if IndexOf(raw, "- [ ]").Some? { OccursIncludes(raw, "- [ ]", IndexOf(raw, "- [ ]").value); }
    if IndexOf(raw, "- [/ ]").Some? { OccursIncludes(raw, "- [/ ]", IndexOf(raw, "- [/ ]").value); }
  }
}
