/** Quoting words for the shell and splitting commands into words
    (tools/klevar-yolo-runtime/src/util/process.ts:98-134, tools/klevar-yolo-runtime/src/worktree-sync.ts:165-167,
    tools/klevar-yolo-runtime/src/validators/frontend-validator.ts:130-132). */
module ShellWords {
  import opened Wrappers
  import opened Sequences
  import opened Text

  // ---- Splitting ----

  datatype Lexer = Lexer(parts: seq<string>, current: string, quote: Option<char>, escaping: bool)

  const START := Lexer([], "", None, false)

  function Step(l: Lexer, c: char): Lexer {
    if l.escaping then l.(current := l.current + [c], escaping := false)
    else if c == '\\' then l.(escaping := true)
    else if l.quote.Some? then (if c == l.quote.value then l.(quote := None) else l.(current := l.current + [c]))
    else if c == '\'' || c == '"' then l.(quote := Some(c))
    else if IsSpace(c) then (if l.current != "" then l.(parts := l.parts + [l.current], current := "") else l)
    else l.(current := l.current + [c])
  }

  function Steps(l: Lexer, s: string): Lexer
    decreases |s|
  {
    if s == "" then l else Steps(Step(l, s[0]), s[1..])
  }

  function Finish(l: Lexer): seq<string> {
    var current := if l.escaping then l.current + "\\" else l.current;
    if l.quote.Some? then [] else if current != "" then l.parts + [current] else l.parts
  }

  function Words(command: string): seq<string> {
    Finish(Steps(START, Trim(command)))
  }

  /** `splitCommand` */
  method SplitCommand(command: string) returns (parts: seq<string>)
    ensures parts == Words(command)
  {
    hide Trim;
    var text := Trim(command);
    parts := [];
    var current: string := "";
    var quote: Option<char> := None;
    var escaping := false;
    for n := 0 to |text|
      invariant Steps(START, text) == Steps(Lexer(parts, current, quote, escaping), text[n..])
    {
      var char_ := text[n];
      assert text[n..][0] == char_ && text[n..][1..] == text[n + 1..];
      if escaping {
        current := current + [char_];
        escaping := false;
        continue;
      }
      if char_ == '\\' {
        escaping := true;
        continue;
      }
      if quote.Some? {
        if char_ == quote.value {
          quote := None;
        } else {
          current := current + [char_];
        }
        continue;
      }
      if char_ == '\'' || char_ == '"' {
        quote := Some(char_);
        continue;
      }
      if IsSpace(char_) {
        if current != "" {
          parts := parts + [current];
          current := "";
        }
        continue;
      }
      current := current + [char_];
    }
    assert text[|text|..] == "";
    if escaping {
      current := current + "\\";
    }
    if current != "" {
      parts := parts + [current];
    }
    parts := if quote.Some? then [] else parts;
  }

  // ---- Quoting ----

  /** The two ways the runtime writes a single quote inside single quotes. */
  datatype Style = DoubleQuoted | Backslashed

  function InnerQuote(style: Style): string {
    match style
    case DoubleQuoted => "'\"'\"'"
    case Backslashed => "'\\''"
  }

  function Inside(style: Style, value: string): string {
    if value == "" then ""
    else (if value[0] == '\'' then InnerQuote(style) else [value[0]]) + Inside(style, value[1..])
  }

  /** `shellSingleQuote` is `DoubleQuoted`, `shellQuote` of the frontend validator is `Backslashed`. */
  function Quote(style: Style, value: string): string {
    "'" + Inside(style, value) + "'"
  }

  function QuoteAll(style: Style, words: seq<string>): string {
    if words == [] then ""
    else if |words| == 1 then Quote(style, words[0])
    else Quote(style, words[0]) + " " + QuoteAll(style, words[1..])
  }

  // ---- Splitting inverts quoting ----

  lemma {:induction false} StepsAppend(l: Lexer, a: string, b: string)
    ensures Steps(l, a + b) == Steps(Steps(l, a), b)
    decreases |a|
  {
    if a == "" {
      assert a + b == b;
    } else {
      hide Step;
      assert (a + b)[1..] == a[1..] + b;
      StepsAppend(Step(l, a[0]), a[1..], b);
    }
  }

  lemma StepsOne(l: Lexer, c: char)
    ensures Steps(l, [c]) == Step(l, c)
  {
    hide Step;
    assert [c][1..] == "";
  }

  /** Inside single quotes a written quote adds one quote to the word. */
  lemma InnerQuoteAdds(style: Style, parts: seq<string>, current: string)
    ensures Steps(Lexer(parts, current, Some('\''), false), InnerQuote(style)) ==
            Lexer(parts, current + "'", Some('\''), false)
  {
    var l := Lexer(parts, current, Some('\''), false);
    match style
    case DoubleQuoted =>
      assert "'\"'\"'" == "'" + ("\"" + ("'" + ("\"" + "'")));
      StepsAppend(l, "'", "\"" + ("'" + ("\"" + "'")));
      StepsOne(l, '\'');
      var l1 := Lexer(parts, current, None, false);
      StepsAppend(l1, "\"", "'" + ("\"" + "'"));
      StepsOne(l1, '"');
      var l2 := Lexer(parts, current, Some('"'), false);
      StepsAppend(l2, "'", "\"" + "'");
      StepsOne(l2, '\'');
      var l3 := Lexer(parts, current + "'", Some('"'), false);
      StepsAppend(l3, "\"", "'");
      StepsOne(l3, '"');
      StepsOne(Lexer(parts, current + "'", None, false), '\'');
    case Backslashed =>
      assert "'\\''" == "'" + ("\\" + ("'" + "'"));
      StepsAppend(l, "'", "\\" + ("'" + "'"));
      StepsOne(l, '\'');
      var l1 := Lexer(parts, current, None, false);
      StepsAppend(l1, "\\", "'" + "'");
      StepsOne(l1, '\\');
      var l2 := Lexer(parts, current, None, true);
      StepsAppend(l2, "'", "'");
      StepsOne(l2, '\'');
      StepsOne(Lexer(parts, current + "'", None, false), '\'');
  }

  /** Every backslash has a character other than a single quote to escape. */
  predicate Escapes(value: string)
    decreases |value|
  {
    if value == "" then true
    else if value[0] == '\\' then |value| > 1 && value[1] != '\'' && Escapes(value[2..])
    else Escapes(value[1..])
  }

  /** The value without its escaping backslashes. */
  function Resolved(value: string): string
    decreases |value|
  {
    if value == "" then ""
    else if value[0] == '\\' && |value| > 1 then [value[1]] + Resolved(value[2..])
    else [value[0]] + Resolved(value[1..])
  }

  lemma {:induction false} InsideAdds(style: Style, parts: seq<string>, current: string, value: string)
    requires Escapes(value)
    ensures Steps(Lexer(parts, current, Some('\''), false), Inside(style, value)) ==
            Lexer(parts, current + Resolved(value), Some('\''), false)
    decreases |value|
  {
    hide InnerQuote, Steps, Step, Escapes, Resolved, Inside;
    if value == "" {
      NothingInside(style);
      assert current + "" == current;
      NoSteps(Lexer(parts, current, Some('\''), false));
    } else {
      var c, rest := HeadInside(style, value);
      if value[0] == '\\' {
        EscapeAdds(parts, current, c, Inside(style, rest));
      } else {
        CharAdds(style, parts, current, c, Inside(style, rest));
      }
      InsideAdds(style, parts, current + [c], rest);
      assert current + Resolved(value) == current + [c] + Resolved(rest);
    }
  }

  lemma NothingInside(style: Style)
    ensures Inside(style, "") == "" && Resolved("") == ""
  {
  }

  /** The first character a value stands for, and what comes after it. */
  lemma HeadInside(style: Style, value: string) returns (c: char, rest: string)
    requires value != "" && Escapes(value)
    ensures Escapes(rest) && |rest| < |value| && Resolved(value) == [c] + Resolved(rest)
    ensures Inside(style, value)
            == (if value[0] == '\\' then ['\\', c] else if c == '\'' then InnerQuote(style) else [c])
               + Inside(style, rest)
    ensures value[0] != '\\' ==> c != '\\'
  {
    hide InnerQuote;
    if value[0] == '\\' {
      c, rest := value[1], value[2..];
      EscapedInside(style, value);
    } else {
      c, rest := value[0], value[1..];
    }
  }

  lemma CharAdds(style: Style, parts: seq<string>, current: string, c: char, rest: string)
    requires c != '\\'
    ensures Steps(Lexer(parts, current, Some('\''), false), (if c == '\'' then InnerQuote(style) else [c]) + rest) ==
            Steps(Lexer(parts, current + [c], Some('\''), false), rest)
  {
    hide InnerQuote, Steps;
    var l := Lexer(parts, current, Some('\''), false);
    StepsAppend(l, if c == '\'' then InnerQuote(style) else [c], rest);
    if c == '\'' { InnerQuoteAdds(style, parts, current); } else { StepsOne(l, c); }
  }

  lemma EscapeAdds(parts: seq<string>, current: string, c: char, rest: string)
    ensures Steps(Lexer(parts, current, Some('\''), false), ['\\', c] + rest) ==
            Steps(Lexer(parts, current + [c], Some('\''), false), rest)
  {
    hide Steps;
    var l := Lexer(parts, current, Some('\''), false);
    StepsAppend(l, ['\\', c], rest);
    assert ['\\', c] == ['\\'] + [c];
    StepsAppend(l, ['\\'], [c]);
    StepsOne(l, '\\');
    StepsOne(l.(escaping := true), c);
  }

  lemma EscapedInside(style: Style, value: string)
    requires |value| > 1 && value[0] == '\\' && value[1] != '\''
    ensures Inside(style, value) == ['\\', value[1]] + Inside(style, value[2..])
  {
    var rest := value[1..];
    assert rest[0] == value[1] && rest[1..] == value[2..];
    assert Inside(style, rest) == [value[1]] + Inside(style, value[2..]);
  }

  lemma NoSteps(l: Lexer)
    ensures Steps(l, "") == l
  {
  }

  /** A quoted word becomes the current word, with its backslashes resolved. */
  lemma QuotedIsCurrent(style: Style, parts: seq<string>, value: string)
    requires Escapes(value)
    ensures Steps(Lexer(parts, "", None, false), Quote(style, value)) == Lexer(parts, Resolved(value), None, false)
  {
    hide Steps, Inside;
    var l := Lexer(parts, "", None, false);
    assert Quote(style, value) == "'" + (Inside(style, value) + "'");
    StepsAppend(l, "'", Inside(style, value) + "'");
    StepsOne(l, '\'');
    var quoted := Lexer(parts, "", Some('\''), false);
    StepsAppend(quoted, Inside(style, value), "'");
    InsideAdds(style, parts, "", value);
    assert "" + Resolved(value) == Resolved(value);
    StepsOne(Lexer(parts, Resolved(value), Some('\''), false), '\'');
  }

  predicate Plain(words: seq<string>) {
    forall i | 0 <= i < |words| :: '\\' !in words[i]
  }

  function NonEmpty(words: seq<string>): seq<string> {
    Filter((word: string) => word != "", words)
  }

  function AllResolved(words: seq<string>): seq<string> {
    Map(Resolved, words)
  }

  lemma QuotedAndSpace(style: Style, parts: seq<string>, word: string, tail: string)
    requires Escapes(word)
    ensures var head := Resolved(word);
            Steps(Lexer(parts, "", None, false), Quote(style, word) + " " + tail)
            == Steps(Lexer(if head != "" then parts + [head] else parts, "", None, false), tail)
  {
    hide Steps, Quote, Escapes, Resolved;
    var l := Lexer(parts, Resolved(word), None, false);
    assert Quote(style, word) + " " + tail == Quote(style, word) + (" " + tail);
    QuotedIsCurrent(style, parts, word);
    StepsAppend(Lexer(parts, "", None, false), Quote(style, word), " " + tail);
    StepsAppend(l, " ", tail);
    StepsOne(l, ' ');
  }

  /** After the quotations the last word is the current one. */
  lemma {:induction false} QuotedWordsAreRead(style: Style, parts: seq<string>, words: seq<string>)
    requires words != [] && forall i | 0 <= i < |words| :: Escapes(words[i])
    ensures var resolved := AllResolved(words);
            Steps(Lexer(parts, "", None, false), QuoteAll(style, words))
            == Lexer(parts + NonEmpty(resolved[..|words| - 1]), resolved[|words| - 1], None, false)
    decreases |words|
  {
    hide Steps, Quote, NonEmpty, Filter, Escapes, Resolved;
    var head := Resolved(words[0]);
    if |words| == 1 {
      QuotedIsCurrent(style, parts, words[0]);
      assert NonEmpty([]) == [] by { NothingIsEmpty(); }
      assert AllResolved(words)[..0] == [] && parts + [] == parts;
    } else {
      var rest := words[1..];
      QuotedAndSpace(style, parts, words[0], QuoteAll(style, rest));
      QuotedWordsAreRead(style, if head != "" then parts + [head] else parts, rest);
      assert AllResolved(words)[1..] == AllResolved(rest);
      NonEmptyHead(parts, AllResolved(words));
    }
  }

  lemma NothingIsEmpty()
    ensures NonEmpty([]) == []
  {
  }

  lemma NonEmptyHead(parts: seq<string>, words: seq<string>)
    requires |words| > 1
    ensures (if words[0] != "" then parts + [words[0]] else parts) + NonEmpty(words[1..][..|words| - 2])
            == parts + NonEmpty(words[..|words| - 1])
  {
    var rest := words[1..][..|words| - 2];
    assert words[..|words| - 1][0] == words[0] && words[..|words| - 1][1..] == rest;
  }

  lemma {:induction false} QuotedIsTrimmed(style: Style, words: seq<string>)
    requires words != []
    ensures var s := QuoteAll(style, words); s != "" && s[0] == '\'' && s[|s| - 1] == '\''
  {
    hide Inside;
    if |words| > 1 {
      QuotedIsTrimmed(style, words[1..]);
    }
  }

  /** Splitting the space-joined quotations resolves the backslashes of the words and drops the empty ones, for both
      ways of quoting and whatever other quotes and spaces the words hold. */
  lemma SplitResolves(style: Style, words: seq<string>)
    requires forall i | 0 <= i < |words| :: Escapes(words[i])
    ensures Words(QuoteAll(style, words)) == NonEmpty(AllResolved(words))
  {
    hide Steps, Trim, Escapes, Resolved;
    if words == [] {
      NoSteps(START);
      TrimNothing();
    } else {
      var resolved := AllResolved(words);
      var last := resolved[|words| - 1];
      QuotedIsTrimmed(style, words);
      TrimPlain(QuoteAll(style, words));
      QuotedWordsAreRead(style, [], words);
      assert resolved[..|words| - 1] + [last] == resolved;
      FilterAppend((word: string) => word != "", resolved[..|words| - 1], [last]);
      assert NonEmpty([last]) == if last != "" then [last] else [];
      assert [] + NonEmpty(resolved[..|words| - 1]) == NonEmpty(resolved[..|words| - 1]);
    }
  }

  /** Words without backslashes come back as they are, less the empty ones. */
  lemma SplitDropsEmptyWords(style: Style, words: seq<string>)
    requires Plain(words)
    ensures Words(QuoteAll(style, words)) == NonEmpty(words)
  {
    hide Words, Escapes, Resolved;
    forall i | 0 <= i < |words| ensures Escapes(words[i]) && Resolved(words[i]) == words[i] {
      NothingResolved(words[i]);
    }
    SplitResolves(style, words);
    assert AllResolved(words) == words;
  }

  lemma {:induction false} NothingResolved(value: string)
    requires '\\' !in value
    ensures Escapes(value) && Resolved(value) == value
    decreases |value|
  {
    if value != "" {
      NothingResolved(value[1..]);
      assert value == [value[0]] + value[1..];
    }
  }

  lemma TrimNothing()
    ensures Trim("") == ""
  {
  }

  // ---- No other words come back ----

  function Backslashes(s: string): nat
    decreases |s|
  {
    if s == "" then 0 else (if s[0] == '\\' then 1 else 0) + Backslashes(s[1..])
  }

  function AllBackslashes(words: seq<string>): nat
    decreases |words|
  {
    if words == [] then 0 else Backslashes(words[0]) + AllBackslashes(words[1..])
  }

  lemma {:induction false} BackslashesAppend(a: string, b: string)
    ensures Backslashes(a + b) == Backslashes(a) + Backslashes(b)
    decreases |a|
  {
    if a == "" {
      assert a + b == b;
    } else {
      assert (a + b)[1..] == a[1..] + b;
      BackslashesAppend(a[1..], b);
    }
  }

  lemma {:induction false} AllBackslashesAppend(a: seq<string>, b: seq<string>)
    ensures AllBackslashes(a + b) == AllBackslashes(a) + AllBackslashes(b)
    decreases |a|
  {
    if a == [] {
      assert a + b == b;
    } else {
      assert (a + b)[1..] == a[1..] + b;
      AllBackslashesAppend(a[1..], b);
    }
  }

  /** A backslash that reached the words weighs two, one that is still to be resolved weighs one. */
  function Weight(l: Lexer): nat {
    2 * (AllBackslashes(l.parts) + Backslashes(l.current)) + (if l.escaping then 1 else 0)
  }

  lemma OneBackslash(c: char)
    ensures Backslashes([c]) == if c == '\\' then 1 else 0
  {
    assert [c][1..] == "";
  }

  lemma StepWeighs(l: Lexer, c: char)
    ensures Weight(Step(l, c)) <= Weight(l) + (if c == '\\' then 1 else 0)
    ensures c != '\\' ==> !Step(l, c).escaping
    ensures l.escaping && c != '\\' ==> Weight(Step(l, c)) < Weight(l)
  {
    OneBackslash(c);
    BackslashesAppend(l.current, [c]);
    AllBackslashesAppend(l.parts, [l.current]);
    assert [l.current][1..] == [];
    assert AllBackslashes([l.current]) == Backslashes(l.current);
  }

  /** A backslash of a word costs one step up, and a written quote costs nothing, whatever the state it is read in. */
  lemma InnerQuoteWeighs(style: Style, l: Lexer)
    ensures Weight(Steps(l, InnerQuote(style))) <= Weight(l)
  {
    hide Weight, Step;
    var l1 := Step(l, '\'');
    StepWeighs(l, '\'');
    match style
    case DoubleQuoted =>
      var l2, l3, l4 := Step(l1, '"'), Step(Step(l1, '"'), '\''), Step(Step(Step(l1, '"'), '\''), '"');
      StepWeighs(l1, '"');
      StepWeighs(l2, '\'');
      StepWeighs(l3, '"');
      StepWeighs(l4, '\'');
      FiveSteps(l, '\'', '"', '\'', '"', '\'');
      assert InnerQuote(style) == ['\'', '"', '\'', '"', '\''];
    case Backslashed =>
      var l2, l3 := Step(l1, '\\'), Step(Step(l1, '\\'), '\'');
      BackslashEscapes(l1);
      StepWeighs(l1, '\\');
      StepWeighs(l2, '\'');
      StepWeighs(l3, '\'');
      FourSteps(l, '\'', '\\', '\'', '\'');
      assert InnerQuote(style) == ['\'', '\\', '\'', '\''];
  }

  lemma BackslashEscapes(l: Lexer)
    requires !l.escaping
    ensures Step(l, '\\').escaping
  {
  }

  lemma FourSteps(l: Lexer, a: char, b: char, c: char, d: char)
    ensures Steps(l, [a, b, c, d]) == Step(Step(Step(Step(l, a), b), c), d)
  {
    hide Step;
    assert [a, b, c, d] == [a] + ([b] + ([c] + [d]));
    StepsAppend(l, [a], [b] + ([c] + [d]));
    StepsOne(l, a);
    StepsAppend(Step(l, a), [b], [c] + [d]);
    StepsOne(Step(l, a), b);
    StepsAppend(Step(Step(l, a), b), [c], [d]);
    StepsOne(Step(Step(l, a), b), c);
    StepsOne(Step(Step(Step(l, a), b), c), d);
  }

  lemma FiveSteps(l: Lexer, a: char, b: char, c: char, d: char, e: char)
    ensures Steps(l, [a, b, c, d, e]) == Step(Step(Step(Step(Step(l, a), b), c), d), e)
  {
    hide Step;
    assert [a, b, c, d, e] == [a, b, c, d] + [e];
    StepsAppend(l, [a, b, c, d], [e]);
    FourSteps(l, a, b, c, d);
    StepsOne(Step(Step(Step(Step(l, a), b), c), d), e);
  }

  lemma {:induction false} InsideWeighs(style: Style, l: Lexer, value: string)
    ensures Weight(Steps(l, Inside(style, value))) <= Weight(l) + Backslashes(value)
    decreases |value|
  {
    hide Steps, Weight, Step, InnerQuote;
    if value == "" {
      NoSteps(l);
    } else {
      var head := if value[0] == '\'' then InnerQuote(style) else [value[0]];
      StepsAppend(l, head, Inside(style, value[1..]));
      if value[0] == '\'' {
        InnerQuoteWeighs(style, l);
      } else {
        StepsOne(l, value[0]);
        StepWeighs(l, value[0]);
      }
      InsideWeighs(style, Steps(l, head), value[1..]);
    }
  }

  lemma QuoteWeighs(style: Style, l: Lexer, value: string)
    ensures var l' := Steps(l, Quote(style, value)); Weight(l') <= Weight(l) + Backslashes(value) && !l'.escaping
  {
    hide Steps, Weight, Step, Inside;
    assert Quote(style, value) == "'" + (Inside(style, value) + "'");
    StepsAppend(l, "'", Inside(style, value) + "'");
    StepsOne(l, '\'');
    StepWeighs(l, '\'');
    StepsAppend(Step(l, '\''), Inside(style, value), "'");
    InsideWeighs(style, Step(l, '\''), value);
    var inside := Steps(Step(l, '\''), Inside(style, value));
    StepsOne(inside, '\'');
    StepWeighs(inside, '\'');
  }

  lemma {:induction false} QuoteAllWeighs(style: Style, l: Lexer, words: seq<string>)
    requires words != []
    ensures var l' := Steps(l, QuoteAll(style, words)); Weight(l') <= Weight(l) + AllBackslashes(words) && !l'.escaping
    decreases |words|
  {
    hide Steps, Weight, Step, Quote;
    QuoteWeighs(style, l, words[0]);
    if |words| == 1 {
      assert words[1..] == [];
    } else {
      var tail := QuoteAll(style, words[1..]);
      assert QuoteAll(style, words) == Quote(style, words[0]) + (" " + tail);
      StepsAppend(l, Quote(style, words[0]), " " + tail);
      var quoted := Steps(l, Quote(style, words[0]));
      StepsAppend(quoted, " ", tail);
      StepsOne(quoted, ' ');
      StepWeighs(quoted, ' ');
      QuoteAllWeighs(style, Step(quoted, ' '), words[1..]);
    }
  }

  lemma {:induction false} PartsAreNotEmpty(l: Lexer, s: string)
    requires forall i | 0 <= i < |l.parts| :: l.parts[i] != ""
    ensures forall i | 0 <= i < |Steps(l, s).parts| :: Steps(l, s).parts[i] != ""
    decreases |s|
  {
    if s != "" {
      PartsAreNotEmpty(Step(l, s[0]), s[1..]);
    }
  }

  lemma {:induction false} HasBackslash(words: seq<string>, i: nat)
    requires i < |words| && '\\' in words[i]
    ensures AllBackslashes(words) > 0
    decreases |words|
  {
    if i == 0 { SomeBackslash(words[0]); } else { HasBackslash(words[1..], i - 1); }
  }

  lemma {:induction false} SomeBackslash(s: string)
    requires '\\' in s
    ensures Backslashes(s) > 0
    decreases |s|
  {
    if s[0] != '\\' { SomeBackslash(s[1..]); }
  }

  predicate IsWord(word: string) {
    word != "" && '\\' !in word
  }

  /** Splitting inverts quoting exactly on non-empty words without backslashes. */
  lemma SplitInvertsQuote(style: Style, words: seq<string>)
    ensures Words(QuoteAll(style, words)) == words <==> forall i | 0 <= i < |words| :: IsWord(words[i])
  {
    if forall i | 0 <= i < |words| :: IsWord(words[i]) {
      SplitDropsEmptyWords(style, words);
      FilterAll((word: string) => word != "", words);
    } else if Words(QuoteAll(style, words)) == words {
      ReadWordsAreWords(style, words);
      assert false;
    }
  }

  lemma ReadWordsAreWords(style: Style, words: seq<string>)
    requires words != [] && Words(QuoteAll(style, words)) == words
    ensures forall i | 0 <= i < |words| :: IsWord(words[i])
  {
    hide Steps, Trim;
    QuotedIsTrimmed(style, words);
    TrimPlain(QuoteAll(style, words));
    var l := Steps(START, QuoteAll(style, words));
    QuoteAllWeighs(style, START, words);
    PartsAreNotEmpty(START, QuoteAll(style, words));
    AllBackslashesAppend(l.parts, [l.current]);
    assert [l.current][1..] == [];
    assert AllBackslashes(words) == 0;
    forall i | 0 <= i < |words| ensures IsWord(words[i]) {
      if '\\' in words[i] { HasBackslash(words, i); }
    }
  }

  // ---- What happens to other words ----

  /** An empty word disappears. */
  lemma EmptyWordIsLost(style: Style, before: seq<string>, after: seq<string>)
    requires forall i | 0 <= i < |before| :: Escapes(before[i])
    requires forall i | 0 <= i < |after| :: Escapes(after[i])
    ensures Words(QuoteAll(style, before + [""] + after)) == Words(QuoteAll(style, before + after))
  {
    hide Words, QuoteAll, Escapes, Resolved;
    var words, keep := before + [""] + after, (word: string) => word != "";
    assert Escapes("") && Resolved("") == "" by { NothingResolved(""); }
    SplitResolves(style, words);
    SplitResolves(style, before + after);
    assert AllResolved(words) == AllResolved(before) + ([""] + AllResolved(after));
    assert AllResolved(before + after) == AllResolved(before) + AllResolved(after);
    FilterAppend(keep, AllResolved(before), [""] + AllResolved(after));
    FilterAppend(keep, AllResolved(before), AllResolved(after));
    assert NonEmpty([""] + AllResolved(after)) == NonEmpty(AllResolved(after)) by {
      assert ([""] + AllResolved(after))[1..] == AllResolved(after);
    }
  }

  /** Every backslash of a word disappears, even inside single quotes, so that the word does not come back. */
  lemma BackslashIsLost(style: Style, word: string)
    requires Escapes(word) && '\\' in word
    ensures Words(Quote(style, word)) == [Resolved(word)] && |Resolved(word)| < |word|
  {
    hide Words, Quote, Escapes, Resolved;
    ResolvedIsShorter(word);
    assert QuoteAll(style, [word]) == Quote(style, word);
    SplitResolves(style, [word]);
    assert AllResolved([word]) == [Resolved(word)];
  }

  lemma {:induction false} ResolvedIsShorter(value: string)
    requires Escapes(value)
    ensures |Resolved(value)| <= |value| && (value != "" ==> Resolved(value) != "")
    ensures '\\' in value ==> |Resolved(value)| < |value|
    decreases |value|
  {
    if value != "" {
      ResolvedIsShorter(if value[0] == '\\' then value[2..] else value[1..]);
    }
  }
}
