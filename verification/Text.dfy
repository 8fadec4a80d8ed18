/** String operations of the two host languages, on sequences of characters. */
module Text {

  predicate StartsWith(s: string, prefix: string) {
    prefix <= s
  }

  predicate EndsWith(s: string, suffix: string) {
    |suffix| <= |s| && s[|s| - |suffix|..] == suffix
  }

  predicate OccursAt(s: string, part: string, i: nat) {
    i + |part| <= |s| && s[i..i + |part|] == part
  }

  predicate Includes(s: string, part: string) {
    exists i | 0 <= i <= |s| - |part| :: OccursAt(s, part, i)
  }

  /** The same character, or the same ASCII letter in the other case. */
  predicate SameLetter(a: char, b: char) {
    || a == b || ('A' <= a <= 'Z' && b as int == a as int + 32)
    || ('A' <= b <= 'Z' && a as int == b as int + 32)
  }

  function LowerChar(c: char): char {
    if 'A' <= c <= 'Z' then c - 'A' + 'a' else c
  }

  function UpperChar(c: char): char {
    if 'a' <= c <= 'z' then c - 'a' + 'A' else c
  }

  /** `to_ascii_lowercase` */
  function Lower(s: string): (r: string)
    ensures |r| == |s|
  {
    seq(|s|, i requires 0 <= i < |s| => LowerChar(s[i]))
  }

  function Upper(s: string): (r: string)
    ensures |r| == |s|
  {
    seq(|s|, i requires 0 <= i < |s| => UpperChar(s[i]))
  }

  /** White space of the ASCII range. */
  predicate IsSpace(c: char) {
    c == ' ' || ('\t' <= c <= '\r')
  }

  function TrimStart(s: string): (r: string)
    ensures |r| <= |s|
    ensures r != [] ==> !IsSpace(r[0])
  {
    if s != [] && IsSpace(s[0]) then TrimStart(s[1..]) else s
  }

  lemma {:induction false} TrimStartIsTail(s: string)
    ensures TrimStart(s) == s[|s| - |TrimStart(s)|..]
  {
    if s != [] && IsSpace(s[0]) {
      TrimStartIsTail(s[1..]);
    }
  }

  function TrimEnd(s: string): (r: string)
    ensures r <= s
    ensures r != [] ==> !IsSpace(r[|r| - 1])
  {
    if s != [] && IsSpace(s[|s| - 1]) then TrimEnd(s[..|s| - 1]) else s
  }

  function Trim(s: string): (r: string)
    ensures r != [] ==> !IsSpace(r[0]) && !IsSpace(r[|r| - 1])
  {
    TrimEnd(TrimStart(s))
  }

  lemma TrimPlain(s: string)
    requires s != "" && !IsSpace(s[0]) && !IsSpace(s[|s| - 1])
    ensures Trim(s) == s
  {
  }

  predicate StartsWithAny(s: string, prefixes: seq<string>) {
    exists i | 0 <= i < |prefixes| :: StartsWith(s, prefixes[i])
  }

  predicate EndsWithAny(s: string, suffixes: seq<string>) {
    exists i | 0 <= i < |suffixes| :: EndsWith(s, suffixes[i])
  }

  predicate IncludesAny(s: string, parts: seq<string>) {
    exists i | 0 <= i < |parts| :: Includes(s, parts[i])
  }

  /** What comes before the first `c`: all of `s` when there is none. */
  function Before(s: string, c: char): (r: string)
    ensures r <= s && c !in r
    ensures |r| < |s| ==> s[|r|] == c
  {
    if s == [] || s[0] == c then [] else [s[0]] + Before(s[1..], c)
  }

  /** What comes after the first `c`: nothing when there is none. */
  function AfterFirst(s: string, c: char): (r: string)
    ensures r != [] ==> c in s
  {
    var n := |Before(s, c)|;
    if n == |s| then [] else s[n + 1..]
  }

  function ReplaceChar(s: string, from: char, to: char): (r: string)
    ensures |r| == |s|
  {
    seq(|s|, i requires 0 <= i < |s| => if s[i] == from then to else s[i])
  }

  function DropEnd(s: string, n: nat): string {
    if n <= |s| then s[..|s| - n] else s
  }

  /** No character that `.` of a regular expression refuses. */
  predicate OneLine(s: string) {
    '\n' !in s && '\r' !in s && '\U{2028}' !in s && '\U{2029}' !in s
  }

  /** The characters of an occurrence. */
  lemma OccursChars(s: string, part: string, i: nat)
    requires OccursAt(s, part, i)
    ensures forall x | i <= x < i + |part| :: s[x] == part[x - i] && s[x] in part
  {
    forall x | i <= x < i + |part| ensures s[x] == part[x - i] && s[x] in part {
      assert s[i..i + |part|][x - i] == s[x];
    }
  }

  lemma SameChars(a: string, b: string)
    requires |a| == |b| && forall x | 0 <= x < |a| :: a[x] == b[x]
    ensures a == b
  {
  }

  lemma Nonempty<T>(s: seq<T>)
    requires s != []
    ensures s[0] in s
  {
  }

  /** The first three characters of an occurrence. */
  lemma OccursStart(s: string, part: string, i: nat)
    requires |part| >= 3
    ensures OccursAt(s, part, i) ==> i + 2 < |s| && s[i] == part[0] && s[i + 1] == part[1] && s[i + 2] == part[2]
  {
    if OccursAt(s, part, i) {
      OccursChars(s, part, i);
    }
  }

  predicate IsWordChar(c: char) {
    'a' <= c <= 'z' || 'A' <= c <= 'Z' || '0' <= c <= '9' || c == '_'
  }

  lemma {:induction false} TrimEndKeepsHead(s: string)
    requires s != "" && !IsSpace(s[0])
    ensures TrimEnd(s) != "" && TrimEnd(s)[0] == s[0]
  {
    if IsSpace(s[|s| - 1]) {
      TrimEndKeepsHead(s[..|s| - 1]);
    }
  }

  /** `s.split(separator)` */
  function Split(s: string, separator: char): (r: seq<string>)
    ensures r != []
    decreases |s|
  {
    var part := Before(s, separator);
    if |part| == |s| then [part] else [part] + Split(s[|part| + 1..], separator)
  }

  /** `lines.join("\n")` */
  function JoinLines(lines: seq<string>): string {
    if lines == [] then ""
    else if |lines| == 1 then lines[0]
    else lines[0] + "\n" + JoinLines(lines[1..])
  }

  lemma {:induction false} BeforeOfJoined(part: string, rest: string, c: char)
    requires c !in part
    ensures Before(part + rest, c) == part + Before(rest, c)
  {
    if part == "" {
      assert part + rest == rest;
    } else {
      assert (part + rest)[1..] == part[1..] + rest;
      BeforeOfJoined(part[1..], rest, c);
    }
  }

  lemma LowerAlready(s: string)
    requires forall i | 0 <= i < |s| :: !('A' <= s[i] <= 'Z')
    ensures Lower(s) == s
  {
  }

  // ---- What trimming leaves ----

  predicate AllBlank(s: string) {
    forall k | 0 <= k < |s| :: IsSpace(s[k])
  }

  lemma {:induction false} BlankTrims(s: string)
    ensures Trim(s) == "" <==> AllBlank(s)
  {
    BlankStart(s);
    var t := TrimStart(s);
    if t != "" { BlankEnd(t, 0); }
  }

  lemma {:induction false} BlankStart(s: string)
    ensures TrimStart(s) != "" <==> exists k | 0 <= k < |s| :: !IsSpace(s[k])
  {
    if s != "" && IsSpace(s[0]) {
      BlankStart(s[1..]);
      assert forall k | 1 <= k < |s| :: s[k] == s[1..][k - 1];
    }
  }

  lemma {:induction false} BlankEnd(s: string, k: nat)
    requires k < |s| && !IsSpace(s[k])
    ensures TrimEnd(s) != ""
  {
    if IsSpace(s[|s| - 1]) { BlankEnd(s[..|s| - 1], k); }
  }

  lemma {:induction false} TrimStartShape(s: string)
    ensures |TrimStart(s)| <= |s| && s[|s| - |TrimStart(s)|..] == TrimStart(s)
    ensures AllBlank(s[..|s| - |TrimStart(s)|])
  {
    if s != "" && IsSpace(s[0]) {
      var r, n := s[1..], |s| - |TrimStart(s)|;
      TrimStartShape(r);
      assert forall k | 0 < k < n :: s[k] == r[..|r| - |TrimStart(r)|][k - 1];
    }
  }

  lemma {:induction false} TrimEndShape(s: string)
    ensures TrimEnd(s) <= s && AllBlank(s[|TrimEnd(s)|..])
  {
    if s != "" && IsSpace(s[|s| - 1]) {
      var r, n := s[..|s| - 1], |TrimEnd(s)|;
      TrimEndShape(r);
      assert forall k | n <= k < |s| - 1 :: s[k] == r[n..][k - n];
    }
  }

  /** Trimming takes the white space from both ends, and nothing else. */
  lemma TrimShape(s: string) returns (i: nat, j: nat)
    ensures i <= j <= |s| && AllBlank(s[..i]) && AllBlank(s[j..]) && Trim(s) == s[i..j]
  {
    TrimStartShape(s);
    var t := TrimStart(s);
    TrimEndShape(t);
    i := |s| - |t|;
    j := i + |TrimEnd(t)|;
    assert s[i..j] == t[..|TrimEnd(t)|];
    assert s[j..] == t[|TrimEnd(t)|..];
  }

  lemma {:induction false} BlankStartTrims(s: string, i: nat)
    requires i < |s| && AllBlank(s[..i]) && !IsSpace(s[i])
    ensures TrimStart(s) == s[i..]
  {
    if i > 0 {
      assert s[0] == s[..i][0];
      var blank := s[1..][..i - 1];
      assert forall k | 0 <= k < i - 1 :: blank[k] == s[..i][k + 1];
      BlankStartTrims(s[1..], i - 1);
      assert s[1..][i - 1..] == s[i..];
    }
  }

  lemma {:induction false} BlankEndTrims(s: string, j: nat)
    requires 0 < j <= |s| && AllBlank(s[j..]) && !IsSpace(s[j - 1])
    ensures TrimEnd(s) == s[..j]
  {
    if j < |s| {
      assert s[|s| - 1] == s[j..][|s| - 1 - j];
      var blank := s[..|s| - 1][j..];
      assert forall k | 0 <= k < |blank| :: blank[k] == s[j..][k];
      BlankEndTrims(s[..|s| - 1], j);
      assert s[..|s| - 1][..j] == s[..j];
    } else {
      assert s[..j] == s;
    }
  }

  lemma TrimsTo(s: string, i: nat, j: nat)
    requires i < j <= |s| && AllBlank(s[..i]) && AllBlank(s[j..]) && !IsSpace(s[i]) && !IsSpace(s[j - 1])
    ensures Trim(s) == s[i..j]
  {
    BlankStartTrims(s, i);
    assert s[i..][j - i..] == s[j..];
    BlankEndTrims(s[i..], j - i);
    assert s[i..][..j - i] == s[i..j];
  }

  // ---- Letters of either case ----

  lemma UpperSame(a: char, b: char)
    requires !('a' <= b <= 'z')
    ensures UpperChar(a) == b <==> SameLetter(a, b)
  {
  }

  predicate AllUpper(s: string) {
    forall k | 0 <= k < |s| :: !('a' <= s[k] <= 'z')
  }

  predicate SameLetters(a: string, b: string) {
    |a| == |b| && forall k | 0 <= k < |a| :: SameLetter(a[k], b[k])
  }

  lemma SpaceHasNoCase(a: char, b: char)
    requires SameLetter(a, b)
    ensures IsSpace(a) <==> IsSpace(b)
  {
  }

  lemma UpperLetters(s: string, word: string)
    requires AllUpper(word)
    ensures Upper(s) == word <==> SameLetters(s, word)
  {
    hide UpperChar, SameLetter;
    forall k | 0 <= k < |s| && k < |word| ensures Upper(s)[k] == word[k] <==> SameLetter(s[k], word[k]) {
      UpperSame(s[k], word[k]);
    }
  }

  lemma WordTrims(value: string, i: nat, j: nat, word: string)
    requires i <= j <= |value| && AllBlank(value[..i]) && AllBlank(value[j..]) && SameLetters(value[i..j], word)
    requires word != "" && !IsSpace(word[0]) && !IsSpace(word[|word| - 1])
    ensures Trim(value) == value[i..j]
  {
    hide Trim, SameLetter, IsSpace, AllBlank;
    SpaceHasNoCase(value[i..j][0], word[0]);
    SpaceHasNoCase(value[i..j][|word| - 1], word[|word| - 1]);
    TrimsTo(value, i, j);
  }

  lemma UpperAlready(s: string)
    requires AllUpper(s)
    ensures Upper(s) == s
  {
  }

  /** The word in letters of either case, with white space around it. */
  predicate IsAround(value: string, word: string) {
    exists i, j | 0 <= i <= j <= |value| ::
      AllBlank(value[..i]) && AllBlank(value[j..]) && SameLetters(value[i..j], word)
  }

  /** What is left of exactly these values after trimming is the word. */
  lemma AroundMeans(value: string, word: string)
    requires AllUpper(word) && word != "" && !IsSpace(word[0]) && !IsSpace(word[|word| - 1])
    ensures Upper(Trim(value)) == word <==> IsAround(value, word)
  {
    hide Trim, Upper, SameLetter, SameLetters, IsSpace, AllBlank;
    if Upper(Trim(value)) == word {
      var i, j := TrimShape(value);
      UpperLetters(value[i..j], word);
    }
    if IsAround(value, word) {
      var i, j :| 0 <= i <= j <= |value|
        && AllBlank(value[..i]) && AllBlank(value[j..]) && SameLetters(value[i..j], word);
      WordTrims(value, i, j, word);
      UpperLetters(value[i..j], word);
    }
  }

  // ---- One character ----

  lemma StartsWithChar(s: string, c: char)
    ensures StartsWith(s, [c]) <==> s != "" && s[0] == c
  {
    assert s != "" ==> s[..1] == [s[0]];
  }

  lemma EndsWithChar(s: string, c: char)
    ensures EndsWith(s, [c]) <==> s != "" && s[|s| - 1] == c
  {
    assert s != "" ==> s[|s| - 1..] == [s[|s| - 1]];
  }

  // ---- Texts that do not occur ----

  /** A text with a character that is not in `s` occurs nowhere in it. */
  lemma StrangeAt(s: string, part: string, k: nat, i: nat)
    requires k < |part| && part[k] !in s
    ensures !OccursAt(s, part, i)
  {
    if OccursAt(s, part, i) { OccursChars(s, part, i); }
  }

  lemma StrangeText(s: string, part: string, k: nat)
    requires k < |part| && part[k] !in s
    ensures !Includes(s, part)
  {
    forall i: nat | i <= |s| - |part| ensures !OccursAt(s, part, i) { StrangeAt(s, part, k, i); }
  }
}
