/** Rendering of audit packs (src/outputs/render.rs:23-73) and readers that invert it. */
module AuditRendering {
  import opened Wrappers
  import opened Text

  /** The four strings a snapshot is rendered from; one that is missing or not a string is empty. */
  datatype AuditSnapshot = AuditSnapshot(tenant: Option<string>, product: Option<string>, selectedCode: Option<string>,
                                         riskBand: Option<string>)

  function Fields(snapshot: AuditSnapshot): seq<string> {
    [snapshot.tenant.Or(""), snapshot.product.Or(""), snapshot.selectedCode.Or(""), snapshot.riskBand.Or("")]
  }

  // ---- CSV ----

  function DoubleQuotes(value: string): string {
    if value == "" then ""
    else (if value[0] == '"' then "\"\"" else [value[0]]) + DoubleQuotes(value[1..])
  }

  function CsvEscape(value: string): string {
    if ',' in value || '"' in value || '\n' in value || '\r' in value then "\"" + DoubleQuotes(value) + "\"" else value
  }

  function JoinFields(fields: seq<string>): string {
    if fields == [] then ""
    else if |fields| == 1 then CsvEscape(fields[0])
    else CsvEscape(fields[0]) + "," + JoinFields(fields[1..])
  }

  const CSV_HEADER := ["tenant", "product", "selected_code", "risk_band"]

  function CsvFromSnapshot(snapshot: AuditSnapshot): string {
    "tenant,product,selected_code,risk_band\n" + JoinFields(Fields(snapshot)) + "\n"
  }

  // ---- A reader after section 2 of RFC 4180, which also takes a bare line feed as the end of a record ----

  datatype Read<T> = Read(value: T, rest: string)

  /** The inside of a quoted field, after its opening quote. */
  function ReadQuoted(s: string): (r: Option<Read<string>>)
    ensures r.Some? ==> |r.value.rest| < |s|
  {
    if s == "" then None
    else if s[0] != '"' then
      match ReadQuoted(s[1..])
      case Some(more) => Some(Read([s[0]] + more.value, more.rest))
      case None => None
    else if |s| > 1 && s[1] == '"' then
      match ReadQuoted(s[2..])
      case Some(more) => Some(Read("\"" + more.value, more.rest))
      case None => None
    else Some(Read("", s[1..]))
  }

  /** A field without quotes: up to the next comma, line end or quote. */
  function ReadPlain(s: string): (r: Read<string>)
    ensures |r.rest| <= |s|
  {
    if s == "" || s[0] == ',' || s[0] == '"' || s[0] == '\n' || s[0] == '\r' then Read("", s)
    else
      var more := ReadPlain(s[1..]);
      Read([s[0]] + more.value, more.rest)
  }

  function ReadField(s: string): (r: Option<Read<string>>)
    ensures r.Some? ==> |r.value.rest| <= |s|
  {
    if s != "" && s[0] == '"' then ReadQuoted(s[1..]) else Some(ReadPlain(s))
  }

  /** The fields of a record and what follows its line end. */
  function ReadRecord(s: string): (r: Option<Read<seq<string>>>)
    ensures r.Some? ==> |r.value.rest| <= |s| && (s != "" ==> |r.value.rest| < |s|)
    decreases |s|
  {
    match ReadField(s)
    case None => None
    case Some(field) =>
      if field.rest == "" then Some(Read([field.value], ""))
      else if field.rest[0] == '\n' then Some(Read([field.value], field.rest[1..]))
      else if |field.rest| > 1 && field.rest[..2] == "\r\n" then Some(Read([field.value], field.rest[2..]))
      else if field.rest[0] == ',' then
        match ReadRecord(field.rest[1..])
        case Some(more) => Some(Read([field.value] + more.value, more.rest))
        case None => None
      else None
  }

  function ReadCsv(s: string): Option<seq<seq<string>>>
    decreases |s|
  {
    if s == "" then Some([])
    else
      match ReadRecord(s)
      case None => None
      case Some(record) =>
        match ReadCsv(record.rest)
        case Some(more) => Some([record.value] + more)
        case None => None
  }

  lemma {:induction false} QuotedIsRead(value: string, rest: string)
    requires rest == "" || rest[0] != '"'
    ensures ReadQuoted(DoubleQuotes(value) + "\"" + rest) == Some(Read(value, rest))
  {
    var s := DoubleQuotes(value) + "\"" + rest;
    if value == "" {
      assert s == "\"" + rest && s[1..] == rest;
    } else {
      QuotedIsRead(value[1..], rest);
      var tail := DoubleQuotes(value[1..]) + "\"" + rest;
      if value[0] == '"' {
        assert s == "\"\"" + tail && s[2..] == tail;
        assert value == "\"" + value[1..];
      } else {
        assert s == [value[0]] + tail && s[1..] == tail;
        assert value == [value[0]] + value[1..];
      }
    }
  }

  predicate EndsField(rest: string) {
    rest == "" || rest[0] == ',' || rest[0] == '\n'
  }

  predicate IsSpecial(c: char) { c == ',' || c == '"' || c == '\n' || c == '\r' }

  predicate IsPlain(value: string) {
    forall i | 0 <= i < |value| :: !IsSpecial(value[i])
  }

  lemma {:induction false} PlainIsRead(value: string, rest: string)
    requires IsPlain(value) && EndsField(rest)
    ensures ReadPlain(value + rest) == Read(value, rest)
  {
    if value == "" {
      assert value + rest == rest;
    } else {
      PlainIsRead(value[1..], rest);
      assert (value + rest)[0] == value[0] && !IsSpecial(value[0]);
      assert (value + rest)[1..] == value[1..] + rest;
      assert value == [value[0]] + value[1..];
    }
  }

  lemma FieldIsRead(value: string, rest: string)
    requires EndsField(rest)
    ensures ReadField(CsvEscape(value) + rest) == Some(Read(value, rest))
  {
    hide ReadQuoted, ReadPlain, DoubleQuotes, EndsField;
    if ',' in value || '"' in value || '\n' in value || '\r' in value {
      EndIsNoQuote(rest);
      QuotedIsRead(value, rest);
      var inner := DoubleQuotes(value) + "\"" + rest;
      assert CsvEscape(value) + rest == "\"" + inner;
      assert ("\"" + inner)[1..] == inner;
    } else {
      EndIsNoQuote(rest);
      assert IsPlain(value);
      PlainIsRead(value, rest);
      assert value != "" ==> value[0] in value;
    }
  }

  lemma EndIsNoQuote(rest: string)
    requires EndsField(rest)
    ensures rest == "" || rest[0] != '"'
  {
  }

  lemma {:induction false} RecordIsRead(fields: seq<string>, rest: string)
    requires fields != []
    ensures ReadRecord(JoinFields(fields) + "\n" + rest) == Some(Read(fields, rest))
  {
    hide CsvEscape, ReadField;
    if |fields| == 1 {
      FieldIsRead(fields[0], "\n" + rest);
      assert JoinFields(fields) + "\n" + rest == CsvEscape(fields[0]) + ("\n" + rest);
      assert ("\n" + rest)[1..] == rest;
      assert fields == [fields[0]];
    } else {
      var tail := JoinFields(fields[1..]) + "\n" + rest;
      RecordIsRead(fields[1..], rest);
      assert JoinFields(fields) + "\n" + rest == CsvEscape(fields[0]) + ("," + tail);
      hide JoinFields;
      FirstFieldIsRead(fields[0], tail, fields[1..], rest);
      assert fields == [fields[0]] + fields[1..];
    }
  }

  lemma FirstFieldIsRead(value: string, tail: string, fields: seq<string>, rest: string)
    requires ReadRecord(tail) == Some(Read(fields, rest))
    ensures ReadRecord(CsvEscape(value) + ("," + tail)) == Some(Read([value] + fields, rest))
  {
    hide CsvEscape, ReadField;
    FieldIsRead(value, "," + tail);
    assert ("," + tail)[1..] == tail;
  }

  lemma JoinFirst(field: string, rest: seq<string>)
    ensures JoinFields([field] + rest) == if rest == [] then CsvEscape(field)
            else CsvEscape(field) + "," + JoinFields(rest)
  {
    assert ([field] + rest)[1..] == rest;
  }

  lemma HeaderIsJoined()
    ensures JoinFields(CSV_HEADER) == "tenant,product,selected_code,risk_band"
  {
    hide CsvEscape, JoinFields;
    PlainIsUnquoted("tenant");
    PlainIsUnquoted("product");
    PlainIsUnquoted("selected_code");
    PlainIsUnquoted("risk_band");
    JoinFirst("risk_band", []);
    JoinFirst("selected_code", ["risk_band"] + []);
    JoinFirst("product", ["selected_code"] + (["risk_band"] + []));
    JoinFirst("tenant", ["product"] + (["selected_code"] + (["risk_band"] + [])));
    HeaderParts();
  }

  lemma HeaderParts()
    ensures CSV_HEADER == ["tenant"] + (["product"] + (["selected_code"] + (["risk_band"] + [])))
    ensures "tenant" + "," + ("product" + "," + ("selected_code" + "," + "risk_band")) ==
            "tenant,product,selected_code,risk_band"
  {
  }

  lemma PlainIsUnquoted(value: string)
    requires forall i | 0 <= i < |value| :: 'a' <= value[i] <= 'z' || value[i] == '_'
    ensures CsvEscape(value) == value
  {
  }

  /** A reader recovers exactly the four fields, whatever commas, quotes and line ends they hold. */
  lemma CsvIsRead(snapshot: AuditSnapshot)
    ensures ReadCsv(CsvFromSnapshot(snapshot)) == Some([CSV_HEADER, Fields(snapshot)])
  {
    hide JoinFields, ReadRecord;
    HeaderIsJoined();
    var fields := Fields(snapshot);
    RecordIsRead(CSV_HEADER, JoinFields(fields) + "\n");
    RecordIsRead(fields, "");
    var body := JoinFields(fields) + "\n";
    assert body + "" == body;
    assert CsvFromSnapshot(snapshot) == JoinFields(CSV_HEADER) + "\n" + body;
    assert ReadCsv(body) == Some([fields] + []);
    assert [CSV_HEADER] + ([fields] + []) == [CSV_HEADER, fields];
  }

  // ---- HTML ----

  /** `value.replace(c, entity)` */
  function ReplaceAll(value: string, c: char, entity: string): string {
    if value == "" then ""
    else (if value[0] == c then entity else [value[0]]) + ReplaceAll(value[1..], c, entity)
  }

  /** `html_escape`: five replacements, one after another. */
  function HtmlEscape(value: string): string {
    ReplaceAll(ReplaceAll(ReplaceAll(ReplaceAll(ReplaceAll(value, '&', "&amp;"), '<', "&lt;"), '>', "&gt;"), '"',
                          "&quot;"), '\'', "&#39;")
  }

  function Entity(c: char): string {
    match c
    case '&' => "&amp;"
    case '<' => "&lt;"
    case '>' => "&gt;"
    case '"' => "&quot;"
    case '\'' => "&#39;"
    case _ => [c]
  }

  function Entities(value: string): string {
    if value == "" then "" else Entity(value[0]) + Entities(value[1..])
  }

  lemma {:induction false} ReplaceAppend(a: string, b: string, c: char, entity: string)
    ensures ReplaceAll(a + b, c, entity) == ReplaceAll(a, c, entity) + ReplaceAll(b, c, entity)
  {
    if a == "" {
      assert a + b == b;
    } else {
      assert (a + b)[1..] == a[1..] + b;
      ReplaceAppend(a[1..], b, c, entity);
    }
  }

  lemma {:induction false} NothingToReplace(value: string, c: char, entity: string)
    requires c !in value
    ensures ReplaceAll(value, c, entity) == value
  {
    if value != "" {
      NothingToReplace(value[1..], c, entity);
    }
  }

  lemma ReplaceOne(d: char, c: char, entity: string)
    ensures ReplaceAll([d], c, entity) == if d == c then entity else [d]
  {
    assert [d][1..] == "";
  }

  /** The replacements of one character's own text: what a replacement puts in, no later one touches. */
  lemma EscapeOne(d: char)
    ensures HtmlEscape([d]) == Entity(d)
  {
    hide ReplaceAll;
    ReplaceOne(d, '&', "&amp;");
    if d == '&' {
      NothingToReplace("&amp;", '<', "&lt;");
      AfterLess("&amp;");
    } else {
      ReplaceOne(d, '<', "&lt;");
      if d == '<' { AfterLess("&lt;"); } else { EscapeRest(d); }
    }
  }

  lemma AfterLess(entity: string)
    requires '>' !in entity && '"' !in entity && '\'' !in entity
    ensures ReplaceAll(ReplaceAll(ReplaceAll(entity, '>', "&gt;"), '"', "&quot;"), '\'', "&#39;") == entity
  {
    hide ReplaceAll;
    NothingToReplace(entity, '>', "&gt;");
    AfterGreater(entity);
  }

  lemma AfterGreater(entity: string)
    requires '"' !in entity && '\'' !in entity
    ensures ReplaceAll(ReplaceAll(entity, '"', "&quot;"), '\'', "&#39;") == entity
  {
    hide ReplaceAll;
    NothingToReplace(entity, '"', "&quot;");
    NothingToReplace(entity, '\'', "&#39;");
  }

  lemma EscapeRest(d: char)
    requires d != '&' && d != '<'
    ensures ReplaceAll(ReplaceAll(ReplaceAll([d], '>', "&gt;"), '"', "&quot;"), '\'', "&#39;") == Entity(d)
  {
    hide ReplaceAll;
    ReplaceOne(d, '>', "&gt;");
    if d == '>' {
      AfterGreater("&gt;");
    } else {
      ReplaceOne(d, '"', "&quot;");
      ReplaceOne(d, '\'', "&#39;");
      NothingToReplace("&quot;", '\'', "&#39;");
    }
  }

  lemma EscapeAppend(a: string, b: string)
    ensures HtmlEscape(a + b) == HtmlEscape(a) + HtmlEscape(b)
  {
    hide ReplaceAll;
    ReplaceAppend(a, b, '&', "&amp;");
    var a1, b1 := ReplaceAll(a, '&', "&amp;"), ReplaceAll(b, '&', "&amp;");
    ReplaceAppend(a1, b1, '<', "&lt;");
    var a2, b2 := ReplaceAll(a1, '<', "&lt;"), ReplaceAll(b1, '<', "&lt;");
    ReplaceAppend(a2, b2, '>', "&gt;");
    var a3, b3 := ReplaceAll(a2, '>', "&gt;"), ReplaceAll(b2, '>', "&gt;");
    ReplaceAppend(a3, b3, '"', "&quot;");
    ReplaceAppend(ReplaceAll(a3, '"', "&quot;"), ReplaceAll(b3, '"', "&quot;"), '\'', "&#39;");
  }

  /** The five chained replacements are one map over the characters. */
  lemma {:induction false} EscapeIsPerCharacter(value: string)
    ensures HtmlEscape(value) == Entities(value)
  {
    if value == "" {
      assert HtmlEscape("") == "";
    } else {
      hide HtmlEscape, Entity;
      EscapeOne(value[0]);
      EscapeIsPerCharacter(value[1..]);
      EscapeAppend([value[0]], value[1..]);
      assert value == [value[0]] + value[1..];
    }
  }

  /** Reads the five entities; any other `&` stands for itself. */
  function Unescape(s: string): string
    decreases |s|
  {
    if s == "" then ""
    else if StartsWith(s, "&amp;") then "&" + Unescape(s[5..])
    else if StartsWith(s, "&lt;") then "<" + Unescape(s[4..])
    else if StartsWith(s, "&gt;") then ">" + Unescape(s[4..])
    else if StartsWith(s, "&quot;") then "\"" + Unescape(s[6..])
    else if StartsWith(s, "&#39;") then "'" + Unescape(s[5..])
    else [s[0]] + Unescape(s[1..])
  }

  lemma UnescapeOne(c: char, rest: string)
    ensures Unescape(Entity(c) + rest) == [c] + Unescape(rest)
  {
    var s := Entity(c) + rest;
    assert s[|Entity(c)|..] == rest;
    if c == '<' || c == '>' || c == '"' || c == '\'' {
      assert s[1] == Entity(c)[1];
    }
    if c == '>' || c == '"' || c == '\'' {
      assert !StartsWith(s, "&lt;") && !StartsWith(s, "&amp;");
    }
  }

  /** Unescaping inverts escaping. */
  lemma {:induction false} UnescapeInverts(value: string)
    ensures Unescape(HtmlEscape(value)) == value
  {
    hide HtmlEscape, Entity, Unescape;
    EscapeIsPerCharacter(value);
    if value == "" {
      UnescapeEmpty();
    } else {
      UnescapeInverts(value[1..]);
      EscapeIsPerCharacter(value[1..]);
      UnescapeOne(value[0], Entities(value[1..]));
      assert value == [value[0]] + value[1..];
    }
  }

  lemma UnescapeEmpty()
    ensures Unescape("") == ""
  {
  }

  /** No markup character survives. */
  lemma {:induction false} NoMarkupSurvives(value: string)
    ensures '<' !in HtmlEscape(value) && '>' !in HtmlEscape(value) && '"' !in HtmlEscape(value)
            && '\'' !in HtmlEscape(value)
  {
    hide HtmlEscape;
    EscapeIsPerCharacter(value);
    if value != "" {
      NoMarkupSurvives(value[1..]);
      EscapeIsPerCharacter(value[1..]);
    }
  }
}
