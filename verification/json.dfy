/** The JSON text the SQL collection stores for a question/SQL pair: the output of
    `json.dumps({"question": q, "sql": sql}, ensure_ascii=False)`, and a parser for
    exactly that shape, proved to invert it. */
module Json {
  import opened Common

  /** A Python value built from JSON: `str`, `list`, `dict`, or a number/bool/None
      literal. Raw strings and lists read from the vector store use the same type. */
  datatype JsonValue =
    | JString(s: string)
    | JArray(items: seq<JsonValue>)
    | JObject(fields: map<string, JsonValue>)
    | JScalar(literal: string)

  /** `obj.get(key, default)` on a dict. */
  function GetField(fields: map<string, JsonValue>, key: string, default: JsonValue): JsonValue {
    if key in fields then fields[key] else default
  }

  /** The dict the SQL collection's documents decode to. */
  function QuestionSqlObject(question: string, sql: string): JsonValue {
    JObject(map["question" := JString(question), "sql" := JString(sql)])
  }

  function HexDigit(n: nat): char
    requires n < 16
  {
    if n < 10 then ('0' as int + n) as char else ('a' as int + n - 10) as char
  }

  /** How `json.dumps(..., ensure_ascii=False)` writes one character inside a string literal. */
  function EscapeChar(c: char): string {
    if c == '"' then "\\\""
    else if c == '\\' then "\\\\"
    else if c == '\n' then "\\n"
    else if c == '\r' then "\\r"
    else if c == '\t' then "\\t"
    else if c == '\U{08}' then "\\b"
    else if c == '\U{0C}' then "\\f"
    else if c < ' ' then "\\u00" + [HexDigit(c as int / 16), HexDigit(c as int % 16)]
    else [c]
  }

  function EscapeBody(s: string): string {
    if |s| == 0 then "" else EscapeChar(s[0]) + EscapeBody(s[1..])
  }

  function EncodeString(s: string): string {
    "\"" + EscapeBody(s) + "\""
  }

  /** The document `add_question_sql` stores (default separators `", "` and `": "`). */
  function EncodeQuestionSql(question: string, sql: string): string {
    "{\"question\": " + EncodeString(question) + ", \"sql\": " + EncodeString(sql) + "}"
  }

  function HexValue(c: char): (r: Option<nat>)
    ensures r.Some? ==> r.value < 16
    ensures r.None? <==> !('0' <= c <= '9' || 'a' <= c <= 'f' || 'A' <= c <= 'F')
  {
    if '0' <= c <= '9' then Some(c as int - '0' as int)
    else if 'a' <= c <= 'f' then Some(c as int - 'a' as int + 10)
    else if 'A' <= c <= 'F' then Some(c as int - 'A' as int + 10)
    else None
  }

  /** The code unit four hex digits spell, most significant first. */
  function HexQuad(a: char, b: char, c: char, d: char): (r: Option<nat>)
    ensures r.Some? ==> r.value < 0x10000
    ensures r.Some? <==> HexValue(a).Some? && HexValue(b).Some? && HexValue(c).Some? && HexValue(d).Some?
  {
    match (HexValue(a), HexValue(b), HexValue(c), HexValue(d))
    case (Some(x), Some(y), Some(z), Some(w)) => Some(((x * 16 + y) * 16 + z) * 16 + w)
    case _ => None
  }

  /** Decodes the escape sequence that follows a backslash: the character and how
      many characters of `t` it used. `\uXXXX` naming a surrogate is not accepted. */
  function Unescape(t: string): (r: Option<(char, nat)>)
    ensures r.Some? ==> 1 <= r.value.1 <= |t|
  {
    if |t| == 0 then None
    else if t[0] == '"' then Some(('"', 1))
    else if t[0] == '\\' then Some(('\\', 1))
    else if t[0] == '/' then Some(('/', 1))
    else if t[0] == 'b' then Some(('\U{08}', 1))
    else if t[0] == 'f' then Some(('\U{0C}', 1))
    else if t[0] == 'n' then Some(('\n', 1))
    else if t[0] == 'r' then Some(('\r', 1))
    else if t[0] == 't' then Some(('\t', 1))
    else if t[0] == 'u' && |t| >= 5 then
      match HexQuad(t[1], t[2], t[3], t[4])
      case Some(v) => if v < 0xD800 || 0xE000 <= v then Some((v as char, 5)) else None
      case None => None
    else None
  }

  /** Reads a string literal's characters up to its closing quote: the decoded
      text and what follows the quote. Raw control characters are refused, as
      `json.loads` does in its default strict mode. */
  function ParseStringBody(t: string): Option<(string, string)>
    decreases |t|
  {
    if |t| == 0 then None
    else if t[0] == '"' then Some(([], t[1..]))
    else if t[0] == '\\' then
      match Unescape(t[1..])
      case None => None
      case Some((c, n)) =>
        match ParseStringBody(t[1 + n..])
        case None => None
        case Some((body, rest)) => Some(([c] + body, rest))
    else if t[0] < ' ' then None
    else
      match ParseStringBody(t[1..])
      case None => None
      case Some((body, rest)) => Some(([t[0]] + body, rest))
  }

  const QuestionOpen: string := "{\"question\": \""
  const SqlOpen: string := ", \"sql\": \""

  /** Parses a document of exactly the shape `EncodeQuestionSql` produces. */
  function ParseQuestionSql(doc: string): Option<(string, string)> {
    if |doc| < |QuestionOpen| || doc[..|QuestionOpen|] != QuestionOpen then None
    else
      match ParseStringBody(doc[|QuestionOpen|..])
      case None => None
      case Some((question, rest)) =>
        if |rest| < |SqlOpen| || rest[..|SqlOpen|] != SqlOpen then None
        else
          match ParseStringBody(rest[|SqlOpen|..])
          case None => None
          case Some((sql, tail)) => if tail == "}" then Some((question, sql)) else None
  }

  lemma QuestionSqlFields(question: string, sql: string)
    ensures GetField(QuestionSqlObject(question, sql).fields, "question", JString("")) == JString(question)
    ensures GetField(QuestionSqlObject(question, sql).fields, "sql", JString("")) == JString(sql)
  {
    var m := QuestionSqlObject(question, sql).fields;
    assert "question" in m && m["question"] == JString(question);
    assert "sql" != "question";
    assert "sql" in m && m["sql"] == JString(sql);
  }

  /** `json.loads` restricted to question/SQL documents. */
  function LoadQuestionSql(doc: string): Option<JsonValue> {
    match ParseQuestionSql(doc)
    case Some((q, s)) => Some(QuestionSqlObject(q, s))
    case None => None
  }

  lemma HexRoundTrip(n: nat)
    requires n < 16
    ensures HexValue(HexDigit(n)) == Some(n)
  {
  }

  lemma UnescapeChar(c: char, rest: string)
    requires EscapeChar(c) != [c]
    ensures EscapeChar(c)[0] == '\\'
    ensures Unescape(EscapeChar(c)[1..] + rest) == Some((c, |EscapeChar(c)| - 1))
  {
    var e := EscapeChar(c);
    if c < ' ' && c != '\n' && c != '\r' && c != '\t' && c != '\U{08}' && c != '\U{0C}' {
      var hi, lo := c as int / 16, c as int % 16;
      HexRoundTrip(hi);
      HexRoundTrip(lo);
      var t := e[1..] + rest;
      assert t[0] == 'u' && t[1] == '0' && t[2] == '0' && t[3] == HexDigit(hi) && t[4] == HexDigit(lo);
      assert ((0 * 16 + 0) * 16 + hi) * 16 + lo == c as int;
    }
  }

  /** A character written as itself is read back as itself. */
  lemma ParsePlainChar(c: char, tail: string, body: string, rest: string)
    requires EscapeChar(c) == [c]
    requires ParseStringBody(tail) == Some((body, rest))
    ensures ParseStringBody([c] + tail) == Some(([c] + body, rest))
  {
    assert c != '"' && c != '\\' && !(c < ' ');
    assert ([c] + tail)[1..] == tail;
  }

  /** A backslash and a sequence `Unescape` reads as `c` are read back as `c`. */
  lemma ParseEscape(e: string, c: char, tail: string, body: string, rest: string)
    requires |e| >= 2 && e[0] == '\\'
    requires Unescape(e[1..] + tail) == Some((c, |e| - 1))
    requires ParseStringBody(tail) == Some((body, rest))
    ensures ParseStringBody(e + tail) == Some(([c] + body, rest))
  {
    var t := e + tail;
    assert t[1..] == e[1..] + tail;
    assert t[1 + (|e| - 1)..] == tail;
  }

  /** An escape sequence is read back as the character it stands for. */
  lemma ParseEscapedChar(c: char, tail: string, body: string, rest: string)
    requires EscapeChar(c) != [c]
    requires ParseStringBody(tail) == Some((body, rest))
    ensures ParseStringBody(EscapeChar(c) + tail) == Some(([c] + body, rest))
  {
    UnescapeChar(c, tail);
    ParseEscape(EscapeChar(c), c, tail, body, rest);
  }

  /** The escaped body of `s`, followed by the closing quote, reads back as `s`. */
  lemma {:induction false} StringBodyRoundTrip(s: string, rest: string)
    ensures ParseStringBody(EscapeBody(s) + "\"" + rest) == Some((s, rest))
    decreases |s|
  {
    if |s| == 0 {
      assert EscapeBody(s) + "\"" + rest == "\"" + rest;
    } else {
      var c := s[0];
      var e := EscapeChar(c);
      var tail := EscapeBody(s[1..]) + "\"" + rest;
      assert EscapeBody(s) + "\"" + rest == e + tail;
      StringBodyRoundTrip(s[1..], rest);
      if e == [c] {
        ParsePlainChar(c, tail, s[1..], rest);
      } else {
        ParseEscapedChar(c, tail, s[1..], rest);
      }
      assert [c] + s[1..] == s;
    }
  }

  /** The stored document is the question's opening, the escaped question, a
      quote, the SQL's opening, the escaped SQL, a quote and the closing brace. */
  lemma EncodeQuestionSqlLayout(question: string, sql: string)
    ensures EncodeQuestionSql(question, sql)
            == QuestionOpen + (EscapeBody(question) + "\"" + (SqlOpen + (EscapeBody(sql) + "\"" + "}")))
  {
    Regroup("{\"question\": ", EscapeBody(question), ", \"sql\": ", EscapeBody(sql), "}", "\"");
    assert QuestionOpen == "{\"question\": " + "\"";
    assert SqlOpen == ", \"sql\": " + "\"";
  }

  lemma Regroup(a: string, x: string, b: string, y: string, z: string, q: string)
    ensures a + (q + x + q) + b + (q + y + q) + z == (a + q) + (x + q + ((b + q) + (y + q + z)))
  {
    calc {
      a + (q + x + q) + b + (q + y + q) + z;
      (a + q) + (x + q + (b + (q + y + q) + z));
      { assert b + (q + y + q) + z == (b + q) + (y + q + z); }
      (a + q) + (x + q + ((b + q) + (y + q + z)));
    }
  }

  lemma SplitAt(a: string, b: string)
    ensures (a + b)[..|a|] == a && (a + b)[|a|..] == b
  {
  }

  /** `json.loads` of the stored document gives back the question and the SQL. */
  lemma QuestionSqlRoundTrip(question: string, sql: string)
    ensures ParseQuestionSql(EncodeQuestionSql(question, sql)) == Some((question, sql))
  {
    var tail := EscapeBody(sql) + "\"" + "}";
    var rest1 := SqlOpen + tail;
    var body1 := EscapeBody(question) + "\"" + rest1;
    EncodeQuestionSqlLayout(question, sql);
    SplitAt(QuestionOpen, body1);
    StringBodyRoundTrip(question, rest1);
    SplitAt(SqlOpen, tail);
    StringBodyRoundTrip(sql, "}");
  }

  lemma LoadQuestionSqlRoundTrip(question: string, sql: string)
    ensures LoadQuestionSql(EncodeQuestionSql(question, sql)) == Some(QuestionSqlObject(question, sql))
  {
    QuestionSqlRoundTrip(question, sql);
  }

  /** Two stored documents are equal only when their question/SQL pairs are. */
  lemma EncodeQuestionSqlInjective(q1: string, s1: string, q2: string, s2: string)
    requires EncodeQuestionSql(q1, s1) == EncodeQuestionSql(q2, s2)
    ensures q1 == q2 && s1 == s2
  {
    QuestionSqlRoundTrip(q1, s1);
    QuestionSqlRoundTrip(q2, s2);
  }
}
