/** `Ollama.extract_sql`: pulling the SQL statement out of a model's reply.
    The two regular expressions are modelled as the searches Python's `re`
    performs for them: every start position from left to right, lazy
    repetition, and backtracking into the alternatives. */
module SqlExtract {
  import opened Common
  import opened Text

  const Fence: string := "```"
  const SqlFence: string := "```sql\n"

  /** `s.replace("\\_", "_")`: occurrences found left to right without overlap. */
  function ReplaceEscapedUnderscore(s: string): (r: string)
    ensures |r| <= |s|
  {
    if |s| >= 2 && s[0] == '\\' && s[1] == '_' then "_" + ReplaceEscapedUnderscore(s[2..])
    else if |s| == 0 then []
    else [s[0]] + ReplaceEscapedUnderscore(s[1..])
  }

  /** `s.replace("\\", "")`. */
  function RemoveBackslashes(s: string): (r: string)
    ensures |r| <= |s|
    ensures forall i :: 0 <= i < |r| ==> r[i] != '\\'
    ensures (forall i :: 0 <= i < |s| ==> s[i] != '\\') ==> r == s
  {
    if |s| == 0 then []
    else if s[0] == '\\' then RemoveBackslashes(s[1..])
    else [s[0]] + RemoveBackslashes(s[1..])
  }

  lemma RemoveBackslashesAppend(a: string, b: string)
    ensures RemoveBackslashes(a + b) == RemoveBackslashes(a) + RemoveBackslashes(b)
  {
    if |a| > 0 {
      assert (a + b)[1..] == a[1..] + b;
      RemoveBackslashesAppend(a[1..], b);
    } else {
      assert a + b == b;
    }
  }

  /** The clean-up applied to the reply before any search. */
  function Normalise(s: string): string {
    RemoveBackslashes(ReplaceEscapedUnderscore(s))
  }

  /** The first replacement only removes backslashes the second would remove
      anyway: together they delete every backslash and nothing else. */
  lemma {:induction false} NormaliseRemovesEveryBackslash(s: string)
    ensures Normalise(s) == RemoveBackslashes(s)
    decreases |s|
  {
    if |s| >= 2 && s[0] == '\\' && s[1] == '_' {
      NormaliseRemovesEveryBackslash(s[2..]);
      RemoveBackslashesAppend("_", ReplaceEscapedUnderscore(s[2..]));
      assert s[1..][1..] == s[2..];
    } else if |s| > 0 {
      NormaliseRemovesEveryBackslash(s[1..]);
      RemoveBackslashesAppend([s[0]], ReplaceEscapedUnderscore(s[1..]));
    }
  }

  /** The lookahead `(?=;|\[|```)` succeeds at `j`. */
  predicate IsTerminatorAt(s: string, j: nat) {
    j < |s| && (s[j] == ';' || s[j] == '[' || OccursAt(s, Fence, j))
  }

  /** The first position at or after `from` where the lookahead succeeds. */
  function FirstTerminator(s: string, from: nat): (r: Option<nat>)
    ensures r.Some? ==> from <= r.value < |s| && IsTerminatorAt(s, r.value)
                        && forall j :: from <= j < r.value ==> !IsTerminatorAt(s, j)
    ensures r.None? ==> forall j :: from <= j ==> !IsTerminatorAt(s, j)
    decreases |s| - from
  {
    if from >= |s| then None
    else if IsTerminatorAt(s, from) then Some(from)
    else FirstTerminator(s, from + 1)
  }

  /** `word` (lower-case) occurs at `i`, ignoring ASCII case. */
  predicate StartsWithIgnoringCase(s: string, i: nat, word: string) {
    i + |word| <= |s| && forall k :: 0 <= k < |word| ==> LowerChar(s[i + k]) == word[k]
  }

  // ---- r"```sql\n((.|\n)*?)(?=;|\[|```)" ----

  /** The end of group 1 when the pattern matches at `i`: the lazy group
      stops at the first terminator after the opening fence. */
  function FenceMatchAt(s: string, i: nat): (r: Option<nat>)
    ensures r.Some? ==> OccursAt(s, SqlFence, i) && r == FirstTerminator(s, i + |SqlFence|)
    ensures OccursAt(s, SqlFence, i) && FirstTerminator(s, i + |SqlFence|).Some? ==> r.Some?
  {
    if OccursAt(s, SqlFence, i) then FirstTerminator(s, i + |SqlFence|) else None
  }

  /** `re.search`: the leftmost start at which the pattern matches. */
  function SearchFence(s: string, from: nat): (r: Option<(nat, nat)>)
    ensures r.Some? ==> from <= r.value.0 && FenceMatchAt(s, r.value.0) == Some(r.value.1)
                        && forall i :: from <= i < r.value.0 ==> FenceMatchAt(s, i).None?
    ensures r.None? ==> forall i :: from <= i ==> FenceMatchAt(s, i).None?
    decreases |s| + 1 - from
  {
    if from > |s| then None
    else match FenceMatchAt(s, from)
      case Some(j) => Some((from, j))
      case None => SearchFence(s, from + 1)
  }

  // ---- r'(select|(with.*?as \())(.*?)(?=;|\[|```)' with IGNORECASE | DOTALL ----

  /** The first position at or after `from` where `as (` occurs, ignoring case. */
  function FirstAsParen(s: string, from: nat): (r: Option<nat>)
    ensures r.Some? ==> from <= r.value && StartsWithIgnoringCase(s, r.value, "as (")
                        && forall k :: from <= k < r.value ==> !StartsWithIgnoringCase(s, k, "as (")
    ensures r.None? ==> forall k :: from <= k ==> !StartsWithIgnoringCase(s, k, "as (")
    decreases |s| - from
  {
    if from + 4 > |s| then None
    else if StartsWithIgnoringCase(s, from, "as (") then Some(from)
    else FirstAsParen(s, from + 1)
  }

  /** Backtracking through the candidates for `as (` at or after `from`: the
      first one followed by a terminator decides the end of the match. */
  function WithMatchFrom(s: string, from: nat): (r: Option<nat>)
    ensures r.Some? ==> exists k :: from <= k && StartsWithIgnoringCase(s, k, "as (") && FirstTerminator(s, k + 4) == r
    decreases |s| + 1 - from
  {
    match FirstAsParen(s, from)
    case None => None
    case Some(k) =>
      match FirstTerminator(s, k + 4)
      case Some(j) => Some(j)
      case None => WithMatchFrom(s, k + 1)
  }

  /** The end of the whole match when the pattern matches at `i`. The first
      alternative is tried first; the second needs `with` at `i`. */
  function SelectWithMatchAt(s: string, i: nat): (r: Option<nat>)
    ensures r.Some? ==> ((StartsWithIgnoringCase(s, i, "select") && i + 6 <= r.value)
                         || (StartsWithIgnoringCase(s, i, "with") && i + 4 <= r.value))
                        && r.value < |s| && IsTerminatorAt(s, r.value)
  {
    if StartsWithIgnoringCase(s, i, "select") && FirstTerminator(s, i + 6).Some? then FirstTerminator(s, i + 6)
    else if StartsWithIgnoringCase(s, i, "with") then WithMatchFrom(s, i + 4)
    else None
  }

  function SearchSelectWith(s: string, from: nat): (r: Option<(nat, nat)>)
    ensures r.Some? ==> from <= r.value.0 && SelectWithMatchAt(s, r.value.0) == Some(r.value.1)
                        && forall i :: from <= i < r.value.0 ==> SelectWithMatchAt(s, i).None?
    ensures r.None? ==> forall i :: from <= i ==> SelectWithMatchAt(s, i).None?
    decreases |s| + 1 - from
  {
    if from > |s| then None
    else match SelectWithMatchAt(s, from)
      case Some(j) => Some((from, j))
      case None => SearchSelectWith(s, from + 1)
  }

  lemma {:induction false} NoTerminatorNoWithMatch(s: string, from: nat)
    requires FirstTerminator(s, from + 3).None?
    ensures WithMatchFrom(s, from).None?
    decreases |s| + 1 - from
  {
    match FirstAsParen(s, from)
    case None =>
    case Some(k) =>
      assert FirstTerminator(s, k + 4).None?;
      NoTerminatorNoWithMatch(s, k + 1);
  }

  /** Backtracking to a later `as (` never helps: the first one after `with`
      decides whether the second alternative matches and where it ends. */
  lemma WithMatchFirstCandidate(s: string, from: nat)
    ensures WithMatchFrom(s, from) == match FirstAsParen(s, from)
                                      case None => None
                                      case Some(k) => FirstTerminator(s, k + 4)
  {
    match FirstAsParen(s, from)
    case None =>
    case Some(k) =>
      if FirstTerminator(s, k + 4).None? {
        NoTerminatorNoWithMatch(s, k + 1);
      }
  }

  /** The first position at or after `from` where the opening fence occurs. */
  function FirstSqlFence(s: string, from: nat): (r: Option<nat>)
    ensures r.Some? ==> from <= r.value && OccursAt(s, SqlFence, r.value)
                        && forall k :: from <= k < r.value ==> !OccursAt(s, SqlFence, k)
    ensures r.None? ==> forall k :: from <= k ==> !OccursAt(s, SqlFence, k)
    decreases |s| - from
  {
    if from + |SqlFence| > |s| then None
    else if OccursAt(s, SqlFence, from) then Some(from)
    else FirstSqlFence(s, from + 1)
  }

  lemma {:induction false} NoTerminatorNoFenceMatch(s: string, from: nat)
    requires FirstTerminator(s, from + |SqlFence|).None?
    ensures SearchFence(s, from).None?
    decreases |s| + 1 - from
  {
    if from <= |s| {
      NoTerminatorNoFenceMatch(s, from + 1);
    }
  }

  /** Only the first opening fence counts: when no terminator follows it, no
      later fence can have one either. */
  lemma {:induction false} SearchFenceFirstFence(s: string, from: nat)
    ensures SearchFence(s, from) == match FirstSqlFence(s, from)
                                    case None => None
                                    case Some(i) =>
                                      match FirstTerminator(s, i + |SqlFence|)
                                      case None => None
                                      case Some(j) => Some((i, j))
    decreases |s| + 1 - from
  {
    if from <= |s| {
      if OccursAt(s, SqlFence, from) {
        if FirstTerminator(s, from + |SqlFence|).None? {
          NoTerminatorNoFenceMatch(s, from + 1);
        }
      } else {
        SearchFenceFirstFence(s, from + 1);
        assert FirstSqlFence(s, from) == FirstSqlFence(s, from + 1);
      }
    }
  }

  /** `s.replace("```", "")`. */
  function RemoveFences(s: string): (r: string)
    ensures |r| <= |s|
    ensures forall i :: 0 <= i < |r| ==> r[i] in s
    decreases |s|
  {
    if OccursAt(s, Fence, 0) then RemoveFences(s[3..])
    else if |s| == 0 then []
    else [s[0]] + RemoveFences(s[1..])
  }

  lemma {:induction false} RemoveFencesWithoutFence(s: string)
    requires forall k :: !OccursAt(s, Fence, k)
    ensures RemoveFences(s) == s
    decreases |s|
  {
    if |s| > 0 {
      forall k ensures !OccursAt(s[1..], Fence, k) {
        if 0 <= k && k + 3 <= |s[1..]| {
          assert s[1..][k..k + 3] == s[k + 1..k + 4];
          assert !OccursAt(s, Fence, k + 1);
        }
      }
      RemoveFencesWithoutFence(s[1..]);
    }
  }

  /** `extract_sql`: the fenced block wins over a select/with statement, and a
      reply with neither comes back normalised but otherwise whole. */
  function ExtractSql(response: string): (r: string)
    ensures forall i :: 0 <= i < |r| ==> r[i] != '\\'
  {
    ExtractFromNormal(Normalise(response))
  }

  /** The searches of `extract_sql` on the normalised reply. */
  function ExtractFromNormal(n: string): (r: string)
    ensures (forall k :: 0 <= k < |n| ==> n[k] != '\\') ==> forall i :: 0 <= i < |r| ==> r[i] != '\\'
  {
    match SearchFence(n, 0)
    case Some((i, j)) =>
      var body := n[i + |SqlFence|..j];
      SliceKeepsNoBackslash(n, i + |SqlFence|, j);
      RemoveFences(body)
    case None =>
      match SearchSelectWith(n, 0)
      case Some((i, j)) => n[i..j]
      case None => n
  }

  lemma SliceKeepsNoBackslash(n: string, a: nat, b: nat)
    requires a <= b <= |n|
    ensures (forall k :: 0 <= k < |n| ==> n[k] != '\\') ==> forall c :: c in n[a..b] ==> c != '\\'
  {
  }

  /** The fenced block never holds a terminator: it has no `;`, no `[` and no
      complete fence, so removing fences from it changes nothing. */
  lemma FenceBodyHasNoTerminator(n: string, i: nat, j: nat)
    requires FenceMatchAt(n, i) == Some(j)
    ensures var body := n[i + |SqlFence|..j];
            && (forall k :: 0 <= k < |body| ==> body[k] != ';' && body[k] != '[')
            && (forall k :: !OccursAt(body, Fence, k))
            && RemoveFences(body) == body
  {
    var start := i + |SqlFence|;
    var body := n[start..j];
    forall k | 0 <= k < |body| ensures body[k] != ';' && body[k] != '[' {
      assert !IsTerminatorAt(n, start + k);
    }
    forall k ensures !OccursAt(body, Fence, k) {
      if 0 <= k && k + 3 <= |body| {
        assert body[k..k + 3] == n[start + k..start + k + 3];
        assert !IsTerminatorAt(n, start + k);
      }
    }
    RemoveFencesWithoutFence(body);
  }

  /** A fenced block wins: the result is its body, which holds no `;`, no `[`
      and no complete fence. */
  lemma ExtractSqlFenced(response: string)
    requires SearchFence(Normalise(response), 0).Some?
    ensures var n := Normalise(response);
            var (i, j) := SearchFence(n, 0).value;
            var r := ExtractSql(response);
            && OccursAt(n, SqlFence, i) && IsTerminatorAt(n, j)
            && r == n[i + |SqlFence|..j]
            && (forall k :: 0 <= k < |r| ==> r[k] != ';' && r[k] != '[')
            && (forall k :: !OccursAt(r, Fence, k))
  {
    var n := Normalise(response);
    var (i, j) := SearchFence(n, 0).value;
    FenceBodyHasNoTerminator(n, i, j);
  }

  /** Without a fenced block, a select/with statement is cut right before the
      first terminator that follows it. */
  lemma ExtractSqlSelectWith(response: string)
    requires SearchFence(Normalise(response), 0).None?
    requires SearchSelectWith(Normalise(response), 0).Some?
    ensures var n := Normalise(response);
            var m := SearchSelectWith(n, 0).value;
            var r := ExtractSql(response);
            && r == n[m.0..m.1] && IsTerminatorAt(n, m.1)
            && (StartsWithIgnoringCase(r, 0, "select") || StartsWithIgnoringCase(r, 0, "with"))
  {
    var n := Normalise(response);
    var m := SearchSelectWith(n, 0).value;
    if StartsWithIgnoringCase(n, m.0, "select") && m.0 + 6 <= m.1 {
      WordStaysAtFront(n, m.0, m.1, "select");
    } else {
      WordStaysAtFront(n, m.0, m.1, "with");
    }
  }

  lemma WordStaysAtFront(n: string, i: nat, j: nat, word: string)
    requires StartsWithIgnoringCase(n, i, word) && i + |word| <= j <= |n|
    ensures StartsWithIgnoringCase(n[i..j], 0, word)
  {
    assert forall k :: 0 <= k < |word| ==> n[i..j][k] == n[i + k];
  }

  /** The result is always a piece of the normalised reply. */
  lemma ExtractSqlIsPieceOfReply(response: string)
    ensures Contains(Normalise(response), ExtractSql(response))
  {
    ExtractIsPiece(Normalise(response));
  }

  lemma ExtractIsPiece(n: string)
    ensures Contains(n, ExtractFromNormal(n))
  {
    match SearchFence(n, 0)
    case Some((i, j)) =>
      FenceBodyHasNoTerminator(n, i, j);
      assert OccursAt(n, n[i + |SqlFence|..j], i + |SqlFence|);
    case None =>
      match SearchSelectWith(n, 0)
      case Some((i, j)) =>
        assert OccursAt(n, n[i..j], i);
      case None =>
        assert OccursAt(n, n, 0);
  }

  /** A reply in which no statement could end comes back as it is, apart from
      its backslashes. */
  lemma ExtractSqlWithoutTerminator(response: string)
    requires forall j :: !IsTerminatorAt(Normalise(response), j)
    ensures ExtractSql(response) == RemoveBackslashes(response)
  {
    var n := Normalise(response);
    NormaliseRemovesEveryBackslash(response);
    assert SearchFence(n, 0).None?;
    assert SearchSelectWith(n, 0).None?;
  }

  /** A fenced body without terminators or backslashes is recovered exactly. */
  lemma FencedBodyRoundTrip(body: string)
    requires forall k :: 0 <= k < |body| ==> body[k] !in {';', '[', '`', '\\'}
    ensures ExtractSql(SqlFence + body + Fence) == body
  {
    var s := SqlFence + body + Fence;
    assert forall k :: 0 <= k < |s| ==> s[k] != '\\';
    assert Normalise(s) == s by {
      NormaliseRemovesEveryBackslash(s);
    }
    assert OccursAt(s, SqlFence, 0);
    var end := |SqlFence| + |body|;
    assert IsTerminatorAt(s, end) by {
      assert s[end..end + 3] == Fence;
    }
    forall j | |SqlFence| <= j < end ensures !IsTerminatorAt(s, j) {
      assert s[j] == body[j - |SqlFence|];
    }
    assert FirstTerminator(s, |SqlFence|) == Some(end);
    assert SearchFence(s, 0) == Some((0, end));
    assert s[|SqlFence|..end] == body;
    FenceBodyHasNoTerminator(s, 0, end);
  }

  /** A text without backslashes is its own normal form. */
  lemma NormalWithoutBackslash(s: string)
    requires forall k :: 0 <= k < |s| ==> s[k] != '\\'
    ensures Normalise(s) == s
  {
    NormaliseRemovesEveryBackslash(s);
  }

  /** A text without backticks has no fenced block. */
  lemma NoFenceWithoutBacktick(s: string)
    requires forall k :: 0 <= k < |s| ==> s[k] != '`'
    ensures SearchFence(s, 0).None?
  {
    forall i: nat ensures FenceMatchAt(s, i).None? {
      if i + |SqlFence| <= |s| {
        assert s[i..i + |SqlFence|][0] == s[i];
      }
    }
  }

  /** A text opening with `select` matches up to its first terminator. */
  lemma SelectMatchesAtStart(s: string, end: nat)
    requires StartsWithIgnoringCase(s, 0, "select")
    requires 6 <= end < |s| && s[end] == ';'
    requires forall j :: 6 <= j < end ==> s[j] != ';' && s[j] != '[' && s[j] != '`'
    ensures SearchSelectWith(s, 0) == Some((0, end))
  {
    forall j | 6 <= j < end ensures !IsTerminatorAt(s, j) {
      if j + 3 <= |s| {
        assert s[j..j + 3][0] == s[j];
      }
    }
    assert IsTerminatorAt(s, end);
    assert FirstTerminator(s, 6) == Some(end);
  }

  /** Outside a fence, a statement opening the reply is cut right before the
      semicolon that ends it, and the rest of the reply is dropped. */
  lemma SelectCutAtSemicolon(body: string, rest: string)
    requires forall k :: 0 <= k < |body| ==> body[k] !in {';', '[', '`', '\\'}
    requires forall k :: 0 <= k < |rest| ==> rest[k] !in {'`', '\\'}
    ensures ExtractSql("SELECT" + body + ";" + rest) == "SELECT" + body
  {
    var s := "SELECT" + body + ";" + rest;
    var end := 6 + |body|;
    forall k | 0 <= k < |s| ensures s[k] != '\\' && s[k] != '`' {
      if k < 6 {
      } else if k < end {
        assert s[k] == body[k - 6];
      } else if k > end {
        assert s[k] == rest[k - end - 1];
      }
    }
    NormalWithoutBackslash(s);
    NoFenceWithoutBacktick(s);
    assert StartsWithIgnoringCase(s, 0, "select");
    forall j | 6 <= j < end ensures s[j] != ';' && s[j] != '[' && s[j] != '`' {
      assert s[j] == body[j - 6];
    }
    SelectMatchesAtStart(s, end);
    assert s[..end] == "SELECT" + body;
  }
}
