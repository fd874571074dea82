/**
 * The SQL-trace extractor of the dashboard (app.py, extract_sql_from_output).
 *
 * The agent's verbose trace is searched with six regular expressions, all
 * case-insensitive and with `.` matching newlines, in a fixed order; the
 * captured groups that `re.findall` reports for each pattern (leftmost,
 * non-overlapping, left to right) are appended to one list, and an empty
 * list is reported as "nothing found" (None) instead.
 *
 * Every pattern is modelled by a matcher written out by hand that makes the
 * same choices as Python's backtracking engine:
 *   - a lazy "anything" followed by "newline or end of input" stops at the
 *     first '\n', which the match consumes, or at the end of the text;
 *   - a lazy "anything" followed by a keyword stops at the first later
 *     occurrence of that keyword, crossing newlines;
 *   - a greedy white-space run followed by a keyword that begins with a
 *     letter takes the whole run: giving white space back never lets a
 *     letter match, so backtracking into the run finds nothing new.
 */
module SqlExtraction {
  import opened Wrappers

  /** The characters Python's `\s` matches in a str pattern (those for which str.isspace() holds). */
  predicate IsSpace(c: char) {
    c == ' ' || '\t' <= c <= '\r' || '\U{1c}' <= c <= '\U{1f}'
    || c == '\U{85}' || c == '\U{a0}' || c == '\U{1680}'
    || '\U{2000}' <= c <= '\U{200a}' || c == '\U{2028}' || c == '\U{2029}'
    || c == '\U{202f}' || c == '\U{205f}' || c == '\U{3000}'
  }

  /**
   * The character a text character is compared as, under IGNORECASE, with a
   * lower-case ASCII pattern letter: ASCII capitals become lower case, and the
   * engine also folds U+0130 and U+0131 onto 'i', U+017F onto 's' and the
   * Kelvin sign U+212A onto 'k'. Every other character stands for itself.
   */
  function Fold(c: char): (f: char)
    ensures f == '\n' <==> c == '\n'
    ensures IsSpace(c) ==> f == c
    ensures 'a' <= f <= 'z' ==> c != '\n' && !IsSpace(c)
  {
    if 'A' <= c <= 'Z' then (c as int + 32) as char
    else if c == '\U{130}' || c == '\U{131}' then 'i'
    else if c == '\U{17f}' then 's'
    else if c == '\U{212a}' then 'k'
    else c
  }

  /** The lower-case keyword `kw` occurs in `s` at position `p`, ignoring case. */
  predicate KeywordAt(s: string, p: nat, kw: string) {
    p + |kw| <= |s| && forall k :: 0 <= k < |kw| ==> Fold(s[p + k]) == kw[k]
  }

  /** The end of a greedy white-space run that starts at `i`. */
  function SkipSpaces(s: string, i: nat): (j: nat)
    requires i <= |s|
    ensures i <= j <= |s|
    ensures forall k :: i <= k < j ==> IsSpace(s[k])
    ensures j < |s| ==> !IsSpace(s[j])
    decreases |s| - i
  {
    if i < |s| && IsSpace(s[i]) then SkipSpaces(s, i + 1) else i
  }

  /** The first position at or after `i` that holds '\n', or the end of the text. */
  function LineEnd(s: string, i: nat): (q: nat)
    requires i <= |s|
    ensures i <= q <= |s|
    ensures forall k :: i <= k < q ==> s[k] != '\n'
    ensures q < |s| ==> s[q] == '\n'
    decreases |s| - i
  {
    if i == |s| || s[i] == '\n' then i else LineEnd(s, i + 1)
  }

  /** The first position at or after `i` where `kw` occurs, if any: the stop of a lazy "anything" before `kw`. */
  function FindKeyword(s: string, i: nat, kw: string): (r: Option<nat>)
    requires i <= |s|
    ensures r.Some? ==> i <= r.value && KeywordAt(s, r.value, kw)
    ensures r.Some? ==> forall k :: i <= k < r.value ==> !KeywordAt(s, k, kw)
    ensures r.None? ==> forall k :: i <= k ==> !KeywordAt(s, k, kw)
    decreases |s| - i
  {
    if KeywordAt(s, i, kw) then Some(i)
    else if i == |s| then None
    else FindKeyword(s, i + 1, kw)
  }

  /**
   * One match reported by findall: the match was tried at `at`, its captured
   * group is s[start..stop], and scanning resumes at `next`.
   */
  datatype Hit = Hit(at: nat, start: nat, stop: nat, next: nat)

  /**
   * The two shapes of the six patterns.
   * Marked(marker, gap): the marker, then a gap (a white-space run, or a lazy
   *   run of anything), then the captured group: SELECT and the rest of the line.
   * Statement(verb, clause): the captured group is the verb, at least one
   *   white-space character, a lazy run of anything up to the first clause
   *   keyword, and the rest of that line.
   */
  datatype Gap = Spaces | Anything
  datatype Pattern =
    | Marked(marker: string, gap: Gap)
    | Statement(verb: string, clause: string)

  /** The six patterns of the extractor, in the order they are applied (app.py:64-71). */
  const Patterns: seq<Pattern> := [
    Marked("action input:", Spaces),
    Marked("sql_db_query", Anything),
    Statement("select", "from"),
    Statement("insert", "into"),
    Statement("update", "set"),
    Statement("delete", "from")
  ]

  /** The keyword every capture of `pat` begins with. */
  function Verb(pat: Pattern): string {
    match pat
    case Marked(_, _) => "select"
    case Statement(verb, _) => verb
  }

  /** The common tail of every pattern: a lazy run up to the first '\n' (consumed) or the end of the text. */
  function CaptureToLineEnd(s: string, at: nat, start: nat, from: nat): (h: Hit)
    requires start <= from <= |s|
    ensures h.at == at && h.start == start && from <= h.stop <= |s|
    ensures forall k :: from <= k < h.stop ==> s[k] != '\n'
    ensures h.stop < |s| ==> s[h.stop] == '\n'
    ensures h.next == if h.stop < |s| then h.stop + 1 else |s|
  {
    var q := LineEnd(s, from);
    Hit(at, start, q, if q < |s| then q + 1 else q)
  }

  /** Pattern 1 or 2 tried at `p`: the marker, then the SELECT after it, then the rest of its line. */
  function MarkedMatch(marker: string, gap: Gap, s: string, p: nat): (r: Option<Hit>)
    requires p <= |s|
  {
    if !KeywordAt(s, p, marker) then None
    else
      var select :=
        if gap == Spaces then
          var w := SkipSpaces(s, p + |marker|);
          if KeywordAt(s, w, "select") then Some(w) else None
        else FindKeyword(s, p + |marker|, "select");
      if select.None? then None
      else Some(CaptureToLineEnd(s, p, select.value, select.value + 6))
  }

  /** One of patterns 3 to 6 tried at `p`: the verb, white space, the clause keyword further on, then the rest of its line. */
  function StatementMatch(verb: string, clause: string, s: string, p: nat): (r: Option<Hit>)
    requires p <= |s|
  {
    var v := p + |verb|;
    if !(KeywordAt(s, p, verb) && v < |s| && IsSpace(s[v])) then None
    else
      var c := FindKeyword(s, SkipSpaces(s, v), clause);
      if c.None? then None
      else Some(CaptureToLineEnd(s, p, p, c.value + |clause|))
  }

  /** The match of `pat` tried at position `p`, as the backtracking engine finds it. */
  function MatchAt(pat: Pattern, s: string, p: nat): (r: Option<Hit>)
    requires p <= |s|
    ensures r.Some? ==> r.value.at == p && p <= r.value.start <= r.value.stop <= |s|
    ensures r.Some? ==> p < r.value.next <= |s| && r.value.stop <= r.value.next
    ensures r.Some? ==> KeywordAt(s, r.value.start, Verb(pat))
  {
    match pat
    case Marked(marker, gap) => MarkedMatch(marker, gap, s, p)
    case Statement(verb, clause) => StatementMatch(verb, clause, s, p)
  }

  /**
   * The outcome of trying `pat` at every position of `s`, the empty position
   * at the end of the text included.
   */
  function Attempts(pat: Pattern, s: string): (t: seq<Option<Hit>>)
    ensures |t| == |s| + 1
  {
    seq(|s| + 1, q requires 0 <= q <= |s| => MatchAt(pat, s, q))
  }

  /** A table of attempts in which every match ends after the position it was tried at. */
  predicate Scannable(t: seq<Option<Hit>>) {
    |t| > 0
    && forall q :: 0 <= q < |t| && t[q].Some? ==>
         t[q].value.at == q < t[q].value.next < |t| && t[q].value.start <= t[q].value.stop <= t[q].value.next
  }

  lemma AttemptsScannable(pat: Pattern, s: string)
    ensures Scannable(Attempts(pat, s))
  {
    var t := Attempts(pat, s);
    forall q | 0 <= q < |t| && t[q].Some?
      ensures t[q].value.at == q < t[q].value.next < |t| && t[q].value.start <= t[q].value.stop <= t[q].value.next
    {
      assert t[q] == MatchAt(pat, s, q);
    }
  }

  /**
   * The matches findall reports when scanning starts at `p`: a match found at
   * the current position is recorded and scanning resumes where it ended;
   * otherwise scanning moves on by one position.
   */
  function Scan(t: seq<Option<Hit>>, p: nat): (hits: seq<Hit>)
    requires Scannable(t) && p < |t|
    ensures forall k :: 0 <= k < |hits| ==> p <= hits[k].at < |t| && hits[k].start <= hits[k].stop < |t|
    ensures forall k :: 0 <= k < |hits| - 1 ==> hits[k].next <= hits[k + 1].at
    decreases |t| - p
  {
    match t[p]
    case Some(h) => [h] + Scan(t, h.next)
    case None => if p + 1 < |t| then Scan(t, p + 1) else []
  }

  /** The list `re.findall(pattern, text, re.IGNORECASE | re.DOTALL)` returns: the captured groups, left to right. */
  function FindAll(pat: Pattern, s: string): (r: seq<string>)
    ensures forall k :: 0 <= k < |r| ==> exists a, b :: 0 <= a <= b <= |s| && r[k] == s[a..b]
  {
    AttemptsScannable(pat, s);
    var hits := Scan(Attempts(pat, s), 0);
    var r := seq(|hits|, k requires 0 <= k < |hits| => s[hits[k].start..hits[k].stop]);
    assert forall k :: 0 <= k < |r| ==> r[k] == s[hits[k].start..hits[k].stop] && hits[k].stop <= |s|;
    r
  }

  /** The lists one after the other: what extending an empty list with each of them in turn produces. */
  function Concat(lists: seq<seq<string>>): seq<string>
    decreases |lists|
  {
    if lists == [] then [] else Concat(lists[..|lists| - 1]) + lists[|lists| - 1]
  }

  /** The findall result of each of the six patterns, in pattern order. */
  function PerPattern(s: string): (lists: seq<seq<string>>)
    ensures |lists| == |Patterns|
  {
    seq(|Patterns|, i requires 0 <= i < |Patterns| => FindAll(Patterns[i], s))
  }

  /** Everything the extractor collects from `s`. */
  function Extraction(s: string): seq<string> {
    Concat(PerPattern(s))
  }

  /**
   * extract_sql_from_output: runs the patterns in order, extending the list
   * with each pattern's captures, and reports None when the list stayed empty.
   */
  method ExtractSqlFromOutput(outputText: string) returns (r: Option<seq<string>>)
    ensures r.None? <==> forall i :: 0 <= i < |Patterns| ==> PerPattern(outputText)[i] == []
    ensures r.Some? ==> r.value != [] && r.value == Extraction(outputText)
  {
    ghost var lists := PerPattern(outputText);
    var sqlQueries: seq<string> := [];
    for i := 0 to |Patterns|
      invariant sqlQueries == Concat(lists[..i])
    {
      assert lists[..i + 1][..i] == lists[..i];
      var matches := FindAll(Patterns[i], outputText);
      assert matches == lists[i];
      sqlQueries := sqlQueries + matches;
    }
    assert lists[..|Patterns|] == lists;
    ConcatEmptyIff(lists);
    if sqlQueries == [] {
      r := None;
    } else {
      r := Some(sqlQueries);
    }
  }

  // ---------------------------------------------------------------------
  // Properties of the extractor
  // ---------------------------------------------------------------------

  /** The concatenation is empty exactly when every list is. */
  lemma {:induction false} ConcatEmptyIff(lists: seq<seq<string>>)
    ensures Concat(lists) == [] <==> forall i :: 0 <= i < |lists| ==> lists[i] == []
    decreases |lists|
  {
    if lists != [] {
      var n := |lists| - 1;
      ConcatEmptyIff(lists[..n]);
      assert forall i :: 0 <= i < n ==> lists[..n][i] == lists[i];
    }
  }

  /** Six lists concatenated are the six lists one after the other. */
  lemma ConcatOfSix(f: seq<seq<string>>)
    requires |f| == 6
    ensures Concat(f) == f[0] + f[1] + f[2] + f[3] + f[4] + f[5]
  {
    assert Concat(f[..1]) == f[0] by { assert f[..1][..0] == []; }
    assert Concat(f[..2]) == f[0] + f[1] by { assert f[..2][..1] == f[..1]; }
    assert Concat(f[..3]) == f[0] + f[1] + f[2] by { assert f[..3][..2] == f[..2]; }
    assert Concat(f[..4]) == f[0] + f[1] + f[2] + f[3] by { assert f[..4][..3] == f[..3]; }
    assert Concat(f[..5]) == f[0] + f[1] + f[2] + f[3] + f[4] by { assert f[..5][..4] == f[..4]; }
    assert f[..6] == f;
    assert f[..6][..5] == f[..5];
  }

  /** The result is the six per-pattern lists in pattern order; nothing is merged, reordered or removed. */
  lemma ExtractionInPatternOrder(s: string)
    ensures Extraction(s)
         == FindAll(Patterns[0], s) + FindAll(Patterns[1], s) + FindAll(Patterns[2], s)
          + FindAll(Patterns[3], s) + FindAll(Patterns[4], s) + FindAll(Patterns[5], s)
  {
    ConcatOfSix(PerPattern(s));
  }

  /** Every hit of a scan is the match found at the position it was tried at. */
  lemma {:induction false} ScanHitsAreMatches(t: seq<Option<Hit>>, p: nat)
    requires Scannable(t) && p < |t|
    ensures forall k :: 0 <= k < |Scan(t, p)| ==> t[Scan(t, p)[k].at] == Some(Scan(t, p)[k])
    decreases |t| - p
  {
    match t[p]
    case Some(h) => ScanHitsAreMatches(t, h.next);
    case None => if p + 1 < |t| { ScanHitsAreMatches(t, p + 1); }
  }

  /** Scanning from `p` finds nothing exactly when no attempt from `p` on is a match. */
  lemma {:induction false} NoHitsIffNoMatch(t: seq<Option<Hit>>, p: nat)
    requires Scannable(t) && p < |t|
    ensures Scan(t, p) == [] <==> forall q :: p <= q < |t| ==> t[q].None?
    decreases |t| - p
  {
    if t[p].None? && p + 1 < |t| {
      NoHitsIffNoMatch(t, p + 1);
    }
  }

  /** findall of one pattern is empty exactly when the pattern matches at no position of the text. */
  lemma FindAllEmptyIff(pat: Pattern, s: string)
    ensures FindAll(pat, s) == [] <==> forall q :: 0 <= q < |s| ==> MatchAt(pat, s, q).None?
  {
    var t := Attempts(pat, s);
    AttemptsScannable(pat, s);
    NoHitsIffNoMatch(t, 0);
    assert forall q :: 0 <= q <= |s| ==> t[q] == MatchAt(pat, s, q);
  }

  /**
   * The extractor reports "nothing found" exactly when none of the six
   * patterns matches at any position of the text.
   */
  lemma NothingFoundIffNoMatch(s: string)
    ensures Extraction(s) == []
        <==> forall i, q :: 0 <= i < |Patterns| && 0 <= q < |s| ==> MatchAt(Patterns[i], s, q).None?
  {
    var f := PerPattern(s);
    ConcatEmptyIff(f);
    forall i | 0 <= i < |Patterns|
      ensures f[i] == [] <==> forall q :: 0 <= q < |s| ==> MatchAt(Patterns[i], s, q).None?
    {
      FindAllEmptyIff(Patterns[i], s);
    }
  }

  /** Text in which none of the words SELECT, INSERT, UPDATE, DELETE occurs (in any case) yields nothing. */
  lemma SqlFreeTextYieldsNothing(s: string)
    requires forall q :: !KeywordAt(s, q, "select") && !KeywordAt(s, q, "insert")
                      && !KeywordAt(s, q, "update") && !KeywordAt(s, q, "delete")
    ensures Extraction(s) == []
  {
    forall i, q | 0 <= i < |Patterns| && 0 <= q < |s|
      ensures MatchAt(Patterns[i], s, q).None?
    {
      var m := MatchAt(Patterns[i], s, q);
      if m.Some? {
        assert false;
      }
    }
    NothingFoundIffNoMatch(s);
  }

  /** What every capture of `pat` looks like. */
  predicate Shaped(pat: Pattern, c: string) {
    match pat
    case Marked(_, _) =>
      KeywordAt(c, 0, "select") && '\n' !in c
    case Statement(verb, clause) =>
      KeywordAt(c, 0, verb) && |verb| < |c| && IsSpace(c[|verb|])
      && exists j :: |verb| < j < |c| && KeywordAt(c, j, clause) && '\n' !in c[j..]
  }

  /** A keyword found in the text is found at the matching position of any slice that contains it. */
  lemma KeywordInSlice(s: string, a: nat, b: nat, i: nat, kw: string)
    requires a <= i && i + |kw| <= b <= |s| && KeywordAt(s, i, kw)
    ensures KeywordAt(s[a..b], i - a, kw)
  {
    forall k | 0 <= k < |kw| ensures Fold(s[a..b][i - a + k]) == kw[k] {
      assert s[a..b][i - a + k] == s[i + k];
    }
  }

  lemma MarkedCaptureShape(s: string, w: nat, h: Hit)
    requires w + 6 <= |s| && KeywordAt(s, w, "select") && h == CaptureToLineEnd(s, h.at, w, w + 6)
    ensures Shaped(Marked("", Spaces), s[h.start..h.stop])
  {
    var c := s[h.start..h.stop];
    KeywordInSlice(s, h.start, h.stop, h.start, "select");
    forall k | w <= k < h.stop ensures s[k] != '\n' {
      if k < w + 6 {
        assert Fold(s[k]) == "select"[k - w];
      }
    }
    assert forall k :: 0 <= k < |c| ==> c[k] == s[w + k];
  }

  lemma StatementCaptureShape(s: string, verb: string, clause: string, j: nat, h: Hit)
    requires h.start + |verb| < |s| && KeywordAt(s, h.start, verb) && IsSpace(s[h.start + |verb|])
    requires h.start + |verb| < j && KeywordAt(s, j, clause) && clause != [] && '\n' !in clause
    requires h == CaptureToLineEnd(s, h.at, h.start, j + |clause|)
    ensures Shaped(Statement(verb, clause), s[h.start..h.stop])
  {
    var c := s[h.start..h.stop];
    KeywordInSlice(s, h.start, h.stop, h.start, verb);
    KeywordInSlice(s, h.start, h.stop, j, clause);
    assert c[|verb|] == s[h.start + |verb|];
    forall k | j <= k < h.stop ensures s[k] != '\n' {
      if k < j + |clause| {
        assert Fold(s[k]) == clause[k - j];
      }
    }
    var i := j - h.start;
    assert c[i..] == s[j..h.stop];
    assert KeywordAt(c, i, clause) && '\n' !in c[i..];
  }

  /** The clause keyword of a statement pattern is a non-empty word on one line. */
  predicate OneLineClause(pat: Pattern) {
    pat.Statement? ==> pat.clause != [] && '\n' !in pat.clause
  }

  lemma MarkedMatchShape(marker: string, gap: Gap, s: string, p: nat)
    requires p <= |s| && MarkedMatch(marker, gap, s, p).Some?
    ensures var h := MarkedMatch(marker, gap, s, p).value;
      Shaped(Marked(marker, gap), s[h.start..h.stop])
  {
    var h := MarkedMatch(marker, gap, s, p).value;
    var w := if gap == Spaces then SkipSpaces(s, p + |marker|) else FindKeyword(s, p + |marker|, "select").value;
    assert h == CaptureToLineEnd(s, p, w, w + 6);
    MarkedCaptureShape(s, w, h);
  }

  lemma StatementMatchShape(verb: string, clause: string, s: string, p: nat)
    requires clause != [] && '\n' !in clause
    requires p <= |s| && StatementMatch(verb, clause, s, p).Some?
    ensures var h := StatementMatch(verb, clause, s, p).value;
      Shaped(Statement(verb, clause), s[h.start..h.stop])
  {
    var h := StatementMatch(verb, clause, s, p).value;
    var j := FindKeyword(s, SkipSpaces(s, p + |verb|), clause).value;
    assert h == CaptureToLineEnd(s, p, p, j + |clause|);
    StatementCaptureShape(s, verb, clause, j, h);
  }

  /** A match of a pattern whose clause keyword stays on one line captures text of the pattern's shape. */
  lemma MatchShape(pat: Pattern, s: string, p: nat)
    requires OneLineClause(pat) && p <= |s| && MatchAt(pat, s, p).Some?
    ensures Shaped(pat, s[MatchAt(pat, s, p).value.start..MatchAt(pat, s, p).value.stop])
  {
    match pat
    case Marked(marker, gap) => MarkedMatchShape(marker, gap, s, p);
    case Statement(verb, clause) => StatementMatchShape(verb, clause, s, p);
  }

  /**
   * Captures of the first two patterns begin with SELECT and stay on one line;
   * captures of the other four begin with their verb and a white-space
   * character and contain their clause keyword, after which they stay on one line.
   */
  lemma CapturesShaped(pat: Pattern, s: string)
    requires OneLineClause(pat)
    ensures forall c :: c in FindAll(pat, s) ==> Shaped(pat, c)
  {
    var t := Attempts(pat, s);
    AttemptsScannable(pat, s);
    var hits := Scan(t, 0);
    ScanHitsAreMatches(t, 0);
    forall k | 0 <= k < |hits| ensures Shaped(pat, FindAll(pat, s)[k]) {
      assert t[hits[k].at] == MatchAt(pat, s, hits[k].at);
      MatchShape(pat, s, hits[k].at);
    }
  }

  /** The capture begins with SELECT, INSERT, UPDATE or DELETE, in any case. */
  predicate StartsWithSqlVerb(c: string) {
    KeywordAt(c, 0, "select") || KeywordAt(c, 0, "insert") || KeywordAt(c, 0, "update") || KeywordAt(c, 0, "delete")
  }

  /** Whatever is in the concatenation is in one of the lists. */
  lemma {:induction false} InConcat(lists: seq<seq<string>>, c: string)
    requires c in Concat(lists)
    ensures exists i :: 0 <= i < |lists| && c in lists[i]
    decreases |lists|
  {
    var n := |lists| - 1;
    if c !in lists[n] {
      InConcat(lists[..n], c);
      var i :| 0 <= i < n && c in lists[..n][i];
      assert lists[..n][i] == lists[i];
    }
  }

  /** A capture of the shape of one of the six patterns begins with an SQL verb. */
  lemma ShapedStartsWithVerb(pat: Pattern, c: string)
    requires pat in Patterns && Shaped(pat, c)
    ensures StartsWithSqlVerb(c)
  {
  }

  /** Every capture of one of the six patterns begins with an SQL verb. */
  lemma CaptureStartsWithVerb(s: string, i: nat, c: string)
    requires i < |Patterns| && c in PerPattern(s)[i]
    ensures StartsWithSqlVerb(c)
  {
    var pat := Patterns[i];
    assert OneLineClause(pat);
    CapturesShaped(pat, s);
    ShapedStartsWithVerb(pat, c);
  }

  /** Every string the extractor reports begins with an SQL verb. */
  lemma ExtractedStatementsStartWithVerb(s: string)
    ensures forall c :: c in Extraction(s) ==> StartsWithSqlVerb(c)
  {
    var lists := PerPattern(s);
    forall c | c in Concat(lists) ensures StartsWithSqlVerb(c) {
      InConcat(lists, c);
      var i :| 0 <= i < |lists| && c in lists[i];
      CaptureStartsWithVerb(s, i, c);
    }
  }

  /** Positions where the pattern does not match are skipped without changing what findall reports. */
  lemma {:induction false} SkipNonMatching(t: seq<Option<Hit>>, p: nat, q: nat)
    requires Scannable(t) && p <= q < |t|
    requires forall r :: p <= r < q ==> t[r].None?
    ensures Scan(t, p) == Scan(t, q)
    decreases q - p
  {
    if p < q {
      SkipNonMatching(t, p + 1, q);
    }
  }

  /** The sample trace line used by the lemmas below, in three pieces. */
  const TraceHead: string := "Action Input: "
  const TraceQuery: string := "SELECT * FROM defects"
  const TraceTail: string := "\nObservation: ..."
  const SampleTrace: string := TraceHead + TraceQuery + TraceTail

  lemma TraceLayout()
    ensures |SampleTrace| == 52 && SampleTrace[14..35] == TraceQuery
    ensures forall k :: 0 <= k < 14 ==> SampleTrace[k] == TraceHead[k]
    ensures forall k :: 14 <= k < 35 ==> SampleTrace[k] == TraceQuery[k - 14]
    ensures SampleTrace[35] == '\n'
  {
  }

  lemma TraceMarker()
    ensures KeywordAt(SampleTrace, 0, "action input:")
  {
    TraceLayout();
    forall k | 0 <= k < 13 ensures Fold(SampleTrace[k]) == "action input:"[k] {
      assert k in {0, 1, 2, 3, 4, 5, 6, 7, 8, 9, 10, 11, 12};
    }
  }

  lemma TraceSelect()
    ensures KeywordAt(SampleTrace, 14, "select")
    ensures forall r :: 0 <= r < 14 ==> !KeywordAt(SampleTrace, r, "select")
  {
    TraceLayout();
    forall k | 0 <= k < 6 ensures Fold(SampleTrace[14 + k]) == "select"[k] {
      assert k in {0, 1, 2, 3, 4, 5};
    }
    forall r | 0 <= r < 14 ensures !KeywordAt(SampleTrace, r, "select") {
      assert r in {0, 1, 2, 3, 4, 5, 6, 7, 8, 9, 10, 11, 12, 13};
      assert Fold(SampleTrace[r + 0]) != "select"[0];
    }
  }

  lemma TraceFrom()
    ensures KeywordAt(SampleTrace, 23, "from")
  {
    assert SampleTrace[23..27] == "FROM" by {
      TraceLayout();
      assert TraceQuery[9..13] == "FROM";
    }
    forall k | 0 <= k < 4 ensures Fold(SampleTrace[23 + k]) == "from"[k] {
      assert SampleTrace[23 + k] == "FROM"[k];
    }
  }

  lemma TraceFindFrom()
    ensures FindKeyword(SampleTrace, 21, "from") == Some(23)
  {
    TraceLayout();
    TraceFrom();
    assert SampleTrace[21] == '*' && SampleTrace[22] == ' ';
    assert !KeywordAt(SampleTrace, 21, "from") by {
      assert Fold(SampleTrace[21 + 0]) != "from"[0];
    }
    assert !KeywordAt(SampleTrace, 22, "from") by {
      assert Fold(SampleTrace[22 + 0]) != "from"[0];
    }
  }

  lemma TraceSpacesAndLine()
    ensures SkipSpaces(SampleTrace, 13) == 14 && SkipSpaces(SampleTrace, 20) == 21
    ensures LineEnd(SampleTrace, 20) == 35 && LineEnd(SampleTrace, 27) == 35
  {
    TraceLayout();
    assert SampleTrace[13] == ' ' && SampleTrace[14] == 'S';
    assert SampleTrace[20] == ' ' && SampleTrace[21] == '*';
    forall k | 0 <= k < 21 ensures TraceQuery[k] != '\n' {
      assert k in {0, 1, 2, 3, 4, 5, 6, 7, 8, 9, 10, 11, 12, 13, 14, 15, 16, 17, 18, 19, 20};
    }
  }

  lemma TraceMarkedMatch()
    ensures MatchAt(Patterns[0], SampleTrace, 0) == Some(Hit(0, 14, 35, 36))
  {
    TraceMarker();
    TraceSelect();
    TraceSpacesAndLine();
  }

  /** How a bare-statement pattern matches: its verb, one space, then its clause keyword further on. */
  lemma StatementMatchAt(verb: string, clause: string, s: string, p: nat, c: nat)
    requires p + |verb| < |s| && KeywordAt(s, p, verb) && IsSpace(s[p + |verb|])
    requires FindKeyword(s, SkipSpaces(s, p + |verb|), clause) == Some(c)
    ensures c + |clause| <= |s|
    ensures MatchAt(Statement(verb, clause), s, p) == Some(CaptureToLineEnd(s, p, p, c + |clause|))
  {
  }

  lemma TraceStatementMatch()
    ensures MatchAt(Patterns[2], SampleTrace, 14) == Some(Hit(14, 14, 35, 36))
  {
    TraceLayout();
    TraceSelect();
    TraceFindFrom();
    TraceSpacesAndLine();
    assert IsSpace(SampleTrace[20]);
    assert Patterns[2] == Statement("select", "from");
    assert CaptureToLineEnd(SampleTrace, 14, 14, 27) == Hit(14, 14, 35, 36);
    StatementMatchAt("select", "from", SampleTrace, 14, 23);
  }

  lemma TraceNoStatementBefore(r: nat)
    requires r < 14
    ensures MatchAt(Patterns[2], SampleTrace, r).None?
  {
    TraceLayout();
    TraceSelect();
  }

  /** A table whose first match is at `p` reports that match first. */
  lemma FirstHitReported(t: seq<Option<Hit>>, p: nat)
    requires Scannable(t) && p < |t| && t[p].Some?
    requires forall r :: 0 <= r < p ==> t[r].None?
    ensures Scan(t, 0) != [] && Scan(t, 0)[0] == t[p].value
  {
    SkipNonMatching(t, 0, p);
  }

  /** The first pattern reports the statement first, from the start of the line. */
  lemma TraceFoundByMarked()
    ensures FindAll(Patterns[0], SampleTrace) != []
    ensures FindAll(Patterns[0], SampleTrace)[0] == TraceQuery
  {
    TraceLayout();
    var t := Attempts(Patterns[0], SampleTrace);
    AttemptsScannable(Patterns[0], SampleTrace);
    TraceMarkedMatch();
    assert t[0] == MatchAt(Patterns[0], SampleTrace, 0) == Some(Hit(0, 14, 35, 36));
    FirstHitReported(t, 0);
  }

  /** The bare-SELECT pattern reports the statement first, from the SELECT at position 14. */
  lemma TraceFoundByStatement()
    ensures FindAll(Patterns[2], SampleTrace) != []
    ensures FindAll(Patterns[2], SampleTrace)[0] == TraceQuery
  {
    TraceLayout();
    var t := Attempts(Patterns[2], SampleTrace);
    AttemptsScannable(Patterns[2], SampleTrace);
    TraceStatementMatch();
    forall r | 0 <= r < 14 ensures t[r].None? {
      TraceNoStatementBefore(r);
      assert t[r] == MatchAt(Patterns[2], SampleTrace, r);
    }
    assert t[14] == MatchAt(Patterns[2], SampleTrace, 14) == Some(Hit(14, 14, 35, 36));
    FirstHitReported(t, 14);
  }

  /**
   * On the sample trace line the statement after "Action Input:" is reported;
   * it is reported twice, by the first pattern and by the bare-SELECT pattern,
   * because the extractor does not remove duplicates.
   */
  lemma SampleTraceReportedTwice()
    ensures TraceQuery == "SELECT * FROM defects"
    ensures TraceQuery in Extraction(SampleTrace)
    ensures multiset(Extraction(SampleTrace))[TraceQuery] >= 2
  {
    var s := SampleTrace;
    TraceFoundByMarked();
    TraceFoundByStatement();
    var f0 := FindAll(Patterns[0], s);
    var f2 := FindAll(Patterns[2], s);
    ExtractionInPatternOrder(s);
    assert multiset(f0)[TraceQuery] >= 1 && multiset(f2)[TraceQuery] >= 1;
  }
}
