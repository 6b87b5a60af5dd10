/** The substring search of server/internal/store/tracks.go: a query is escaped into a LIKE
    pattern (LIKE predicate: section 8.5 of ISO/IEC 9075-2) and matched case-insensitively. */
module Search {
  import opened Sequences
  import opened Tables
  import opened Order

  const BACKSLASH := '\\'

  predicate Special(c: char) {
    c == BACKSLASH || c == '%' || c == '_'
  }

  // ---------------------------------------------------------------- what LIKE means

  datatype Token = AnyRun | AnyOne | Exactly(c: char)

  /** A pattern with ESCAPE '\'. The escape character must precede itself or a wildcard. */
  function Tokens(p: string): Option<seq<Token>> {
    if p == [] then Some([])
    else if p[0] == BACKSLASH then
      if |p| == 1 || !Special(p[1]) then None else Prepend(Exactly(p[1]), Tokens(p[2..]))
    else
      Prepend(if p[0] == '%' then AnyRun else if p[0] == '_' then AnyOne else Exactly(p[0]), Tokens(p[1..]))
  }

  function Prepend(t: Token, rest: Option<seq<Token>>): Option<seq<Token>> {
    if rest.Some? then Some([t] + rest.value) else None
  }

  predicate Matches(ts: seq<Token>, s: string)
    decreases |ts|
  {
    if ts == [] then s == []
    else match ts[0]
      case AnyRun => exists k :: 0 <= k <= |s| && Matches(ts[1..], s[k..])
      case AnyOne => s != [] && Matches(ts[1..], s[1..])
      case Exactly(c) => s != [] && s[0] == c && Matches(ts[1..], s[1..])
  }

  /** None when the pattern is malformed and the statement fails. */
  function Like(s: string, p: string): Option<bool> {
    if Tokens(p).Some? then Some(Matches(Tokens(p).value, s)) else None
  }

  function Fold(fold: char -> char, s: string): (r: string)
    ensures |r| == |s| && forall i :: 0 <= i < |s| ==> r[i] == fold(s[i])
  {
    seq(|s|, i requires 0 <= i < |s| => fold(s[i]))
  }

  /** Case folding neither changes nor produces a wildcard or the escape character. */
  ghost predicate KeepsSpecials(fold: char -> char) {
    forall c :: (Special(c) ==> fold(c) == c) && (Special(fold(c)) ==> Special(c))
  }

  function ILike(fold: char -> char, s: string, p: string): Option<bool> {
    Like(Fold(fold, s), Fold(fold, p))
  }

  // ---------------------------------------------------------------- the query

  function Escape(q: string): string {
    if q == [] then []
    else (if Special(q[0]) then [BACKSLASH, q[0]] else [q[0]]) + Escape(q[1..])
  }

  function Pattern(q: string): string {
    "%" + Escape(q) + "%"
  }

  ghost predicate OccursAt(s: string, q: string, i: int) {
    0 <= i <= |s| - |q| && s[i..i + |q|] == q
  }

  ghost predicate Contains(s: string, q: string) {
    exists i :: OccursAt(s, q, i)
  }

  function Literal(q: string): seq<Token> {
    if q == [] then [] else [Exactly(q[0])] + Literal(q[1..])
  }

  lemma EscapedChar(c: char, p: string)
    ensures Tokens((if Special(c) then [BACKSLASH, c] else [c]) + p) == Prepend(Exactly(c), Tokens(p))
  {
    if Special(c) {
      assert ([BACKSLASH, c] + p)[2..] == p;
    } else {
      assert ([c] + p)[1..] == p;
    }
  }

  /** The escaped query reads back as itself, whatever follows it. */
  lemma {:induction false} EscapeIsLiteral(q: string, after: string)
    requires Tokens(after).Some?
    ensures Tokens(Escape(q) + after) == Some(Literal(q) + Tokens(after).value)
  {
    var ts := Tokens(after).value;
    if q == [] {
      assert Escape(q) + after == after;
      assert Literal(q) + ts == ts;
    } else {
      EscapeIsLiteral(q[1..], after);
      EscapedChar(q[0], Escape(q[1..]) + after);
      var head := if Special(q[0]) then [BACKSLASH, q[0]] else [q[0]];
      assert Escape(q) + after == head + (Escape(q[1..]) + after);
      assert [Exactly(q[0])] + (Literal(q[1..]) + ts) == Literal(q) + ts;
    }
  }

  lemma PatternTokens(q: string)
    ensures Tokens(Pattern(q)) == Some([AnyRun] + Literal(q) + [AnyRun])
  {
    assert Tokens([]) == Some([]) && "%"[1..] == [] && "%"[0] == '%';
    assert Tokens("%") == Prepend(AnyRun, Tokens("%"[1..]));
    assert [AnyRun] + [] == [AnyRun];
    EscapeIsLiteral(q, "%");
    assert Pattern(q)[0] == '%' && Pattern(q)[1..] == Escape(q) + "%";
    assert Tokens(Pattern(q)) == Prepend(AnyRun, Tokens(Escape(q) + "%"));
    assert [AnyRun] + (Literal(q) + [AnyRun]) == [AnyRun] + Literal(q) + [AnyRun];
  }

  lemma AnythingMatchesRun(s: string)
    ensures Matches([AnyRun], s)
  {
    assert [AnyRun][1..] == [] && s[|s|..] == [];
    assert Matches([AnyRun][1..], s[|s|..]);
  }

  lemma PrefixStep(q: string, s: string)
    requires q != [] && s != []
    ensures q <= s <==> q[0] == s[0] && q[1..] <= s[1..]
  {
    assert q == [q[0]] + q[1..] && s == [s[0]] + s[1..];
  }

  lemma {:induction false} LiteralThenRun(q: string, s: string)
    ensures Matches(Literal(q) + [AnyRun], s) <==> q <= s
  {
    if q == [] {
      assert Literal(q) + [AnyRun] == [AnyRun];
      AnythingMatchesRun(s);
    } else {
      assert (Literal(q) + [AnyRun])[1..] == Literal(q[1..]) + [AnyRun];
      if s != [] {
        LiteralThenRun(q[1..], s[1..]);
        PrefixStep(q, s);
      }
    }
  }

  lemma RunLiteralRun(q: string, s: string)
    ensures Matches([AnyRun] + Literal(q) + [AnyRun], s) <==> Contains(s, q)
  {
    var ts := [AnyRun] + Literal(q) + [AnyRun];
    assert ts[1..] == Literal(q) + [AnyRun];
    forall k | 0 <= k <= |s|
      ensures Matches(ts[1..], s[k..]) <==> OccursAt(s, q, k)
    {
      LiteralThenRun(q, s[k..]);
      if k <= |s| - |q| {
        assert s[k..][..|q|] == s[k..k + |q|];
        assert q <= s[k..] <==> s[k..][..|q|] == q;
      }
    }
    if Contains(s, q) {
      var i :| OccursAt(s, q, i);
      assert Matches(ts[1..], s[i..]);
    }
  }

  lemma {:induction false} FoldEscape(fold: char -> char, q: string)
    requires KeepsSpecials(fold)
    ensures Fold(fold, Escape(q)) == Escape(Fold(fold, q))
  {
    if q == [] {
      assert Fold(fold, Escape(q)) == [] == Fold(fold, q);
    } else {
      FoldEscape(fold, q[1..]);
      assert Fold(fold, q)[1..] == Fold(fold, q[1..]);
      var head := if Special(q[0]) then [BACKSLASH, q[0]] else [q[0]];
      assert Fold(fold, head) == if Special(fold(q[0])) then [BACKSLASH, fold(q[0])] else [fold(q[0])];
      assert Fold(fold, head + Escape(q[1..])) == Fold(fold, head) + Fold(fold, Escape(q[1..]));
    }
  }

  /** Main result: the pattern is well formed, and it matches exactly the texts that contain
      the query, case folded; wildcards typed by the user stand for themselves. */
  lemma SearchIsSubstring(fold: char -> char, q: string, s: string)
    requires KeepsSpecials(fold)
    ensures ILike(fold, s, Pattern(q)) == Some(Contains(Fold(fold, s), Fold(fold, q)))
  {
    FoldEscape(fold, q);
    assert fold('%') == '%' by { assert Special('%'); }
    assert Fold(fold, Pattern(q)) == Pattern(Fold(fold, q));
    PatternTokens(Fold(fold, q));
    RunLiteralRun(Fold(fold, q), Fold(fold, s));
  }

  lemma {:induction false} EscapeIsInjective(q: string, r: string)
    requires Escape(q) == Escape(r)
    ensures q == r
  {
    if q == [] || r == [] {
    } else {
      assert q[0] == r[0] by {
        assert Special(q[0]) ==> Escape(q)[0] == BACKSLASH && Escape(q)[1] == q[0];
        assert Special(r[0]) ==> Escape(r)[0] == BACKSLASH && Escape(r)[1] == r[0];
        assert !Special(q[0]) ==> Escape(q)[0] == q[0];
        assert !Special(r[0]) ==> Escape(r)[0] == r[0];
      }
      var n := if Special(q[0]) then 2 else 1;
      assert Escape(q)[n..] == Escape(q[1..]) && Escape(r)[n..] == Escape(r[1..]);
      EscapeIsInjective(q[1..], r[1..]);
      assert q == [q[0]] + q[1..] && r == [r[0]] + r[1..];
    }
  }

  /** Why the query is escaped: as they stand, '%' would find everything, '_' every text but the
      empty one, and a backslash would make the statement fail. */
  lemma EscapingIsNeeded(s: string)
    ensures Like(s, "%" + "%" + "%") == Some(true)
    ensures Like(s, "%" + "_" + "%") == Some(s != [])
    ensures Like(s, "%" + [BACKSLASH] + "%" + "%") == Some(Contains(s, "%"))
    ensures Like(s, "%" + [BACKSLASH]) == None
  {
    NakedPercent(s);
    NakedUnderscore(s);
    assert Escape("%") == [BACKSLASH, '%'] + Escape([]) by { assert "%"[1..] == []; }
    assert Pattern("%") == "%" + [BACKSLASH] + "%" + "%";
    PatternTokens("%");
    RunLiteralRun("%", s);
    assert ("%" + [BACKSLASH])[1..] == [BACKSLASH];
    assert Tokens([BACKSLASH]) == None;
  }

  lemma TokensFrom(c: char, p: string)
    requires c != BACKSLASH
    ensures Tokens([c] + p) == Prepend(if c == '%' then AnyRun else if c == '_' then AnyOne else Exactly(c), Tokens(p))
  {
    assert ([c] + p)[1..] == p;
  }

  /** The tokens of "%" + [c] + "%", for a wildcard c. */
  lemma WildcardPattern(c: char)
    requires c == '%' || c == '_'
    ensures Tokens("%" + [c] + "%") == Some([AnyRun, if c == '%' then AnyRun else AnyOne, AnyRun])
  {
    assert ['%'] + [] == "%" && [AnyRun] + [] == [AnyRun];
    var t := if c == '%' then AnyRun else AnyOne;
    TokensFrom('%', []);
    assert Tokens("%") == Some([AnyRun]);
    TokensFrom(c, "%");
    assert [t] + [AnyRun] == [t, AnyRun];
    assert Tokens([c] + "%") == Some([t, AnyRun]);
    TokensFrom('%', [c] + "%");
    assert ['%'] + ([c] + "%") == "%" + [c] + "%";
    assert [AnyRun] + [t, AnyRun] == [AnyRun, t, AnyRun];
  }

  lemma NakedPercent(s: string)
    ensures Like(s, "%" + "%" + "%") == Some(true)
  {
    WildcardPattern('%');
    AnythingMatchesRun(s);
    assert [AnyRun, AnyRun][1..] == [AnyRun] && [AnyRun, AnyRun, AnyRun][1..] == [AnyRun, AnyRun];
    assert s[0..] == s;
    assert Matches([AnyRun, AnyRun], s);
    assert Matches([AnyRun, AnyRun, AnyRun], s);
  }

  lemma NakedUnderscore(s: string)
    ensures Like(s, "%" + "_" + "%") == Some(s != [])
  {
    var ts := [AnyRun, AnyOne, AnyRun];
    WildcardPattern('_');
    assert ts[1..] == [AnyOne, AnyRun] && ts[1..][1..] == [AnyRun];
    if s != [] {
      assert s[0..] == s;
      AnythingMatchesRun(s[1..]);
      assert Matches(ts[1..], s[0..]);
    } else {
      assert !Matches(ts[1..], s);
      assert forall k :: 0 <= k <= |s| ==> s[k..] == s;
    }
  }

  // ---------------------------------------------------------------- SearchTracks

  const LIMIT := 100

  /** WHERE user_id = $1 AND (title ILIKE $2 OR artist ILIKE $2 OR album ILIKE $2) */
  predicate Hit(fold: char -> char, row: Track, user: int, pattern: string) {
    && row.owner == user
    && (|| ILike(fold, row.title, pattern) == Some(true)
        || ILike(fold, row.artist, pattern) == Some(true)
        || ILike(fold, row.album, pattern) == Some(true))
  }

  predicate TitleLe(a: Row, b: Row) {
    StringLe(a.track.title, b.track.title)
  }

  function Hits(fold: char -> char, rows: seq<Row>, user: int, pattern: string): seq<Row> {
    if rows == [] then []
    else (if Hit(fold, rows[0].track, user, pattern) then [rows[0]] else []) + Hits(fold, rows[1..], user, pattern)
  }

  /** ORDER BY title LIMIT 100 */
  function Found(fold: char -> char, rows: seq<Row>, user: int, q: string): seq<Row> {
    var hits := Sort(TitleLe, Hits(fold, rows, user, Pattern(q)));
    if |hits| <= LIMIT then hits else hits[..LIMIT]
  }

  method SearchTracks(fold: char -> char, rows: seq<Row>, user: int, q: string) returns (tracks: seq<Row>)
    ensures tracks == Found(fold, rows, user, q)
  {
    var result := Sort(TitleLe, Hits(fold, rows, user, Pattern(q)));
    tracks := [];
    for i := 0 to |result|
      invariant tracks == result[..i] && i <= LIMIT
    {
      if i == LIMIT {
        return;
      }
      tracks := tracks + [result[i]];
    }
  }

  ghost predicate Mentions(fold: char -> char, row: Track, user: int, q: string) {
    && row.owner == user
    && (|| Contains(Fold(fold, row.title), Fold(fold, q))
        || Contains(Fold(fold, row.artist), Fold(fold, q))
        || Contains(Fold(fold, row.album), Fold(fold, q)))
  }

  lemma HitsAreMentions(fold: char -> char, row: Track, user: int, q: string)
    requires KeepsSpecials(fold)
    ensures Hit(fold, row, user, Pattern(q)) <==> Mentions(fold, row, user, q)
  {
    SearchIsSubstring(fold, q, row.title);
    SearchIsSubstring(fold, q, row.artist);
    SearchIsSubstring(fold, q, row.album);
  }

  lemma {:induction false} HitsCount(fold: char -> char, rows: seq<Row>, user: int, pattern: string, r: Row)
    ensures multiset(Hits(fold, rows, user, pattern))[r] == if Hit(fold, r.track, user, pattern) then multiset(rows)[r] else 0
  {
    if rows != [] {
      HitsCount(fold, rows[1..], user, pattern, r);
      assert rows == [rows[0]] + rows[1..];
      ConcatCounts([rows[0]], rows[1..], r);
    }
  }

  lemma TitleOrderIs()
    ensures forall a, b :: TitleLe(a, b) <==> NotAfter(a.track.title, b.track.title)
  {
    forall a, b
      ensures TitleLe(a, b) <==> NotAfter(a.track.title, b.track.title)
    {
      StringLeIsLexicographic(a.track.title, b.track.title);
    }
  }

  lemma CutOff(all: seq<Row>, n: nat, r: Row)
    requires SortedBy(TitleLe, all) && n <= |all|
    ensures multiset(all[..n])[r] <= multiset(all)[r]
    ensures multiset(all[..n])[r] < multiset(all)[r] ==> forall f :: f in all[..n] ==> TitleLe(f, r)
  {
    assert all == all[..n] + all[n..];
    ConcatCounts(all[..n], all[n..], r);
    if multiset(all[..n])[r] < multiset(all)[r] {
      assert r in multiset(all[n..]);
      var k :| 0 <= k < |all[n..]| && all[n..][k] == r;
      forall f | f in all[..n]
        ensures TitleLe(f, r)
      {
        var i :| 0 <= i < |all[..n]| && all[..n][i] == f;
        assert TitleLe(all[i], all[n + k]);
      }
    }
  }

  lemma FoundIsSorted(fold: char -> char, rows: seq<Row>, user: int, q: string)
    ensures var found := Found(fold, rows, user, q);
      && |found| <= LIMIT
      && forall i, j :: 0 <= i < j < |found| ==> NotAfter(found[i].track.title, found[j].track.title)
  {
    var found := Found(fold, rows, user, q);
    StringOrder();
    SortSorts(TitleLe, Hits(fold, rows, user, Pattern(q)));
    forall i, j | 0 <= i < j < |found|
      ensures NotAfter(found[i].track.title, found[j].track.title)
    {
      assert TitleLe(found[i], found[j]);
      StringLeIsLexicographic(found[i].track.title, found[j].track.title);
    }
  }

  /** A full page that may leave out `r`: all on it sort no later. */
  ghost predicate FullBefore(found: seq<Row>, r: Row) {
    |found| == 100 && forall f :: f in found ==> NotAfter(f.track.title, r.track.title)
  }

  lemma FoundRow(fold: char -> char, rows: seq<Row>, user: int, q: string, r: Row)
    requires KeepsSpecials(fold)
    ensures var found := Found(fold, rows, user, q);
      && (r in found ==> r in rows && Mentions(fold, r.track, user, q))
      && (Mentions(fold, r.track, user, q) ==> multiset(found)[r] == multiset(rows)[r] || FullBefore(found, r))
  {
    var all, found := Sort(TitleLe, Hits(fold, rows, user, Pattern(q))), Found(fold, rows, user, q);
    StringOrder();
    SortSorts(TitleLe, Hits(fold, rows, user, Pattern(q)));
    var n := if |all| <= LIMIT then |all| else LIMIT;
    assert found == all[..n];
    HitsAreMentions(fold, r.track, user, q);
    HitsCount(fold, rows, user, Pattern(q), r);
    CutOff(all, n, r);
    TitleOrderIs();
    assert r in found ==> r in multiset(found) && r in multiset(all);
  }

  /** Main result: a search gives the user's own tracks that mention the query, by title; each
      as often as it is there, except that a full page may drop what sorts after all of it. */
  lemma SearchFindsMentions(fold: char -> char, rows: seq<Row>, user: int, q: string)
    requires KeepsSpecials(fold)
    ensures var found := Found(fold, rows, user, q);
      && (forall i, j :: 0 <= i < j < |found| ==> NotAfter(found[i].track.title, found[j].track.title))
      && |found| <= 100
      && forall r :: r in found ==> r in rows && Mentions(fold, r.track, user, q)
    ensures forall r :: r in rows && Mentions(fold, r.track, user, q) ==>
      var found := Found(fold, rows, user, q);
      multiset(found)[r] == multiset(rows)[r] || FullBefore(found, r)
  {
    FoundIsSorted(fold, rows, user, q);
    forall r
      ensures r in Found(fold, rows, user, q) ==> r in rows && Mentions(fold, r.track, user, q)
      ensures Mentions(fold, r.track, user, q) ==>
                multiset(Found(fold, rows, user, q))[r] == multiset(rows)[r] || FullBefore(Found(fold, rows, user, q), r)
    {
      FoundRow(fold, rows, user, q, r);
    }
  }
}
