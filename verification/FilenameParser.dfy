/** The filename guesser of app/src/utils/parseFilename.ts and the canonical printer that
    undoes it. Strings are sequences of characters; numbers are unbounded. */
module FilenameParser {
  import opened Tables

  datatype Guess = Guess(
    artist: Option<string>,
    album: Option<string>,
    title: Option<string>,
    trackNumber: Option<nat>,
    confident: bool)

  const NO_GUESS := Guess(None, None, None, None, false)

  // ---------------------------------------------------------------- characters

  predicate LineTerminator(c: char) {
    c == '\n' || c == '\r' || c == '\U{2028}' || c == '\U{2029}'
  }

  /** What trim removes and \s matches. */
  predicate Space(c: char) {
    || LineTerminator(c) || c == '\t' || c == '\U{000B}' || c == '\U{000C}' || c == ' '
    || c == '\U{00A0}' || c == '\U{1680}' || '\U{2000}' <= c <= '\U{200A}'
    || c == '\U{202F}' || c == '\U{205F}' || c == '\U{3000}' || c == '\U{FEFF}'
  }

  predicate Digit(c: char) {
    '0' <= c <= '9'
  }

  predicate AllSpace(s: string) {
    forall i :: 0 <= i < |s| ==> Space(s[i])
  }

  predicate AllDigits(s: string) {
    forall i :: 0 <= i < |s| ==> Digit(s[i])
  }

  predicate OneLine(s: string) {
    forall i :: 0 <= i < |s| ==> !LineTerminator(s[i])
  }

  predicate DashFree(s: string) {
    forall i :: 0 <= i < |s| ==> s[i] != '-'
  }

  predicate Trimmed(s: string) {
    s == [] || (!Space(s[0]) && !Space(s[|s| - 1]))
  }

  /** What a segment looks like: something, trimmed, with no dash in it. */
  predicate Field(s: string) {
    s != [] && Trimmed(s) && DashFree(s)
  }

  // ---------------------------------------------------------------- the parser

  function TrimStart(s: string): string {
    if s != [] && Space(s[0]) then TrimStart(s[1..]) else s
  }

  function TrimEnd(s: string): string {
    if s != [] && Space(s[|s| - 1]) then TrimEnd(s[..|s| - 1]) else s
  }

  function Trim(s: string): string {
    TrimEnd(TrimStart(s))
  }

  /** /^\d+$/ */
  predicate IsNumeric(s: string) {
    s != [] && AllDigits(s)
  }

  predicate Separator(c: char) {
    c == '.' || c == '/' || c == BACKSLASH
  }

  const BACKSLASH := '\\'

  /** Where the longest separator-free suffix starts. */
  function PlainSuffix(s: string): (k: nat)
    ensures k <= |s|
    ensures forall i :: k <= i < |s| ==> !Separator(s[i])
    ensures 0 < k ==> Separator(s[k - 1])
  {
    if s == [] || Separator(s[|s| - 1]) then |s| else PlainSuffix(s[..|s| - 1])
  }

  /** Removes what /\.[^.\/\\]+$/ matches. */
  function StripExtension(filename: string): string {
    var k := PlainSuffix(filename);
    if 0 < k < |filename| && filename[k - 1] == '.' then filename[..k - 1] else filename
  }

  function Split(s: string): (pieces: seq<string>)
    ensures pieces != []
  {
    if s == [] then [""]
    else
      var rest := Split(s[1..]);
      if s[0] == '-' then [""] + rest else [[s[0]] + rest[0]] + rest[1..]
  }

  /** map trim, then keep what is not empty */
  function Clean(pieces: seq<string>): seq<string> {
    if pieces == [] then []
    else (if Trim(pieces[0]) == "" then [] else [Trim(pieces[0])]) + Clean(pieces[1..])
  }

  function Segments(stem: string): seq<string> {
    Clean(Split(stem))
  }

  function DigitRun(s: string): (n: nat)
    ensures n <= |s| && AllDigits(s[..n]) && (n < |s| ==> !Digit(s[n]))
  {
    if s != [] && Digit(s[0]) then
      assert forall i :: 0 < i < |s| ==> s[i] == s[1..][i - 1];
      1 + DigitRun(s[1..])
    else 0
  }

  function SpaceRun(s: string): (n: nat)
    ensures n <= |s| && AllSpace(s[..n]) && (n < |s| ==> !Space(s[n]))
  {
    if s != [] && Space(s[0]) then
      assert forall i :: 0 < i < |s| ==> s[i] == s[1..][i - 1];
      1 + SpaceRun(s[1..])
    else 0
  }

  /** match(/^(\d+)\s+(.+)$/): the two groups */
  function NumberedTitle(s: string): Option<(string, string)> {
    var d := DigitRun(s);
    var w := SpaceRun(s[d..]);
    if 0 < d && 0 < w && d + w < |s| && OneLine(s[d + w..]) then Some((s[..d], s[d + w..])) else None
  }

  /** parseInt(ds, 10) */
  function Value(ds: string): nat
    requires AllDigits(ds)
  {
    if ds == [] then 0 else 10 * Value(ds[..|ds| - 1]) + (ds[|ds| - 1] - '0') as int
  }

  function Numeric(segments: seq<string>): (r: seq<string>)
    ensures forall i :: 0 <= i < |r| ==> IsNumeric(r[i])
  {
    if segments == [] then [] else (if IsNumeric(segments[0]) then [segments[0]] else []) + Numeric(segments[1..])
  }

  function NonNumeric(segments: seq<string>): seq<string> {
    if segments == [] then [] else (if IsNumeric(segments[0]) then [] else [segments[0]]) + NonNumeric(segments[1..])
  }

  function ParseSegments(segments: seq<string>): Guess {
    if |segments| == 3 then
      match NumberedTitle(segments[2])
      case Some((ds, title)) => Guess(Some(segments[0]), Some(segments[1]), Some(Trim(title)), Some(Value(ds)), true)
      case None => Guess(Some(segments[0]), Some(segments[1]), Some(segments[2]), None, true)
    else if |segments| == 5 && IsNumeric(segments[1]) && IsNumeric(segments[2]) then
      Guess(Some(segments[3]), Some(segments[0]), Some(segments[4]), Some(Value(segments[2])), true)
    else
      var numbers, words := Numeric(segments), NonNumeric(segments);
      var trackNumber := if numbers != [] then Some(Value(numbers[0])) else None;
      if |words| == 2 then Guess(Some(words[0]), None, Some(words[1]), trackNumber, true)
      else if |words| == 3 then Guess(Some(words[0]), Some(words[1]), Some(words[2]), trackNumber, true)
      else NO_GUESS
  }

  function ParseFilename(filename: string): Guess {
    ParseSegments(Segments(StripExtension(filename)))
  }

  // ---------------------------------------------------------------- the printer

  function Decimal(n: nat): string {
    (if n < 10 then "" else Decimal(n / 10)) + ['0' + (n % 10) as char]
  }

  /** "artist - album - n title" or, without a number, "artist - album - title" */
  function Stem(artist: string, album: string, tail: string): string {
    artist + " - " + album + " - " + tail
  }

  function Print(g: Guess, extension: string): string
    requires g.artist.Some? && g.album.Some? && g.title.Some?
  {
    var tail := if g.trackNumber.Some? then Decimal(g.trackNumber.value) + " " + g.title.value else g.title.value;
    Stem(g.artist.value, g.album.value, tail) + extension
  }

  predicate Extension(e: string) {
    2 <= |e| && e[0] == '.' && forall i :: 1 <= i < |e| ==> !Separator(e[i])
  }

  lemma {:induction false} DecimalRoundTrip(n: nat)
    ensures Decimal(n) != [] && AllDigits(Decimal(n)) && Value(Decimal(n)) == n
  {
    var s := Decimal(n);
    if 10 <= n {
      DecimalRoundTrip(n / 10);
      assert s[..|s| - 1] == Decimal(n / 10);
    } else {
      assert s[..|s| - 1] == [];
    }
  }

  lemma StripAppended(stem: string, e: string)
    requires Extension(e)
    ensures StripExtension(stem + e) == stem
  {
    var f := stem + e;
    var k := PlainSuffix(f);
    assert f[|stem|] == '.' && forall i :: |stem| < i < |f| ==> f[i] == e[i - |stem|];
    assert k == |stem| + 1 by {
      if k <= |stem| { assert Separator(f[|stem|]); }
    }
    assert f[..|stem|] == stem;
  }

  // ---------------------------------------------------------------- trimming

  lemma {:induction false} TrimStartSpaces(w: string, s: string)
    requires AllSpace(w)
    ensures TrimStart(w + s) == TrimStart(s)
  {
    if w == [] {
      assert w + s == s;
    } else {
      assert (w + s)[1..] == w[1..] + s;
      TrimStartSpaces(w[1..], s);
    }
  }

  lemma {:induction false} TrimEndSpaces(s: string, w: string)
    requires AllSpace(w)
    ensures TrimEnd(s + w) == TrimEnd(s)
    decreases |w|
  {
    if w == [] {
      assert s + w == s;
    } else {
      assert (s + w)[..|s + w| - 1] == s + w[..|w| - 1];
      TrimEndSpaces(s, w[..|w| - 1]);
    }
  }

  lemma {:induction false} TrimStartSplits(s: string) returns (w: string)
    ensures AllSpace(w) && s == w + TrimStart(s)
    ensures TrimStart(s) != [] ==> !Space(TrimStart(s)[0])
  {
    if s != [] && Space(s[0]) {
      var v := TrimStartSplits(s[1..]);
      w := [s[0]] + v;
      assert s == [s[0]] + s[1..];
    } else {
      w := [];
    }
  }

  lemma {:induction false} TrimEndSplits(s: string) returns (w: string)
    ensures AllSpace(w) && s == TrimEnd(s) + w
    ensures TrimEnd(s) != [] ==> !Space(TrimEnd(s)[|TrimEnd(s)| - 1])
    decreases |s|
  {
    if s != [] && Space(s[|s| - 1]) {
      var v := TrimEndSplits(s[..|s| - 1]);
      w := v + [s[|s| - 1]];
      assert s == s[..|s| - 1] + [s[|s| - 1]];
    } else {
      w := [];
    }
  }

  lemma TrimSplits(s: string) returns (v: string, w: string)
    ensures AllSpace(v) && AllSpace(w) && s == v + Trim(s) + w && Trimmed(Trim(s))
  {
    v := TrimStartSplits(s);
    w := TrimEndSplits(TrimStart(s));
    assert Trim(s) != [] ==> Trim(s)[0] == TrimStart(s)[0];
  }

  lemma TrimOfTrimmed(s: string)
    requires Trimmed(s)
    ensures Trim(s) == s
  {
  }

  lemma TrimPaddedRight(s: string, w: string)
    requires AllSpace(w)
    ensures Trim(s + w) == Trim(s)
  {
    var x := TrimStartSplits(s);
    var t := TrimStart(s);
    assert s + w == x + (t + w);
    TrimStartSpaces(x, t + w);
    if t == [] {
      assert t + w == w + [];
      TrimStartSpaces(w, []);
    } else {
      TrimEndSpaces(t, w);
    }
  }

  /** Trimming is blind to spaces at either end. */
  lemma TrimPadded(v: string, s: string, w: string)
    requires AllSpace(v) && AllSpace(w)
    ensures Trim(v + s + w) == Trim(s)
  {
    assert v + s + w == v + (s + w);
    TrimStartSpaces(v, s + w);
    TrimPaddedRight(s, w);
  }

  // ---------------------------------------------------------------- segments

  lemma {:induction false} SplitAtDash(a: string, b: string)
    ensures Split(a + "-" + b) == Split(a) + Split(b)
  {
    if a == [] {
      assert (a + "-" + b)[1..] == b;
    } else {
      assert (a + "-" + b)[1..] == a[1..] + "-" + b;
      SplitAtDash(a[1..], b);
    }
  }

  lemma {:induction false} CleanConcat(x: seq<string>, y: seq<string>)
    ensures Clean(x + y) == Clean(x) + Clean(y)
  {
    if x == [] {
      assert x + y == y;
    } else {
      assert (x + y)[1..] == x[1..] + y;
      CleanConcat(x[1..], y);
    }
  }

  lemma SegmentsAtDash(a: string, b: string)
    ensures Segments(a + "-" + b) == Segments(a) + Segments(b)
  {
    SplitAtDash(a, b);
    CleanConcat(Split(a), Split(b));
  }

  lemma {:induction false} SplitOfDashFree(s: string)
    requires DashFree(s)
    ensures Split(s) == [s]
  {
    if s != [] {
      SplitOfDashFree(s[1..]);
      assert s == [s[0]] + s[1..];
    }
  }

  lemma OnePiece(s: string)
    requires DashFree(s)
    ensures Segments(s) == if Trim(s) == "" then [] else [Trim(s)]
  {
    SplitOfDashFree(s);
    assert Clean([s]) == (if Trim(s) == "" then [] else [Trim(s)]) + Clean([s][1..]);
  }

  lemma {:induction false} SplitPrepend(v: string, s: string)
    requires DashFree(v)
    ensures Split(v + s) == [v + Split(s)[0]] + Split(s)[1..]
  {
    var p := Split(s);
    if v == [] {
      assert v + s == s && v + p[0] == p[0];
      assert p == [p[0]] + p[1..];
    } else {
      assert (v + s)[0] == v[0] != '-' && (v + s)[1..] == v[1..] + s;
      SplitPrepend(v[1..], s);
      assert [v[0]] + (v[1..] + p[0]) == v + p[0];
    }
  }

  lemma SplitOne(c: char, s: string)
    ensures Split([c] + s) == if c == '-' then [""] + Split(s) else [[c] + Split(s)[0]] + Split(s)[1..]
  {
    assert ([c] + s)[1..] == s;
  }

  /** `p` with `w` added to its last piece. */
  function WithTail(p: seq<string>, w: string): seq<string>
    requires p != []
  {
    p[..|p| - 1] + [p[|p| - 1] + w]
  }

  lemma TailUnderHead(c: char, p: seq<string>, w: string)
    requires p != []
    ensures WithTail([""] + p, w) == [""] + WithTail(p, w)
    ensures WithTail([[c] + p[0]] + p[1..], w) == [[c] + WithTail(p, w)[0]] + WithTail(p, w)[1..]
  {
    if |p| == 1 {
      assert [c] + (p[0] + w) == ([c] + p[0]) + w;
    }
  }

  lemma {:induction false} SplitAppend(s: string, w: string)
    requires DashFree(w)
    ensures Split(s + w) == WithTail(Split(s), w)
  {
    if s == [] {
      assert s + w == w == "" + w;
      SplitOfDashFree(w);
    } else {
      assert s + w == [s[0]] + (s[1..] + w) && s == [s[0]] + s[1..];
      SplitOne(s[0], s[1..] + w);
      SplitOne(s[0], s[1..]);
      SplitAppend(s[1..], w);
      TailUnderHead(s[0], Split(s[1..]), w);
    }
  }

  lemma SpacesAreDashFree(w: string)
    requires AllSpace(w)
    ensures DashFree(w)
  {
  }

  lemma CleanOfOne(x: string, y: string)
    requires Trim(x) == Trim(y)
    ensures Clean([x]) == Clean([y])
  {
    assert [x][1..] == [] == [y][1..];
  }

  lemma SegmentsPaddedLeft(v: string, s: string)
    requires AllSpace(v)
    ensures Segments(v + s) == Segments(s)
  {
    SpacesAreDashFree(v);
    SplitPrepend(v, s);
    var p := Split(s);
    assert v + p[0] + [] == v + p[0];
    TrimPadded(v, p[0], []);
    CleanOfOne(v + p[0], p[0]);
    CleanConcat([v + p[0]], p[1..]);
    CleanConcat([p[0]], p[1..]);
    assert p == [p[0]] + p[1..];
  }

  lemma SegmentsPaddedRight(s: string, w: string)
    requires AllSpace(w)
    ensures Segments(s + w) == Segments(s)
  {
    SpacesAreDashFree(w);
    SplitAppend(s, w);
    var p := Split(s);
    var front, last := p[..|p| - 1], p[|p| - 1];
    assert [] + last + w == last + w;
    TrimPadded([], last, w);
    CleanOfOne(last + w, last);
    CleanConcat(front, [last + w]);
    CleanConcat(front, [last]);
    assert p == front + [last];
  }

  /** Spaces around a stem, hence around every dash, do not matter. */
  lemma SegmentsPadded(v: string, s: string, w: string)
    requires AllSpace(v) && AllSpace(w)
    ensures Segments(v + s + w) == Segments(s)
  {
    SegmentsPaddedLeft(v, s);
    SegmentsPaddedRight(v + s, w);
  }

  lemma SegmentsOfField(v: string, f: string, w: string)
    requires AllSpace(v) && AllSpace(w) && Field(f)
    ensures Segments(v + f + w) == [f]
  {
    SegmentsPadded(v, f, w);
    OnePiece(f);
    TrimOfTrimmed(f);
  }

  lemma SegmentsAroundDash(a: string, v: string, w: string, b: string)
    requires AllSpace(v) && AllSpace(w)
    ensures Segments((a + v) + "-" + (w + b)) == Segments(a + "-" + b)
  {
    SegmentsAtDash(a, b);
    SegmentsAtDash(a + v, w + b);
    assert [] + a + v == a + v && w + b + [] == w + b;
    SegmentsPadded([], a, v);
    SegmentsPadded(w, b, []);
  }

  lemma SegmentsOfBlank(v: string)
    requires AllSpace(v)
    ensures Segments(v) == []
  {
    assert v + [] + [] == v;
    SegmentsPadded(v, [], []);
    OnePiece([]);
  }

  lemma SegmentsAroundDashes(a: string, v: string, b: string)
    requires AllSpace(v)
    ensures Segments((a + "-" + v) + "-" + b) == Segments(a + "-" + b)
  {
    SegmentsAtDash(a + "-" + v, b);
    SegmentsAtDash(a, v);
    SegmentsOfBlank(v);
    SegmentsAtDash(a, b);
    assert Segments(a) + [] == Segments(a);
  }

  predicate SeparatorFree(s: string) {
    forall i :: 0 <= i < |s| ==> !Separator(s[i])
  }

  /** A separator in the last part is the last separator. */
  lemma LastSeparator(x: string, b: string)
    requires 0 < PlainSuffix(b)
    ensures PlainSuffix(x + b) == |x| + PlainSuffix(b)
  {
    var f, k := x + b, |x| + PlainSuffix(b);
    assert Separator(f[k - 1]);
    assert forall i :: k <= i < |f| ==> f[i] == b[i - |x|];
    assert PlainSuffix(f) <= k;
  }

  lemma StripLater(x: string, b: string)
    requires 0 < PlainSuffix(b)
    ensures StripExtension(x + b) == x + StripExtension(b)
  {
    LastSeparator(x, b);
    var k := PlainSuffix(b);
    assert (x + b)[|x| + k - 1] == b[k - 1];
    assert (x + b)[..|x| + k - 1] == x + b[..k - 1];
  }

  /** A part without separators is stripped with what precedes it, or not at all. */
  function Stripped(a: string, y: string): string {
    var k := PlainSuffix(a);
    if 0 < k && a[k - 1] == '.' then a[..k - 1] else a + y
  }

  lemma StripEarlier(a: string, y: string)
    requires SeparatorFree(y) && y != ""
    ensures StripExtension(a + y) == Stripped(a, y)
  {
    var f, k := a + y, PlainSuffix(a);
    assert forall i :: |a| <= i < |f| ==> f[i] == y[i - |a|];
    assert forall i :: 0 <= i < |a| ==> f[i] == a[i];
    assert PlainSuffix(f) == k;
    assert 0 < k ==> f[..k - 1] == a[..k - 1];
  }

  lemma PlainMeansFree(b: string)
    requires PlainSuffix(b) == 0
    ensures SeparatorFree(b)
  {
  }

  /** What may stand between two parts without being told apart. */
  ghost predicate SameBetween(x: string, y: string) {
    forall a, b :: Segments(a + x + b) == Segments(a + y + b)
  }

  lemma SwapBetween(a: string, x: string, y: string, b: string)
    requires SeparatorFree(x) && SeparatorFree(y) && x != "" && y != "" && SameBetween(x, y)
    ensures ParseFilename(a + x + b) == ParseFilename(a + y + b)
  {
    if 0 < PlainSuffix(b) {
      StripLater(a + x, b);
      StripLater(a + y, b);
      assert Segments(a + x + StripExtension(b)) == Segments(a + y + StripExtension(b));
    } else {
      PlainMeansFree(b);
      StripEarlier(a, x + b);
      StripEarlier(a, y + b);
      assert a + x + b == a + (x + b) && a + y + b == a + (y + b);
      assert Segments(a + x + b) == Segments(a + y + b);
    }
  }

  lemma SpacesAreSeparatorFree(v: string, w: string)
    requires AllSpace(v) && AllSpace(w)
    ensures SeparatorFree(v + "-" + w) && SeparatorFree("-" + v + "-") && SeparatorFree("-")
  {
  }

  /** Main result: padding a dash, or repeating it, never changes the guess. */
  lemma PaddingIsIgnored(a: string, v: string, w: string, b: string)
    requires AllSpace(v) && AllSpace(w)
    ensures ParseFilename(a + (v + "-" + w) + b) == ParseFilename(a + "-" + b)
    ensures ParseFilename(a + ("-" + v + "-") + b) == ParseFilename(a + "-" + b)
  {
    SpacesAreSeparatorFree(v, w);
    forall c, d
      ensures Segments(c + (v + "-" + w) + d) == Segments(c + "-" + d)
      ensures Segments(c + ("-" + v + "-") + d) == Segments(c + "-" + d)
    {
      SegmentsAroundDash(c, v, w, d);
      SegmentsAroundDashes(c, v, d);
      assert c + (v + "-" + w) + d == (c + v) + "-" + (w + d);
      assert c + ("-" + v + "-") + d == (c + "-" + v) + "-" + d;
    }
    SwapBetween(a, v + "-" + w, "-", b);
    SwapBetween(a, "-" + v + "-", "-", b);
  }

  lemma StemShape(artist: string, album: string, tail: string)
    ensures Stem(artist, album, tail) == (artist + " ") + "-" + ((" " + album + " ") + "-" + (" " + tail))
  {
  }

  lemma SegmentsOfStem(artist: string, album: string, tail: string)
    requires Field(artist) && Field(album) && Field(tail)
    ensures Segments(Stem(artist, album, tail)) == [artist, album, tail]
  {
    StemShape(artist, album, tail);
    SegmentsAtDash(artist + " ", (" " + album + " ") + "-" + (" " + tail));
    SegmentsAtDash(" " + album + " ", " " + tail);
    FieldPadded(artist, album, tail);
  }

  lemma FieldPadded(artist: string, album: string, tail: string)
    requires Field(artist) && Field(album) && Field(tail)
    ensures Segments(artist + " ") == [artist] && Segments(" " + album + " ") == [album] && Segments(" " + tail) == [tail]
  {
    assert "" + artist + " " == artist + " " && " " + tail + "" == " " + tail;
    SegmentsOfField("", artist, " ");
    SegmentsOfField(" ", album, " ");
    SegmentsOfField(" ", tail, "");
  }

  // ---------------------------------------------------------------- numbered titles

  lemma {:induction false} RunOfDigits(ds: string, s: string)
    requires AllDigits(ds) && (s != [] ==> !Digit(s[0]))
    ensures DigitRun(ds + s) == |ds|
  {
    if ds == [] {
      assert ds + s == s;
    } else {
      assert (ds + s)[1..] == ds[1..] + s;
      RunOfDigits(ds[1..], s);
    }
  }

  lemma TailIsAField(ds: string, title: string)
    requires IsNumeric(ds) && Field(title)
    ensures Field(ds + " " + title)
  {
    var s := ds + " " + title;
    assert s[0] == ds[0] && s[|s| - 1] == title[|title| - 1];
    assert forall i :: 0 <= i < |s| ==> s[i] == if i < |ds| then ds[i] else if i == |ds| then ' ' else title[i - |ds| - 1];
  }

  /** A number, a blank and a title are told apart exactly when the title is one line. */
  lemma NumberThenTitle(ds: string, title: string)
    requires IsNumeric(ds) && Field(title)
    ensures NumberedTitle(ds + " " + title) == if OneLine(title) then Some((ds, title)) else None
  {
    var s := ds + " " + title;
    assert s == ds + (" " + title);
    RunOfDigits(ds, " " + title);
    assert s[|ds|..] == " " + title && (" " + title)[1..] == title;
    assert SpaceRun(" " + title) == 1 + SpaceRun(title) == 1;
    assert s[..|ds|] == ds && s[|ds| + 1..] == title;
  }

  ghost predicate RegexMatch(s: string, i: int, j: int) {
    && 0 < i < j < |s|
    && (forall k :: 0 <= k < i ==> Digit(s[k]))
    && (forall k :: i <= k < j ==> Space(s[k]))
    && (forall k :: j <= k < |s| ==> !LineTerminator(s[k]))
  }

  /** The two runs find the match of the regular expression, the greedy one, on a trimmed text. */
  lemma NumberedTitleIsTheRegex(s: string)
    requires Trimmed(s)
    ensures NumberedTitle(s).Some? <==> exists i, j :: RegexMatch(s, i, j)
    ensures NumberedTitle(s).Some? ==>
      var (ds, title) := NumberedTitle(s).value;
      && RegexMatch(s, |ds|, |s| - |title|) && s[..|ds|] == ds && s[|s| - |title|..] == title
      && forall i, j :: RegexMatch(s, i, j) ==> i == |ds| && j <= |s| - |title|
  {
    var d := DigitRun(s);
    var w := SpaceRun(s[d..]);
    assert forall k :: 0 <= k < d ==> s[..d][k] == s[k];
    assert forall k :: 0 <= k < w ==> s[d..][..w][k] == s[d + k];
    assert forall k :: d <= k < d + w ==> s[k] == s[d..][..w][k - d];
    assert d + w < |s| ==> s[d..][w] == s[d + w];
    assert forall k :: d + w <= k < |s| ==> s[k] == s[d + w..][k - d - w];
    if NumberedTitle(s).Some? {
      assert RegexMatch(s, d, d + w);
    }
    forall i, j | RegexMatch(s, i, j)
      ensures i == d && j <= d + w < |s| && OneLine(s[d + w..])
    {
      assert !Digit(s[i]);
    }
  }

  // ---------------------------------------------------------------- round trips

  /** Main result: "artist - album - n title.ext" parses to what it was made of; `ds` may be
      zero-padded. */
  lemma PrintedStemParses(artist: string, album: string, ds: string, title: string, e: string)
    requires Field(artist) && Field(album) && Field(title) && IsNumeric(ds) && Extension(e) && OneLine(title)
    ensures ParseFilename(Stem(artist, album, ds + " " + title) + e)
            == Guess(Some(artist), Some(album), Some(title), Some(Value(ds)), true)
  {
    var tail := ds + " " + title;
    TailIsAField(ds, title);
    StripAppended(Stem(artist, album, tail), e);
    SegmentsOfStem(artist, album, tail);
    NumberThenTitle(ds, title);
    TrimOfTrimmed(title);
  }

  lemma NumericIsAField(ds: string)
    requires IsNumeric(ds)
    ensures Field(ds)
  {
  }

  lemma SegmentsAppend(s: string, f: string)
    requires Field(f)
    ensures Segments(s + "-" + f) == Segments(s) + [f]
  {
    SegmentsAtDash(s, f);
    OnePiece(f);
    TrimOfTrimmed(f);
  }

  lemma SegmentsOfDashed(album: string, nn: string, ds: string, artist: string, title: string)
    requires Field(album) && Field(nn) && Field(ds) && Field(artist) && Field(title)
    ensures Segments(album + "-" + nn + "-" + ds + "-" + artist + "-" + title) == [album, nn, ds, artist, title]
  {
    OnePiece(album);
    TrimOfTrimmed(album);
    SegmentsAppend(album, nn);
    SegmentsAppend(album + "-" + nn, ds);
    SegmentsAppend(album + "-" + nn + "-" + ds, artist);
    SegmentsAppend(album + "-" + nn + "-" + ds + "-" + artist, title);
  }

  /** Main result: "album-NN-n-artist-title.ext" as well, whatever the fields look like. */
  lemma DashedFormParses(album: string, nn: string, ds: string, artist: string, title: string, e: string)
    requires Field(album) && IsNumeric(nn) && IsNumeric(ds) && Field(artist) && Field(title) && Extension(e)
    ensures ParseFilename(album + "-" + nn + "-" + ds + "-" + artist + "-" + title + e)
            == Guess(Some(artist), Some(album), Some(title), Some(Value(ds)), true)
  {
    NumericIsAField(nn);
    NumericIsAField(ds);
    StripAppended(album + "-" + nn + "-" + ds + "-" + artist + "-" + title, e);
    SegmentsOfDashed(album, nn, ds, artist, title);
  }

  /** For every number n. */
  lemma NumbersRoundTrip(artist: string, album: string, n: nat, title: string, nn: string, e: string)
    requires Field(artist) && Field(album) && Field(title) && OneLine(title) && Extension(e) && IsNumeric(nn)
    ensures ParseFilename(Stem(artist, album, Decimal(n) + " " + title) + e)
            == Guess(Some(artist), Some(album), Some(title), Some(n), true)
    ensures ParseFilename(album + "-" + nn + "-" + Decimal(n) + "-" + artist + "-" + title + e)
            == Guess(Some(artist), Some(album), Some(title), Some(n), true)
  {
    DecimalRoundTrip(n);
    PrintedStemParses(artist, album, Decimal(n), title, e);
    DashedFormParses(album, nn, Decimal(n), artist, title, e);
  }

  // ---------------------------------------------------------------- every guess with an album is a fixpoint

  ghost predicate Fields(segments: seq<string>) {
    forall i :: 0 <= i < |segments| ==> Field(segments[i])
  }

  /** `t` is made of characters of `s`. */
  ghost predicate From(t: string, s: string) {
    forall i :: 0 <= i < |t| ==> t[i] in s
  }

  lemma {:induction false} PiecesAreDashFree(s: string)
    ensures forall i :: 0 <= i < |Split(s)| ==> DashFree(Split(s)[i]) && From(Split(s)[i], s)
  {
    if s != [] {
      PiecesAreDashFree(s[1..]);
      var p, r := Split(s), Split(s[1..]);
      assert forall c :: c in s[1..] ==> c in s;
      forall i | 0 <= i < |p|
        ensures DashFree(p[i]) && From(p[i], s)
      {
        assert 0 < i && s[0] != '-' ==> p[i] == r[1..][i - 1] == r[i];
        assert 0 < i && s[0] == '-' ==> p[i] == r[i - 1];
        if i == 0 && s[0] != '-' {
          assert p[0] == [s[0]] + r[0];
        }
      }
    }
  }

  lemma TrimOfDashFree(x: string, s: string)
    requires DashFree(x) && From(x, s)
    ensures Trim(x) == "" || Field(Trim(x))
    ensures From(Trim(x), s)
  {
    var v, w := TrimSplits(x);
    assert forall i :: 0 <= i < |Trim(x)| ==> Trim(x)[i] == x[|v| + i];
  }

  lemma {:induction false} CleanGivesFields(pieces: seq<string>, s: string)
    requires forall i :: 0 <= i < |pieces| ==> DashFree(pieces[i]) && From(pieces[i], s)
    ensures Fields(Clean(pieces)) && forall i :: 0 <= i < |Clean(pieces)| ==> From(Clean(pieces)[i], s)
  {
    if pieces != [] {
      assert forall i :: 0 <= i < |pieces[1..]| ==> pieces[1..][i] == pieces[i + 1];
      CleanGivesFields(pieces[1..], s);
      TrimOfDashFree(pieces[0], s);
      var t, rest := Trim(pieces[0]), Clean(pieces[1..]);
      assert Clean(pieces) == (if t == "" then [] else [t]) + rest;
      assert t != "" ==> forall i :: 0 < i < |Clean(pieces)| ==> Clean(pieces)[i] == rest[i - 1];
    }
  }

  lemma {:induction false} WordsAreFields(segments: seq<string>, s: string)
    requires Fields(segments) && forall i :: 0 <= i < |segments| ==> From(segments[i], s)
    ensures Fields(NonNumeric(segments)) && forall i :: 0 <= i < |NonNumeric(segments)| ==> From(NonNumeric(segments)[i], s)
    ensures |segments| == |Numeric(segments)| + |NonNumeric(segments)|
  {
    if segments != [] {
      assert forall i :: 0 <= i < |segments[1..]| ==> segments[1..][i] == segments[i + 1];
      WordsAreFields(segments[1..], s);
    }
  }

  lemma TitleAfterNumber(s: string, ds: string, title: string)
    requires Field(s) && NumberedTitle(s) == Some((ds, title))
    ensures Field(title) && Trim(title) == title && OneLine(title) && From(title, s) && IsNumeric(ds)
  {
    var d := DigitRun(s);
    var w := SpaceRun(s[d..]);
    assert title == s[d + w..];
    assert forall i :: 0 <= i < |title| ==> title[i] == s[d + w + i];
    assert s[d..][w] == s[d + w];
  }

  ghost predicate FieldsFrom(segments: seq<string>, s: string) {
    Fields(segments) && forall i :: 0 <= i < |segments| ==> From(segments[i], s)
  }

  ghost predicate MadeOfFields(g: Guess, s: string) {
    && g.confident && g.artist.Some? && g.album.Some? && g.title.Some?
    && Field(g.artist.value) && Field(g.album.value) && Field(g.title.value) && From(g.title.value, s)
    && (g.trackNumber.None? ==> NumberedTitle(g.title.value).None?)
  }

  lemma ThreeSegments(segments: seq<string>, s: string)
    requires FieldsFrom(segments, s) && |segments| == 3
    ensures MadeOfFields(ParseSegments(segments), s)
  {
    match NumberedTitle(segments[2])
    case Some((ds, title)) => TitleAfterNumber(segments[2], ds, title);
    case None =>
  }

  lemma OtherSegments(segments: seq<string>, s: string)
    requires FieldsFrom(segments, s) && |segments| != 3 && ParseSegments(segments).album.Some?
    ensures MadeOfFields(ParseSegments(segments), s)
  {
    WordsAreFields(segments, s);
  }

  /** A guess with an album is made of fields, and without a number its title has none to offer. */
  lemma GuessesAreFields(f: string)
    requires ParseFilename(f).album.Some?
    ensures MadeOfFields(ParseFilename(f), f)
  {
    var stem := StripExtension(f);
    PiecesAreDashFree(stem);
    CleanGivesFields(Split(stem), stem);
    if |Segments(stem)| == 3 {
      ThreeSegments(Segments(stem), stem);
    } else {
      OtherSegments(Segments(stem), stem);
    }
    assert From(stem, f);
  }

  /** Main result: printing a guess with an album and parsing it again gives the same guess
      exactly when it has no number or its title is one line. */
  lemma FixpointExactlyWhen(f: string, e: string)
    requires ParseFilename(f).album.Some? && Extension(e)
    ensures ParseFilename(f).artist.Some? && ParseFilename(f).title.Some?
    ensures var g := ParseFilename(f);
      ParseFilename(Print(g, e)) == g <==> (g.trackNumber.Some? ==> OneLine(g.title.value))
  {
    GuessesAreFields(f);
    var g := ParseFilename(f);
    var artist, album, title := g.artist.value, g.album.value, g.title.value;
    var tail := if g.trackNumber.Some? then Decimal(g.trackNumber.value) + " " + title else title;
    if g.trackNumber.Some? {
      DecimalRoundTrip(g.trackNumber.value);
      TailIsAField(Decimal(g.trackNumber.value), title);
      NumberThenTitle(Decimal(g.trackNumber.value), title);
      TrimOfTrimmed(title);
    }
    StripAppended(Stem(artist, album, tail), e);
    SegmentsOfStem(artist, album, tail);
  }

  /** In particular for every filename that is one line. */
  lemma OneLineFixpoint(f: string, e: string)
    requires ParseFilename(f).album.Some? && Extension(e) && OneLine(f)
    ensures ParseFilename(f).artist.Some? && ParseFilename(f).title.Some?
    ensures ParseFilename(Print(ParseFilename(f), e)) == ParseFilename(f)
  {
    GuessesAreFields(f);
    var title := ParseFilename(f).title.value;
    forall i | 0 <= i < |title|
      ensures !LineTerminator(title[i])
    {
      assert title[i] in f;
      var k :| 0 <= k < |f| && f[k] == title[i];
    }
    FixpointExactlyWhen(f, e);
  }

  /** The segment the title of a guess with an album is taken from. */
  function TitleSegment(segments: seq<string>): Option<string> {
    if |segments| == 5 && IsNumeric(segments[1]) && IsNumeric(segments[2]) then Some(segments[4])
    else if NonNumeric(segments) != [] then Some(NonNumeric(segments)[|NonNumeric(segments)| - 1])
    else None
  }

  /** Main result, on the filename alone: with exactly three segments the guess is always a
      fixpoint, and otherwise exactly when the segment that gives the title is one line. */
  lemma FixpointBySegments(f: string, e: string)
    requires ParseFilename(f).album.Some? && Extension(e)
    ensures ParseFilename(f).artist.Some? && ParseFilename(f).title.Some?
    ensures var segments := Segments(StripExtension(f));
      ParseFilename(Print(ParseFilename(f), e)) == ParseFilename(f) <==>
        |segments| == 3 || (TitleSegment(segments).Some? && OneLine(TitleSegment(segments).value))
  {
    var stem := StripExtension(f);
    FixpointExactlyWhen(f, e);
    PiecesAreDashFree(stem);
    CleanGivesFields(Split(stem), stem);
    TitlesOfGuesses(Segments(stem), stem);
  }

  lemma TitlesOfGuesses(segments: seq<string>, s: string)
    requires FieldsFrom(segments, s) && ParseSegments(segments).album.Some?
    ensures var g := ParseSegments(segments);
      && g.title.Some?
      && (|segments| == 3 && g.trackNumber.Some? ==> OneLine(g.title.value))
      && (|segments| != 3 ==> g.trackNumber.Some? && TitleSegment(segments) == g.title)
  {
    if |segments| == 3 {
      match NumberedTitle(segments[2])
      case Some((ds, title)) => TitleAfterNumber(segments[2], ds, title);
      case None =>
    } else {
      WordsAreFields(segments, s);
    }
  }

  const BROKEN_TITLE := "Ti\ntle"

  lemma SmallFields()
    ensures Field("Al") && Field("Ar") && Field(BROKEN_TITLE) && IsNumeric("01") && IsNumeric("1") && Extension(".mp3")
    ensures Value("1") == 1 && !OneLine(BROKEN_TITLE)
  {
    assert "1"[..0] == "" && Value("") == 0;
    assert BROKEN_TITLE[2] == '\n';
  }

  /** So there is a filename whose guess does not survive: its title has a line break. */
  lemma LineBreakIsLost()
    ensures var f := "Al" + "-" + "01" + "-" + "1" + "-" + "Ar" + "-" + "Ti\ntle" + ".mp3";
      && ParseFilename(f) == Guess(Some("Ar"), Some("Al"), Some("Ti\ntle"), Some(1), true)
      && ParseFilename(Print(ParseFilename(f), ".mp3")) != ParseFilename(f)
  {
    SmallFields();
    DashedFormParses("Al", "01", "1", "Ar", BROKEN_TITLE, ".mp3");
    FixpointExactlyWhen("Al" + "-" + "01" + "-" + "1" + "-" + "Ar" + "-" + BROKEN_TITLE + ".mp3", ".mp3");
  }

  // ---------------------------------------------------------------- what every filename gives

  /** The code points of ECMAScript's WhiteSpace and LineTerminator. */
  lemma SpacesAre(c: char)
    ensures Space(c) <==> c as int in {
      0x09, 0x0A, 0x0B, 0x0C, 0x0D, 0x20, 0xA0, 0x1680, 0x2000, 0x2001, 0x2002, 0x2003, 0x2004, 0x2005, 0x2006,
      0x2007, 0x2008, 0x2009, 0x200A, 0x2028, 0x2029, 0x202F, 0x205F, 0x3000, 0xFEFF}
    ensures LineTerminator(c) <==> c as int in {0x0A, 0x0D, 0x2028, 0x2029}
  {
  }

  /** A match of /\.[^.\/\\]+$/ at `i`. */
  ghost predicate ExtensionAt(f: string, i: int) {
    0 <= i < |f| - 1 && f[i] == '.' && forall k :: i < k < |f| ==> f[k] != '.' && f[k] != '/' && f[k] != '\\'
  }

  /** Main result: what is removed is the match, if there is one. */
  lemma StripsTheExtension(f: string)
    ensures forall i :: ExtensionAt(f, i) ==> StripExtension(f) == f[..i]
    ensures (forall i :: !ExtensionAt(f, i)) ==> StripExtension(f) == f
  {
    var k := PlainSuffix(f);
    forall i | ExtensionAt(f, i)
      ensures i == k - 1
    {
      assert Separator(f[i]);
    }
    assert 0 < k < |f| && f[k - 1] == '.' ==> ExtensionAt(f, k - 1);
  }

  lemma {:induction false} LeadingZero(ds: string)
    requires AllDigits(ds)
    ensures AllDigits("0" + ds) && Value("0" + ds) == Value(ds)
    decreases |ds|
  {
    var s := "0" + ds;
    if ds == [] {
      assert s[..0] == [];
    } else {
      LeadingZero(ds[..|ds| - 1]);
      assert s[..|s| - 1] == "0" + ds[..|ds| - 1];
    }
  }

  /** Segments with a dash between any two. */
  function Join(segments: seq<string>): string {
    if segments == [] then ""
    else if |segments| == 1 then segments[0]
    else Join(segments[..|segments| - 1]) + "-" + segments[|segments| - 1]
  }

  lemma {:induction false} SegmentsOfJoin(segments: seq<string>)
    requires Fields(segments)
    ensures Segments(Join(segments)) == segments
    decreases |segments|
  {
    if segments == [] {
      SegmentsOfBlank("");
    } else {
      var front, last := segments[..|segments| - 1], segments[|segments| - 1];
      assert segments == front + [last];
      if |segments| == 1 {
        OnePiece(last);
        TrimOfTrimmed(last);
      } else {
        SegmentsOfJoin(front);
        SegmentsAppend(Join(front), last);
      }
    }
  }

  /** A third segment that is not a number and a title. */
  ghost predicate Unnumbered(s: string) {
    forall i, j :: !RegexMatch(s, i, j)
  }

  /** Main result: "artist - album - title.ext" without a track number, whatever the fields look like. */
  lemma UnnumberedStemParses(artist: string, album: string, title: string, e: string)
    requires Field(artist) && Field(album) && Field(title) && Unnumbered(title) && Extension(e)
    ensures ParseFilename(Stem(artist, album, title) + e) == Guess(Some(artist), Some(album), Some(title), None, true)
  {
    StripAppended(Stem(artist, album, title), e);
    SegmentsOfStem(artist, album, title);
    NumberedTitleIsTheRegex(title);
  }

  ghost predicate Numbers(segments: seq<string>) {
    forall i :: 0 <= i < |segments| ==> IsNumeric(segments[i])
  }

  lemma {:induction false} SplitByKind(a: seq<string>, b: seq<string>)
    ensures Numeric(a + b) == Numeric(a) + Numeric(b) && NonNumeric(a + b) == NonNumeric(a) + NonNumeric(b)
  {
    if a == [] {
      assert a + b == b;
    } else {
      assert (a + b)[1..] == a[1..] + b;
      SplitByKind(a[1..], b);
    }
  }

  lemma {:induction false} KindOfNumbers(ns: seq<string>)
    requires Numbers(ns)
    ensures Numeric(ns) == ns && NonNumeric(ns) == []
  {
    if ns != [] {
      assert forall i :: 0 <= i < |ns[1..]| ==> ns[1..][i] == ns[i + 1];
      KindOfNumbers(ns[1..]);
    }
  }

  /** Segments made of fields, with these numbers and these words among them. */
  ghost predicate Kinds(segments: seq<string>, numbers: seq<string>, words: seq<string>) {
    && Fields(segments)
    && Numeric(segments) == numbers && NonNumeric(segments) == words
    && |segments| == |numbers| + |words|
  }

  lemma NumbersAlone(ns: seq<string>)
    requires Numbers(ns)
    ensures Kinds(ns, ns, [])
  {
    KindOfNumbers(ns);
    forall i | 0 <= i < |ns|
      ensures Field(ns[i])
    {
      NumericIsAField(ns[i]);
    }
  }

  lemma WordAlone(word: string)
    requires Field(word) && !IsNumeric(word)
    ensures Kinds([word], [], [word])
  {
    assert [word][1..] == [];
  }

  lemma KindsOfBoth(a: seq<string>, na: seq<string>, wa: seq<string>, b: seq<string>, nb: seq<string>, wb: seq<string>)
    requires Kinds(a, na, wa) && Kinds(b, nb, wb)
    ensures Kinds(a + b, na + nb, wa + wb)
  {
    SplitByKind(a, b);
  }

  /** Numbers, a word, and what follows. */
  lemma NumbersThenWord(ns: seq<string>, word: string, rest: seq<string>, numbers: seq<string>, words: seq<string>)
    requires Numbers(ns) && Field(word) && !IsNumeric(word) && Kinds(rest, numbers, words)
    ensures Kinds(ns + [word] + rest, ns + numbers, [word] + words)
  {
    NumbersAlone(ns);
    WordAlone(word);
    KindsOfBoth(ns, ns, [], [word], [], [word]);
    NoneAdded(ns, [word]);
    KindsOfBoth(ns + [word], ns, [word], rest, numbers, words);
  }

  lemma NoneAdded(ns: seq<string>, ws: seq<string>)
    ensures ns + [] == ns && [] + ws == ws
  {
  }

  lemma TwoKinds(x: seq<string>, a: string, y: seq<string>, t: string, z: seq<string>)
    requires Numbers(x) && Numbers(y) && Numbers(z) && Field(a) && Field(t) && !IsNumeric(a) && !IsNumeric(t)
    ensures Kinds(x + [a] + (y + [t] + z), x + (y + z), [a] + ([t] + []))
  {
    NumbersAlone(z);
    NumbersThenWord(y, t, z, z, []);
    NumbersThenWord(x, a, y + [t] + z, y + z, [t] + []);
  }

  lemma ThreeKinds(x: seq<string>, a: string, y: seq<string>, b: string, z: seq<string>, t: string, w: seq<string>)
    requires Numbers(x) && Numbers(y) && Numbers(z) && Numbers(w)
    requires Field(a) && Field(b) && Field(t) && !IsNumeric(a) && !IsNumeric(b) && !IsNumeric(t)
    ensures Kinds(x + [a] + (y + [b] + (z + [t] + w)), x + (y + (z + w)), [a] + ([b] + ([t] + [])))
  {
    TwoKinds(y, b, z, t, w);
    NumbersThenWord(x, a, y + [b] + (z + [t] + w), y + (z + w), [b] + ([t] + []));
  }

  function FirstNumber(ns: seq<string>): Option<nat>
    requires Numbers(ns)
  {
    if ns == [] then None else Some(Value(ns[0]))
  }

  predicate FiveForm(segments: seq<string>) {
    |segments| == 5 && IsNumeric(segments[1]) && IsNumeric(segments[2])
  }

  lemma FilenameOf(segments: seq<string>, e: string)
    requires Fields(segments) && Extension(e)
    ensures ParseFilename(Join(segments) + e) == ParseSegments(segments)
  {
    StripAppended(Join(segments), e);
    SegmentsOfJoin(segments);
  }

  lemma TwoWords(segments: seq<string>, numbers: seq<string>, a: string, t: string)
    requires Kinds(segments, numbers, [a] + ([t] + [])) && |numbers| != 1 && !FiveForm(segments) && Numbers(numbers)
    ensures ParseSegments(segments) == Guess(Some(a), None, Some(t), FirstNumber(numbers), true)
  {
    assert [a] + ([t] + []) == [a, t];
  }

  lemma ThreeWords(segments: seq<string>, numbers: seq<string>, a: string, b: string, t: string)
    requires Kinds(segments, numbers, [a] + ([b] + ([t] + []))) && |numbers| != 0 && !FiveForm(segments) && Numbers(numbers)
    ensures ParseSegments(segments) == Guess(Some(a), Some(b), Some(t), FirstNumber(numbers), true)
  {
    assert [a] + ([b] + ([t] + [])) == [a, b, t];
  }

  /** Main result: among any numbers two words are artist and title, in that order, and the first
      number is the track's, unless the segments have one of the two special forms. */
  lemma TwoWordsAmongNumbers(x: seq<string>, artist: string, y: seq<string>, title: string, z: seq<string>, e: string)
    requires Numbers(x) && Numbers(y) && Numbers(z) && !IsNumeric(artist) && !IsNumeric(title)
    requires Field(artist) && Field(title) && Extension(e)
    requires |x + (y + z)| != 1 && !FiveForm(x + [artist] + (y + [title] + z))
    ensures ParseFilename(Join(x + [artist] + (y + [title] + z)) + e)
            == Guess(Some(artist), None, Some(title), FirstNumber(x + (y + z)), true)
  {
    TwoKinds(x, artist, y, title, z);
    TwoWords(x + [artist] + (y + [title] + z), x + (y + z), artist, title);
    FilenameOf(x + [artist] + (y + [title] + z), e);
  }

  /** Main result: among any numbers three words are artist, album and title, in that order, and the
      first number is the track's. */
  lemma ThreeWordsAmongNumbers(x: seq<string>, artist: string, y: seq<string>, album: string, z: seq<string>, title: string,
                               w: seq<string>, e: string)
    requires Numbers(x) && Numbers(y) && Numbers(z) && Numbers(w)
    requires !IsNumeric(artist) && !IsNumeric(album) && !IsNumeric(title)
    requires Field(artist) && Field(album) && Field(title) && Extension(e)
    requires |x + (y + (z + w))| != 0 && !FiveForm(x + [artist] + (y + [album] + (z + [title] + w)))
    ensures ParseFilename(Join(x + [artist] + (y + [album] + (z + [title] + w))) + e)
            == Guess(Some(artist), Some(album), Some(title), FirstNumber(x + (y + (z + w))), true)
  {
    var segments := x + [artist] + (y + [album] + (z + [title] + w));
    ThreeKinds(x, artist, y, album, z, title, w);
    ThreeWords(segments, x + (y + (z + w)), artist, album, title);
    FilenameOf(segments, e);
  }

  lemma JoinOfTwo(a: string, b: string)
    ensures Join([a, b]) == a + "-" + b
  {
    assert [a, b][..1] == [a];
  }

  lemma JustTwo(a: string, t: string)
    requires Field(a) && Field(t) && !IsNumeric(a) && !IsNumeric(t)
    ensures Kinds([a, t], [], [a] + ([t] + []))
  {
    WordAlone(a);
    WordAlone(t);
    KindsOfBoth([a], [], [a], [t], [], [t]);
  }

  lemma Regrouped(a: string, b: string, c: string, d: string)
    ensures a + b + (c + d) == (a + b + c) + d
  {
  }

  lemma BareArtistAndTitle(artist: string, title: string, e: string)
    requires Field(artist) && Field(title) && !IsNumeric(artist) && !IsNumeric(title) && Extension(e)
    ensures ParseFilename((artist + "-" + title) + e) == Guess(Some(artist), None, Some(title), None, true)
  {
    JustTwo(artist, title);
    TwoWords([artist, title], [], artist, title);
    JoinOfTwo(artist, title);
    FilenameOf([artist, title], e);
  }

  /** Main result: "artist - title.ext", with or without spaces around the dash. */
  lemma ArtistAndTitleParse(artist: string, v: string, w: string, title: string, e: string)
    requires Field(artist) && Field(title) && !IsNumeric(artist) && !IsNumeric(title)
    requires AllSpace(v) && AllSpace(w) && Extension(e)
    ensures ParseFilename(artist + (v + "-" + w) + (title + e)) == Guess(Some(artist), None, Some(title), None, true)
  {
    PaddingIsIgnored(artist, v, w, title + e);
    Regrouped(artist, "-", title, e);
    BareArtistAndTitle(artist, title, e);
  }

  /** Where the words are. */
  ghost function Words(segments: seq<string>): set<int> {
    set i | 0 <= i < |segments| && !IsNumeric(segments[i])
  }

  lemma {:induction false} WordsCounted(segments: seq<string>)
    ensures |Words(segments)| == |NonNumeric(segments)|
    decreases |segments|
  {
    if segments == [] {
      assert Words(segments) == {};
    } else {
      var front, last := segments[..|segments| - 1], segments[|segments| - 1];
      assert segments == front + [last];
      WordsCounted(front);
      SplitByKind(front, [last]);
      assert [last][1..] == [];
      assert Words(segments) == Words(front) + if IsNumeric(last) then {} else {|front|};
    }
  }

  /** Main result: there is no guess exactly when the segments have neither special form nor two or
      three words, and a guess is confident exactly when there is one. */
  lemma NoGuessExactlyWhen(f: string)
    ensures var segments := Segments(StripExtension(f));
      ParseFilename(f) == NO_GUESS <==> |segments| != 3 && !FiveForm(segments) && |Words(segments)| != 2 && |Words(segments)| != 3
    ensures ParseFilename(f).confident <==> ParseFilename(f) != NO_GUESS
    ensures NO_GUESS == Guess(None, None, None, None, false)
  {
    WordsCounted(Segments(StripExtension(f)));
  }
}
