/** The album views of server/internal/store/albums.go, over the rows of one user in the
    order the table yields them. */
module Albums {
  import opened Sequences
  import opened Tables
  import opened Order

  datatype Key = Key(album: string, artist: string)

  datatype AlbumSummary = AlbumSummary(
    album: string,
    artist: string,
    trackCount: nat,
    representative: int,
    hasArtwork: bool)

  function KeyOf(r: Row): Key {
    Key(r.track.album, r.track.albumArtist)
  }

  predicate HasArt(r: Row) {
    r.track.artworkExt.Some?
  }

  predicate KeyLe(a: Key, b: Key) {
    StringLe(a.album, b.album) && (a.album == b.album ==> StringLe(a.artist, b.artist))
  }

  /** track_number NULLS LAST, title */
  predicate TrackLe(a: Row, b: Row) {
    match (a.track.trackNumber, b.track.trackNumber)
    case (Some(m), Some(n)) => m < n || (m == n && StringLe(a.track.title, b.track.title))
    case (Some(_), None) => true
    case (None, Some(_)) => false
    case (None, None) => StringLe(a.track.title, b.track.title)
  }

  // ---------------------------------------------------------------- ListAlbums

  function Group(rows: seq<Row>, k: Key): seq<Row> {
    if rows == [] then [] else (if KeyOf(rows[0]) == k then [rows[0]] else []) + Group(rows[1..], k)
  }

  /** GROUP BY album, album_artist */
  function Keys(rows: seq<Row>): (ks: seq<Key>)
    ensures forall k :: k in ks <==> exists r :: r in rows && KeyOf(r) == k
    ensures NoDup(ks)
  {
    if rows == [] then []
    else
      var rest := Keys(rows[1..]);
      assert forall r :: r in rows <==> r == rows[0] || r in rows[1..];
      if KeyOf(rows[0]) in rest then rest else [KeyOf(rows[0])] + rest
  }

  /** (ARRAY_AGG(id ORDER BY (artwork_ext IS NOT NULL) DESC, id))[1] */
  function Representative(group: seq<Row>): (r: Row)
    requires group != []
    ensures r in group
    ensures (exists g :: g in group && HasArt(g)) ==> HasArt(r)
    ensures forall g :: g in group && (HasArt(g) || !HasArt(r)) ==> r.id <= g.id
  {
    if |group| == 1 then group[0]
    else
      var best := Representative(group[1..]);
      assert forall g :: g in group <==> g == group[0] || g in group[1..];
      if HasArt(group[0]) == HasArt(best) then (if group[0].id < best.id then group[0] else best)
      else if HasArt(group[0]) then group[0]
      else best
  }

  /** BOOL_OR(artwork_ext IS NOT NULL) */
  predicate AnyArt(group: seq<Row>) {
    group != [] && (HasArt(group[0]) || AnyArt(group[1..]))
  }

  function Summary(rows: seq<Row>, k: Key): AlbumSummary
    requires Group(rows, k) != []
  {
    var g := Group(rows, k);
    AlbumSummary(k.album, k.artist, |g|, Representative(g).id, AnyArt(g))
  }

  function ListAlbums(rows: seq<Row>): (albums: seq<AlbumSummary>)
    ensures |albums| == |Keys(rows)|
  {
    KeysAreGroups(rows, Sort(KeyLe, Keys(rows)));
    SameElements(Sort(KeyLe, Keys(rows)), Keys(rows));
    Summaries(rows, Sort(KeyLe, Keys(rows)))
  }

  function Summaries(rows: seq<Row>, ks: seq<Key>): (albums: seq<AlbumSummary>)
    requires forall k :: k in ks ==> Group(rows, k) != []
    ensures |albums| == |ks|
    ensures forall i :: 0 <= i < |ks| ==> albums[i] == Summary(rows, ks[i])
  {
    if ks == [] then [] else [Summary(rows, ks[0])] + Summaries(rows, ks[1..])
  }

  lemma SummariesStep(rows: seq<Row>, ks: seq<Key>, before: seq<AlbumSummary>)
    requires ks != [] && forall k :: k in ks ==> Group(rows, k) != []
    ensures before + Summaries(rows, ks) == (before + [Summary(rows, ks[0])]) + Summaries(rows, ks[1..])
  {
    var first, rest := [Summary(rows, ks[0])], Summaries(rows, ks[1..]);
    assert Summaries(rows, ks) == first + rest;
    assert before + (first + rest) == (before + first) + rest;
  }

  /** One summary per row of the grouped query. */
  method ReadAlbums(rows: seq<Row>) returns (albums: seq<AlbumSummary>)
    ensures albums == ListAlbums(rows)
  {
    var keys := Sort(KeyLe, Keys(rows));
    KeysAreGroups(rows, keys);
    albums := ReadSummaries(rows, keys);
  }

  method ReadSummaries(rows: seq<Row>, keys: seq<Key>) returns (albums: seq<AlbumSummary>)
    requires forall k :: k in keys ==> Group(rows, k) != []
    ensures albums == Summaries(rows, keys)
  {
    albums := [];
    var left := keys;
    while left != []
      invariant forall k :: k in left ==> Group(rows, k) != []
      invariant Summaries(rows, keys) == albums + Summaries(rows, left)
      decreases |left|
    {
      SummariesStep(rows, left, albums);
      albums, left := albums + [Summary(rows, left[0])], left[1..];
    }
    assert albums + [] == albums;
  }

  lemma {:induction false} GroupMembers(rows: seq<Row>, k: Key)
    ensures forall r :: r in Group(rows, k) <==> r in rows && KeyOf(r) == k
  {
    if rows != [] {
      GroupMembers(rows[1..], k);
      assert forall r :: r in rows <==> r == rows[0] || r in rows[1..];
    }
  }

  lemma KeysAreGroups(rows: seq<Row>, ks: seq<Key>)
    requires multiset(ks) == multiset(Keys(rows))
    ensures forall k :: k in ks ==> Group(rows, k) != []
  {
    SameElements(ks, Keys(rows));
    forall k | k in ks
      ensures Group(rows, k) != []
    {
      GroupMembers(rows, k);
      var r :| r in rows && KeyOf(r) == k;
      assert r in Group(rows, k);
    }
  }

  // ---------------------------------------------------------------- ListTracksByAlbum

  /** album = $2 AND ($3 = '' OR album_artist = $3) */
  predicate InAlbum(r: Row, album: string, artist: string) {
    r.track.album == album && (artist == "" || r.track.albumArtist == artist)
  }

  function Select(rows: seq<Row>, album: string, artist: string): seq<Row> {
    if rows == [] then []
    else (if InAlbum(rows[0], album, artist) then [rows[0]] else []) + Select(rows[1..], album, artist)
  }

  function ListTracksByAlbum(rows: seq<Row>, album: string, artist: string): seq<Row> {
    Sort(TrackLe, Select(rows, album, artist))
  }

  lemma SelectSnoc(rows: seq<Row>, i: nat, album: string, artist: string)
    requires i < |rows|
    ensures Select(rows[..i + 1], album, artist) ==
            Select(rows[..i], album, artist) + if InAlbum(rows[i], album, artist) then [rows[i]] else []
    decreases i
  {
    if i == 0 {
      assert rows[..1] == [rows[0]] && rows[..1][1..] == [];
    } else {
      SelectSnoc(rows[1..], i - 1, album, artist);
      assert rows[..i + 1][1..] == rows[1..][..i] && rows[..i][1..] == rows[1..][..i - 1];
    }
  }

  method ReadTracksByAlbum(rows: seq<Row>, album: string, artist: string) returns (tracks: seq<Row>)
    ensures tracks == ListTracksByAlbum(rows, album, artist)
  {
    tracks := [];
    for i := 0 to |rows|
      invariant tracks == Select(rows[..i], album, artist)
    {
      SelectSnoc(rows, i, album, artist);
      if InAlbum(rows[i], album, artist) {
        tracks := tracks + [rows[i]];
      }
    }
    assert rows[..|rows|] == rows;
    tracks := Sort(TrackLe, tracks);
  }

  lemma {:induction false} SelectCounts(rows: seq<Row>, album: string, artist: string, r: Row)
    ensures multiset(Select(rows, album, artist))[r] == if InAlbum(r, album, artist) then multiset(rows)[r] else 0
  {
    if rows != [] {
      SelectCounts(rows[1..], album, artist, r);
      assert rows == [rows[0]] + rows[1..];
      assert multiset(rows)[r] == multiset([rows[0]])[r] + multiset(rows[1..])[r];
    }
  }

  lemma TrackOrder()
    ensures TotalPreorder(TrackLe)
  {
    StringOrder();
  }

  lemma KeyOrder()
    ensures TotalPreorder(KeyLe)
  {
    StringOrder();
    forall a: Key, b: Key
      ensures KeyLe(a, b) || KeyLe(b, a)
    {
      assert StringLe(a.album, b.album) || StringLe(b.album, a.album);
      assert StringLe(a.artist, b.artist) || StringLe(b.artist, a.artist);
    }
    forall a: Key, b: Key, c: Key | KeyLe(a, b) && KeyLe(b, c)
      ensures KeyLe(a, c)
    {
      assert StringLe(a.album, c.album);
      if a.album == c.album {
        StringLeAntisymmetric(a.album, b.album);
        assert StringLe(a.artist, c.artist);
      }
    }
  }

  lemma AlbumsInOrder(rows: seq<Row>, i: nat, j: nat)
    requires i < j < |ListAlbums(rows)|
    ensures var a, b := ListAlbums(rows)[i], ListAlbums(rows)[j];
      KeyLe(Key(a.album, a.artist), Key(b.album, b.artist)) && (a.album, a.artist) != (b.album, b.artist)
  {
    KeyOrder();
    var ks := Sort(KeyLe, Keys(rows));
    SortSorts(KeyLe, Keys(rows));
    KeysAreGroups(rows, ks);
    SamePermutationNoDup(Keys(rows), ks);
    assert KeyLe(ks[i], ks[j]) && ks[i] != ks[j];
    assert ListAlbums(rows)[i] == Summary(rows, ks[i]) && ListAlbums(rows)[j] == Summary(rows, ks[j]);
  }

  /** Main result: summaries come by title, then artist, no two alike. */
  lemma AlbumsAreSorted(rows: seq<Row>, i: nat, j: nat)
    requires i < j < |ListAlbums(rows)|
    ensures var a, b := ListAlbums(rows)[i], ListAlbums(rows)[j];
      LexBefore(a.album, b.album) || (a.album == b.album && LexBefore(a.artist, b.artist))
  {
    var a, b := ListAlbums(rows)[i], ListAlbums(rows)[j];
    AlbumsInOrder(rows, i, j);
    StringLeIsLexicographic(a.album, b.album);
    StringLeIsLexicographic(a.artist, b.artist);
  }

  /** Main result: an album's tracks with a number come first, in its order, and ties and tracks
      without one by title. */
  lemma ListingsAreSorted(rows: seq<Row>, album: string, artist: string, i: nat, j: nat)
    requires i < j < |ListTracksByAlbum(rows, album, artist)|
    ensures var a, b := ListTracksByAlbum(rows, album, artist)[i].track, ListTracksByAlbum(rows, album, artist)[j].track;
      && (b.trackNumber.Some? ==> a.trackNumber.Some? && a.trackNumber.value <= b.trackNumber.value)
      && (a.trackNumber == b.trackNumber ==> NotAfter(a.title, b.title))
  {
    TrackOrder();
    SortSorts(TrackLe, Select(rows, album, artist));
    var a, b := ListTracksByAlbum(rows, album, artist)[i], ListTracksByAlbum(rows, album, artist)[j];
    assert TrackLe(a, b);
    StringLeIsLexicographic(a.track.title, b.track.title);
  }

  /** Main result: the tracks of the album by that artist, or by any if none is given, each as often
      as it is there. */
  lemma ListingIsTheAlbum(rows: seq<Row>, album: string, artist: string, r: Row)
    ensures multiset(ListTracksByAlbum(rows, album, artist))[r] ==
            if r.track.album == album && (artist == "" || r.track.albumArtist == artist) then multiset(rows)[r] else 0
  {
    SelectCounts(rows, album, artist, r);
  }

  // ---------------------------------------------------------------- the partition

  /** The track lists of all summaries, end to end. */
  function AllListings(rows: seq<Row>, albums: seq<AlbumSummary>): seq<Row> {
    if albums == [] then []
    else ListTracksByAlbum(rows, albums[0].album, albums[0].artist) + AllListings(rows, albums[1..])
  }

  /** No album has both rows with a blank album artist and rows with another one. */
  ghost predicate NoBlankMix(rows: seq<Row>) {
    forall r, s :: r in rows && s in rows && r.track.album == s.track.album && r.track.albumArtist == ""
                   ==> s.track.albumArtist == ""
  }

  /** How often the keys list row `r`, if each that does lists it `n` times. */
  function Listed(ks: seq<Key>, r: Row, n: nat): nat {
    if ks == [] then 0 else (if InAlbum(r, ks[0].album, ks[0].artist) then n else 0) + Listed(ks[1..], r, n)
  }

  lemma {:induction false} ListedIs(ks: seq<Key>, r: Row, n: nat)
    requires NoDup(ks)
    ensures Listed(ks, r, n) == (if KeyOf(r) in ks then n else 0)
                                + if r.track.albumArtist != "" && Key(r.track.album, "") in ks then n else 0
  {
    if ks != [] {
      assert forall i :: 0 <= i < |ks[1..]| ==> ks[1..][i] == ks[i + 1];
      ListedIs(ks[1..], r, n);
      assert forall k :: k in ks <==> k == ks[0] || k in ks[1..];
      assert ks[0] !in ks[1..];
    }
  }

  lemma ListingCounts(rows: seq<Row>, k: Key, r: Row)
    ensures multiset(ListTracksByAlbum(rows, k.album, k.artist))[r] == if InAlbum(r, k.album, k.artist) then multiset(rows)[r] else 0
  {
    SelectCounts(rows, k.album, k.artist, r);
  }

  lemma ListingsStep(rows: seq<Row>, ks: seq<Key>)
    requires ks != [] && forall k :: k in ks ==> Group(rows, k) != []
    ensures AllListings(rows, Summaries(rows, ks)) ==
            ListTracksByAlbum(rows, ks[0].album, ks[0].artist) + AllListings(rows, Summaries(rows, ks[1..]))
  {
    assert Summaries(rows, ks)[1..] == Summaries(rows, ks[1..]);
  }

  lemma {:induction false} AllListingsCount(rows: seq<Row>, ks: seq<Key>, r: Row)
    requires forall k :: k in ks ==> Group(rows, k) != []
    ensures multiset(AllListings(rows, Summaries(rows, ks)))[r] == Listed(ks, r, multiset(rows)[r])
  {
    if ks != [] {
      AllListingsCount(rows, ks[1..], r);
      ListingsStep(rows, ks);
      ListingCounts(rows, ks[0], r);
      ConcatCounts(ListTracksByAlbum(rows, ks[0].album, ks[0].artist), AllListings(rows, Summaries(rows, ks[1..])), r);
    }
  }

  /** Some row of the album has a blank album artist, and `r` is not such a row. */
  ghost predicate ShownTwice(rows: seq<Row>, r: Row) {
    r.track.albumArtist != "" && Key(r.track.album, "") in Keys(rows)
  }

  lemma ListingsOf(rows: seq<Row>, r: Row)
    ensures multiset(AllListings(rows, ListAlbums(rows)))[r] == multiset(rows)[r] + if ShownTwice(rows, r) then multiset(rows)[r] else 0
  {
    var ks := Sort(KeyLe, Keys(rows));
    KeysAreGroups(rows, ks);
    SamePermutationNoDup(Keys(rows), ks);
    SameElements(ks, Keys(rows));
    AllListingsCount(rows, ks, r);
    ListedIs(ks, r, multiset(rows)[r]);
    if r in rows {
      assert KeyOf(r) in Keys(rows);
    } else {
      assert multiset(rows)[r] == 0;
    }
  }

  lemma PartitionFromCounts(rows: seq<Row>, all: seq<Row>)
    requires forall r :: multiset(all)[r] == multiset(rows)[r] + if ShownTwice(rows, r) then multiset(rows)[r] else 0
    ensures multiset(all) == multiset(rows) <==> NoBlankMix(rows)
  {
    if NoBlankMix(rows) {
      forall r | r in rows
        ensures !ShownTwice(rows, r)
      {
      }
    }
    if multiset(all) == multiset(rows) {
      forall r, s | r in rows && s in rows && r.track.album == s.track.album && r.track.albumArtist == ""
        ensures s.track.albumArtist == ""
      {
        assert KeyOf(r) == Key(s.track.album, "") && KeyOf(r) in Keys(rows);
        assert 1 <= multiset(rows)[s];
        assert !ShownTwice(rows, s);
      }
    }
  }

  /** Main result: the track lists of the summaries partition the user's tracks exactly when
      no album mixes blank and non-blank album artists; a blank one is a wildcard. */
  lemma PartitionExactlyWhen(rows: seq<Row>)
    ensures multiset(AllListings(rows, ListAlbums(rows))) == multiset(rows) <==> NoBlankMix(rows)
  {
    forall r
      ensures multiset(AllListings(rows, ListAlbums(rows)))[r] == multiset(rows)[r] + if ShownTwice(rows, r) then multiset(rows)[r] else 0
    {
      ListingsOf(rows, r);
    }
    PartitionFromCounts(rows, AllListings(rows, ListAlbums(rows)));
  }

  // ---------------------------------------------------------------- the summaries

  lemma {:induction false} AnyArtIs(group: seq<Row>)
    ensures AnyArt(group) <==> exists g :: g in group && HasArt(g)
  {
    if group != [] {
      AnyArtIs(group[1..]);
      assert forall g :: g in group <==> g == group[0] || g in group[1..];
      if HasArt(group[0]) {
        assert group[0] in group;
      }
    }
  }

  /** No blank artist, or no other artist either, among the rows of the album. */
  ghost predicate WildcardIsHarmless(rows: seq<Row>, k: Key) {
    k.artist == "" ==> forall r :: r in rows && r.track.album == k.album ==> r.track.albumArtist == ""
  }

  lemma {:induction false} GroupWithinSelection(rows: seq<Row>, k: Key)
    ensures |Group(rows, k)| <= |Select(rows, k.album, k.artist)|
    ensures |Group(rows, k)| == |Select(rows, k.album, k.artist)| <==> WildcardIsHarmless(rows, k)
  {
    if rows != [] {
      GroupWithinSelection(rows[1..], k);
      assert forall r :: r in rows <==> r == rows[0] || r in rows[1..];
    }
  }

  /** A summary counts the tracks its own listing shows. */
  predicate CountIsRight(rows: seq<Row>, a: AlbumSummary) {
    a.trackCount == |ListTracksByAlbum(rows, a.album, a.artist)|
  }

  lemma SummaryAt(rows: seq<Row>, i: nat)
    requires i < |ListAlbums(rows)|
    ensures var k := Sort(KeyLe, Keys(rows))[i];
      && k in Keys(rows) && Group(rows, k) != [] && ListAlbums(rows)[i] == Summary(rows, k)
  {
    var ks := Sort(KeyLe, Keys(rows));
    KeysAreGroups(rows, ks);
    SameElements(ks, Keys(rows));
    assert ks[i] in ks;
  }

  /** Main result: summary by summary, the count is the length of the listing exactly when the
      artist is not blank or the album has no other. */
  lemma CountIsRightExactlyWhen(rows: seq<Row>, i: nat)
    requires i < |ListAlbums(rows)|
    ensures var a := ListAlbums(rows)[i];
      CountIsRight(rows, a) <==> (a.artist == "" ==> forall r :: r in rows && r.track.album == a.album ==> r.track.albumArtist == "")
  {
    var k := Sort(KeyLe, Keys(rows))[i];
    SummaryAt(rows, i);
    GroupWithinSelection(rows, k);
    assert |multiset(Select(rows, k.album, k.artist))| == |multiset(ListTracksByAlbum(rows, k.album, k.artist))|;
  }

  /** The row belongs to the album the summary is about. */
  predicate Covers(a: AlbumSummary, r: Row) {
    r.track.album == a.album && r.track.albumArtist == a.artist
  }

  /** Main result: a summary is flagged with artwork exactly when one of its tracks has some. Its
      representative then has the least id of those, and otherwise the least id of all. */
  lemma SummariesAreRight(rows: seq<Row>, i: nat)
    requires i < |ListAlbums(rows)|
    ensures var a := ListAlbums(rows)[i];
      && (a.hasArtwork <==> exists r :: r in rows && Covers(a, r) && r.track.artworkExt.Some?)
      && exists rep :: rep in rows && rep.id == a.representative && Covers(a, rep)
           && (a.hasArtwork <==> rep.track.artworkExt.Some?)
           && forall r :: r in rows && Covers(a, r) && (r.track.artworkExt.Some? || !a.hasArtwork) ==> rep.id <= r.id
  {
    SummaryAt(rows, i);
    var k := Sort(KeyLe, Keys(rows))[i];
    var a, g := ListAlbums(rows)[i], Group(rows, k);
    GroupMembers(rows, k);
    AnyArtIs(g);
    assert forall r :: r in g <==> r in rows && Covers(a, r);
    var rep := Representative(g);
    assert rep in rows && Covers(a, rep);
  }

  /** There is a summary for every album and album artist of the user's tracks, and no other. */
  lemma EveryAlbumIsListed(rows: seq<Row>, r: Row)
    requires r in rows
    ensures exists a :: a in ListAlbums(rows) && Covers(a, r)
  {
    var ks := Sort(KeyLe, Keys(rows));
    SameElements(ks, Keys(rows));
    assert KeyOf(r) in Keys(rows) && KeyOf(r) in ks;
    var i :| 0 <= i < |ks| && ks[i] == KeyOf(r);
    SummaryAt(rows, i);
    assert ListAlbums(rows)[i] in ListAlbums(rows);
  }
}
