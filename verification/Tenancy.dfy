/** What one user sees, and why no other user's transaction can change it. */
module Tenancy {
  import opened Tables
  import opened PlaylistSql
  import opened Playlists
  import Search
  import Albums

  /** SELECT ... FROM tracks WHERE user_id = $1 */
  function OwnTracks(db: Db, u: int): map<int, Track> {
    map t | t in db.tracks && db.tracks[t].owner == u :: db.tracks[t]
  }

  /** The user whose rows a transaction or cascade is about. */
  ghost predicate By(db: Db, op: Op, v: int) {
    match op
    case InsertTrack(_, track) => track.owner == v
    case DropTrack(t) => t in db.tracks && db.tracks[t].owner == v
    case _ => op.user == v
  }

  ghost predicate SameRowsOf(db: Db, db': Db, p: int) {
    && (forall t :: (p, t) in db'.entries <==> (p, t) in db.entries)
    && (forall t :: (p, t) in db.entries ==> db'.entries[(p, t)] == db.entries[(p, t)])
  }

  /** Everything `v` may look at is the same in both states. */
  ghost predicate LooksTheSame(db: Db, db': Db, v: int) {
    && OwnTracks(db', v) == OwnTracks(db, v)
    && SameListings(db, db', v)
    && forall p :: SamePlaylist(db, db', v, p)
  }

  ghost predicate SamePlaylist(db: Db, db': Db, v: int, p: int) {
    && GetPlaylist(db', v, p) == GetPlaylist(db, v, p)
    && ListPlaylistTracks(db', v, p) == ListPlaylistTracks(db, v, p)
  }

  // ---------------------------------------------------------------- listings, albums and searches

  function Own(rows: seq<Row>, v: int): seq<Row> {
    if rows == [] then [] else (if rows[0].track.owner == v then [rows[0]] else []) + Own(rows[1..], v)
  }

  ghost predicate InPlaces(place: int -> int, rows: seq<Row>) {
    forall i, j :: 0 <= i < j < |rows| ==> place(rows[i].id) < place(rows[j].id)
  }

  /** The rows of the tracks table, in an order `place` of the ids: that of ORDER BY id, or the
      order the table itself keeps, which decides between rows that tie. */
  ghost predicate Yields(tracks: map<int, Track>, place: int -> int, rows: seq<Row>) {
    InPlaces(place, rows) && forall r :: r in rows <==> r.id in tracks && r.track == tracks[r.id]
  }

  /** The track listing, every search, the album view and every album's listing. */
  ghost predicate SameViews(rows: seq<Row>, rows': seq<Row>, v: int) {
    && Own(rows', v) == Own(rows, v)
    && (forall fold: char -> char, q: string :: Search.Found(fold, rows', v, q) == Search.Found(fold, rows, v, q))
    && Albums.ListAlbums(Own(rows', v)) == Albums.ListAlbums(Own(rows, v))
    && (forall album: string, artist: string ::
          Albums.ListTracksByAlbum(Own(rows', v), album, artist) == Albums.ListTracksByAlbum(Own(rows, v), album, artist))
  }

  ghost predicate SameListings(db: Db, db': Db, v: int) {
    forall place: int -> int, rows, rows' ::
      Yields(db.tracks, place, rows) && Yields(db'.tracks, place, rows') ==> SameViews(rows, rows', v)
  }

  lemma {:induction false} OwnRows(rows: seq<Row>, v: int, place: int -> int)
    requires InPlaces(place, rows)
    ensures InPlaces(place, Own(rows, v))
    ensures forall r :: r in Own(rows, v) <==> r in rows && r.track.owner == v
  {
    if rows != [] {
      var rest := rows[1..];
      assert forall i :: 0 <= i < |rest| ==> rest[i] == rows[i + 1];
      OwnRows(rest, v, place);
      assert forall r :: r in rows <==> r == rows[0] || r in rest;
      forall r | r in rest
        ensures place(rows[0].id) < place(r.id)
      {
        var i :| 0 <= i < |rest| && rest[i] == r;
        assert rows[i + 1] == r;
      }
      HeadFirst(place, rows[0], Own(rest, v));
    }
  }

  lemma HeadFirst(place: int -> int, r: Row, rest: seq<Row>)
    requires InPlaces(place, rest) && forall q :: q in rest ==> place(r.id) < place(q.id)
    ensures InPlaces(place, [r] + rest)
  {
    var s := [r] + rest;
    assert forall i :: 0 < i < |s| ==> s[i] == rest[i - 1] && s[i] in rest;
  }

  lemma FirstInPlace(place: int -> int, a: seq<Row>, b: seq<Row>)
    requires InPlaces(place, a) && InPlaces(place, b) && a != [] && b != []
    requires forall r :: r in a <==> r in b
    ensures a[0] == b[0]
    ensures forall r :: r in a[1..] <==> r in b[1..]
  {
    assert a[0] in b && b[0] in a;
    var k :| 0 <= k < |b| && b[k] == a[0];
    var l :| 0 <= l < |a| && a[l] == b[0];
    assert place(b[0].id) <= place(b[k].id) && place(a[0].id) <= place(a[l].id);
    assert forall r :: r in a[1..] <==> r in a && r != a[0] by { Later(place, a); }
    assert forall r :: r in b[1..] <==> r in b && r != b[0] by { Later(place, b); }
  }

  lemma Later(place: int -> int, a: seq<Row>)
    requires InPlaces(place, a) && a != []
    ensures forall r :: r in a[1..] <==> r in a && r != a[0]
  {
    assert a == [a[0]] + a[1..];
    assert forall i :: 0 <= i < |a[1..]| ==> a[1..][i] == a[i + 1] && place(a[0].id) < place(a[i + 1].id);
  }

  lemma {:induction false} PlacesDecide(place: int -> int, a: seq<Row>, b: seq<Row>)
    requires InPlaces(place, a) && InPlaces(place, b) && forall r :: r in a <==> r in b
    ensures a == b
    decreases |a|
  {
    if a != [] || b != [] {
      NoneEmpty(a, b);
      FirstInPlace(place, a, b);
      assert forall i :: 0 <= i < |a[1..]| ==> a[1..][i] == a[i + 1];
      assert forall i :: 0 <= i < |b[1..]| ==> b[1..][i] == b[i + 1];
      PlacesDecide(place, a[1..], b[1..]);
      assert a == [a[0]] + a[1..] && b == [b[0]] + b[1..];
    }
  }

  lemma NoneEmpty(a: seq<Row>, b: seq<Row>)
    requires (a != [] || b != []) && forall r :: r in a <==> r in b
    ensures a != [] && b != []
  {
    var r := if a != [] then a[0] else b[0];
    assert r in a || r in b;
  }

  lemma {:induction false} HitsAreOwn(fold: char -> char, rows: seq<Row>, v: int, pattern: string)
    ensures Search.Hits(fold, Own(rows, v), v, pattern) == Search.Hits(fold, rows, v, pattern)
  {
    if rows != [] {
      HitsAreOwn(fold, rows[1..], v, pattern);
      var own := Own(rows, v);
      if rows[0].track.owner == v {
        assert own[0] == rows[0] && own[1..] == Own(rows[1..], v);
      } else {
        assert own == Own(rows[1..], v);
        assert Search.Hits(fold, rows, v, pattern) == Search.Hits(fold, rows[1..], v, pattern);
      }
    }
  }

  lemma OwnTracksDecide(tracks: map<int, Track>, tracks': map<int, Track>, place: int -> int,
                        rows: seq<Row>, rows': seq<Row>, v: int)
    requires Yields(tracks, place, rows) && Yields(tracks', place, rows')
    requires forall t :: t in tracks && tracks[t].owner == v ==> t in tracks' && tracks'[t] == tracks[t]
    requires forall t :: t in tracks' && tracks'[t].owner == v ==> t in tracks && tracks[t] == tracks'[t]
    ensures Own(rows', v) == Own(rows, v)
  {
    OwnRows(rows, v, place);
    OwnRows(rows', v, place);
    forall r
      ensures r in Own(rows, v) <==> r in Own(rows', v)
    {
      assert r in rows <==> r.id in tracks && r.track == tracks[r.id];
      assert r in rows' <==> r.id in tracks' && r.track == tracks'[r.id];
    }
    PlacesDecide(place, Own(rows', v), Own(rows, v));
  }

  lemma OwnTracksAre(db: Db, db': Db, v: int)
    requires OwnTracks(db', v) == OwnTracks(db, v)
    ensures forall t :: t in db.tracks && db.tracks[t].owner == v ==> t in db'.tracks && db'.tracks[t] == db.tracks[t]
  {
    forall t | t in db.tracks && db.tracks[t].owner == v
      ensures t in db'.tracks && db'.tracks[t] == db.tracks[t]
    {
      assert t in OwnTracks(db, v) && t in OwnTracks(db', v);
    }
  }

  /** Main result: the listing, the albums and every search of a user depend on that user's
      tracks alone. */
  lemma OwnTracksDecideListings(db: Db, db': Db, v: int)
    requires OwnTracks(db', v) == OwnTracks(db, v)
    ensures SameListings(db, db', v)
  {
    OwnTracksAre(db, db', v);
    OwnTracksAre(db', db, v);
    forall place: int -> int, rows, rows' | Yields(db.tracks, place, rows) && Yields(db'.tracks, place, rows')
      ensures SameViews(rows, rows', v)
    {
      OwnTracksDecide(db.tracks, db'.tracks, place, rows, rows', v);
      forall fold: char -> char, q: string
        ensures Search.Found(fold, rows', v, q) == Search.Found(fold, rows, v, q)
      {
        HitsAreOwn(fold, rows, v, Search.Pattern(q));
        HitsAreOwn(fold, rows', v, Search.Pattern(q));
      }
    }
  }

  // ---------------------------------------------------------------- the join on the playlist's owner is enough

  lemma JoinLosesNothing(db: Db, p: int)
    requires Sound(db)
    ensures Joined(db, p) == Members(db.entries, p)
  {
    assert forall t :: (p, t) in db.entries ==> Linked(db, (p, t));
  }

  lemma {:induction false} AllRows(db: Db, ids: seq<int>)
    requires forall i :: 0 <= i < |ids| ==> ids[i] in db.tracks
    ensures |RowsOf(db, ids)| == |ids|
    ensures forall i :: 0 <= i < |ids| ==> RowsOf(db, ids)[i] == Row(ids[i], db.tracks[ids[i]])
  {
    if ids != [] {
      AllRows(db, ids[1..]);
    }
  }

  lemma OrderIsOwn(db: Db, m: map<int, int>, order: seq<int>, u: int, p: int)
    requires Sound(db) && OwnsPlaylist(db, u, p) && m == Members(db.entries, p) && Orders(m, order)
    ensures forall i :: 0 <= i < |order| ==> OwnsTrack(db, u, order[i])
  {
    forall i | 0 <= i < |order|
      ensures OwnsTrack(db, u, order[i])
    {
      assert Linked(db, (p, order[i]));
    }
  }

  /** Main result: in every reachable state the listing of a playlist is its order, row for
      row, agrees with the count, and holds only tracks of the user who asks, although the
      query checks the playlist's owner alone. */
  lemma ListingIsOwnOrder(db: Db, lib: Library, u: int, p: int)
    requires Sound(db) && Shows(db, lib) && Owns(lib, u, p)
    ensures var rows, order := ListPlaylistTracks(db, u, p), lib.lists[p].order;
      && |rows| == |order|
      && GetPlaylist(db, u, p) == Some(Info(lib.lists[p].name, |rows|))
      && forall i :: 0 <= i < |rows| ==> OwnsTrack(db, u, order[i]) && rows[i] == Row(order[i], db.tracks[order[i]])
  {
    var order := lib.lists[p].order;
    assert ShowsList(db, p, lib.lists[p]);
    OrderIsOwn(db, Members(db.entries, p), order, u, p);
    AllRows(db, order);
    ListingIsRowsOf(db, lib, u, p);
    ShownList(db, lib, p);
  }

  lemma ListingIsRowsOf(db: Db, lib: Library, u: int, p: int)
    requires Sound(db) && Shows(db, lib) && Owns(lib, u, p)
    ensures OwnsPlaylist(db, u, p) && ListPlaylistTracks(db, u, p) == RowsOf(db, lib.lists[p].order)
  {
    assert ShowsList(db, p, lib.lists[p]);
    JoinLosesNothing(db, p);
    ByPositionIs(Members(db.entries, p), lib.lists[p].order);
  }

  // ---------------------------------------------------------------- isolation

  lemma {:induction false} RowsAgree(db: Db, db': Db, ids: seq<int>)
    requires forall i :: 0 <= i < |ids| ==> ids[i] in db.tracks && ids[i] in db'.tracks && db.tracks[ids[i]] == db'.tracks[ids[i]]
    ensures RowsOf(db', ids) == RowsOf(db, ids)
  {
    if ids != [] {
      RowsAgree(db, db', ids[1..]);
    }
  }

  lemma OwnTracksAgree(db: Db, db': Db, v: int, ids: seq<int>)
    requires OwnTracks(db', v) == OwnTracks(db, v)
    requires forall i :: 0 <= i < |ids| ==> OwnsTrack(db, v, ids[i])
    ensures RowsOf(db', ids) == RowsOf(db, ids)
  {
    forall i | 0 <= i < |ids|
      ensures ids[i] in db'.tracks && db.tracks[ids[i]] == db'.tracks[ids[i]]
    {
      assert ids[i] in OwnTracks(db, v) && ids[i] in OwnTracks(db', v);
      assert OwnTracks(db, v)[ids[i]] == OwnTracks(db', v)[ids[i]];
    }
    RowsAgree(db, db', ids);
  }

  /** Unchanged rows of a playlist and unchanged tracks of its owner give an unchanged listing. */
  lemma UntouchedPlaylist(db: Db, db': Db, v: int, p: int, order: seq<int>)
    requires Sound(db) && Sound(db') && Orders(Members(db.entries, p), order)
    requires OwnsPlaylist(db, v, p) && p in db'.playlists && db'.playlists[p] == db.playlists[p]
    requires SameRowsOf(db, db', p) && OwnTracks(db', v) == OwnTracks(db, v)
    ensures SamePlaylist(db, db', v, p)
  {
    OrderIsOwn(db, Members(db.entries, p), order, v, p);
    OwnTracksAgree(db, db', v, order);
    SameRows(db'.entries, db.entries, p);
    JoinLosesNothing(db, p);
    JoinLosesNothing(db', p);
    ByPositionIs(Members(db.entries, p), order);
  }

  lemma OthersRowsAlone(db: Db, op: Op, v: int, p: int)
    requires Sound(db) && !By(db, op, v) && OwnsPlaylist(db, v, p)
    requires FreshIds(db.tracks.Keys, db.playlists.Keys, op)
    ensures var db' := Apply(db, op).0;
      SameRowsOf(db, db', p) && p in db'.playlists && db'.playlists[p] == db.playlists[p]
  {
    assert forall t :: (p, t) in db.entries ==> Linked(db, (p, t));
    match op
    case Move(u, q, ids) =>
      if OwnsPlaylist(db, u, q) && Accepts(Members(db.entries, q), ids) {
        RenumberingSetsOrder(db.entries, q, ids);
      }
    case _ =>
  }

  lemma OthersTracksAlone(db: Db, op: Op, v: int)
    requires !By(db, op, v) && FreshIds(db.tracks.Keys, db.playlists.Keys, op)
    ensures OwnTracks(Apply(db, op).0, v) == OwnTracks(db, v)
  {
  }

  lemma OthersPlaylistsAlone(db: Db, op: Op, v: int, p: int)
    requires !By(db, op, v) && !OwnsPlaylist(db, v, p)
    ensures !OwnsPlaylist(Apply(db, op).0, v, p)
  {
  }

  lemma StepIsInvisible(db: Db, lib: Library, op: Op, v: int)
    requires Sound(db) && Shows(db, lib) && FreshIds(db.tracks.Keys, db.playlists.Keys, op) && !By(db, op, v)
    ensures LooksTheSame(db, Apply(db, op).0, v)
  {
    var db' := Apply(db, op).0;
    StepRefines(db, lib, op);
    OthersTracksAlone(db, op, v);
    OwnTracksDecideListings(db, db', v);
    forall p
      ensures SamePlaylist(db, db', v, p)
    {
      if OwnsPlaylist(db, v, p) {
        assert ShowsList(db, p, lib.lists[p]);
        OthersRowsAlone(db, op, v, p);
        UntouchedPlaylist(db, db', v, p, lib.lists[p].order);
      } else {
        OthersPlaylistsAlone(db, op, v, p);
      }
    }
  }

  ghost predicate NeverBy(db: Db, ops: seq<Op>, v: int)
    decreases |ops|
  {
    ops == [] || (!By(db, ops[0], v) && NeverBy(Apply(db, ops[0]).0, ops[1..], v))
  }

  lemma LooksAreTransitive(a: Db, b: Db, c: Db, v: int)
    requires LooksTheSame(a, b, v) && LooksTheSame(b, c, v)
    ensures LooksTheSame(a, c, v)
  {
    OwnTracksDecideListings(a, c, v);
    forall p
      ensures SamePlaylist(a, c, v, p)
    {
      assert SamePlaylist(a, b, v, p) && SamePlaylist(b, c, v, p);
    }
  }

  /** Main result: whatever the others do, for however long, `v` sees what `v` saw. */
  lemma {:induction false} RunIsInvisible(db: Db, lib: Library, ops: seq<Op>, v: int)
    requires Sound(db) && Shows(db, lib) && Legal(db, ops) && NeverBy(db, ops, v)
    ensures LooksTheSame(db, Run(db, ops), v)
    decreases |ops|
  {
    if ops == [] {
      OwnTracksDecideListings(db, db, v);
    } else {
      var db' := Apply(db, ops[0]).0;
      StepRefines(db, lib, ops[0]);
      StepIsInvisible(db, lib, ops[0], v);
      RunIsInvisible(db', Perform(lib, ops[0]).0, ops[1..], v);
      LooksAreTransitive(db, db', Run(db, ops), v);
    }
  }
}
