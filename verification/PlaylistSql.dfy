/** What each statement and transaction of server/internal/store/playlists.go does to the
    tables, as functions of the rows. */
module PlaylistSql {
  import opened Sequences
  import opened Tables

  /** sql.ErrNoRows covers "not found" and "not yours" alike. */
  datatype Outcome = Done | NoRows | Mismatch

  datatype Info = Info(name: string, trackCount: nat)

  predicate OwnsPlaylist(db: Db, u: int, p: int) {
    p in db.playlists && db.playlists[p].owner == u
  }

  predicate OwnsTrack(db: Db, u: int, t: int) {
    t in db.tracks && db.tracks[t].owner == u
  }

  // ---------------------------------------------------------------- mutations

  function CreatePlaylist(db: Db, u: int, id: int, name: string): Db {
    db.(playlists := db.playlists[id := Playlist(u, name)])
  }

  function RenamePlaylist(db: Db, u: int, p: int, name: string): (Db, Outcome) {
    if OwnsPlaylist(db, u, p) then (db.(playlists := db.playlists[p := Playlist(u, name)]), Done) else (db, NoRows)
  }

  /** Deleting a playlist cascades to its playlist_tracks rows. */
  function DeletePlaylist(db: Db, u: int, p: int): (Db, Outcome) {
    if OwnsPlaylist(db, u, p) then
      (db.(playlists := db.playlists - {p}, entries := map k | k in db.entries && k.0 != p :: db.entries[k]), Done)
    else (db, NoRows)
  }

  ghost function AddTrack(db: Db, u: int, p: int, t: int): (Db, Outcome) {
    if !OwnsPlaylist(db, u, p) || !OwnsTrack(db, u, t) then (db, NoRows)
    else if (p, t) in db.entries then (db, Done)
    else (db.(entries := db.entries[(p, t) := NextPosition(Members(db.entries, p))]), Done)
  }

  function RemoveTrack(db: Db, u: int, p: int, t: int): (Db, Outcome) {
    if OwnsPlaylist(db, u, p) then (db.(entries := map k | k in db.entries && k != (p, t) :: db.entries[k]), Done) else (db, NoRows)
  }

  /** The test made before a reorder: right length, no id twice, no foreign id. */
  ghost predicate Accepts(m: map<int, int>, ids: seq<int>) {
    |ids| == |m.Keys| && NoDup(ids) && forall i :: 0 <= i < |ids| ==> ids[i] in m
  }

  /** The first `n` UPDATEs of a reorder, one row each. */
  function Renumbered(entries: map<(int, int), int>, p: int, ids: seq<int>, n: nat): map<(int, int), int>
    requires n <= |ids|
  {
    if n == 0 then entries
    else
      var before := Renumbered(entries, p, ids, n - 1);
      if (p, ids[n - 1]) in before then before[(p, ids[n - 1]) := n - 1] else before
  }

  ghost function Reorder(db: Db, u: int, p: int, ids: seq<int>): (Db, Outcome) {
    if !OwnsPlaylist(db, u, p) then (db, NoRows)
    else if !Accepts(Members(db.entries, p), ids) then (db, Mismatch)
    else (db.(entries := Renumbered(db.entries, p, ids, |ids|)), Done)
  }

  // ---------------------------------------------------------------- cascades

  /** ON DELETE CASCADE from a track to its playlist_tracks rows */
  function DropTrack(db: Db, t: int): Db {
    db.(tracks := db.tracks - {t}, entries := map k | k in db.entries && k.1 != t :: db.entries[k])
  }

  /** ON DELETE CASCADE from a user to playlists and tracks, and from both to playlist_tracks */
  function DropUser(db: Db, u: int): Db {
    Db(map t | t in db.tracks && db.tracks[t].owner != u :: db.tracks[t],
       map p | p in db.playlists && db.playlists[p].owner != u :: db.playlists[p],
       map k | k in db.entries && !OwnsPlaylist(db, u, k.0) && !OwnsTrack(db, u, k.1) :: db.entries[k])
  }

  // ---------------------------------------------------------------- queries

  /** LEFT JOIN ... COUNT(pt.track_id) ... GROUP BY p.id */
  function GetPlaylist(db: Db, u: int, p: int): Option<Info> {
    if OwnsPlaylist(db, u, p) then Some(Info(db.playlists[p].name, |Members(db.entries, p).Keys|)) else None
  }

  /** playlist_tracks JOIN tracks, restricted to one playlist */
  function Joined(db: Db, p: int): (m: map<int, int>)
    ensures forall t :: t in m <==> (p, t) in db.entries && t in db.tracks
  {
    map t | t in Members(db.entries, p) && t in db.tracks :: db.entries[(p, t)]
  }

  /** Ownership is checked on the playlist alone. */
  ghost function ListPlaylistTracks(db: Db, u: int, p: int): seq<Row> {
    if OwnsPlaylist(db, u, p) then RowsOf(db, ByPosition(Joined(db, p))) else []
  }

  /** What the query may return when positions tie. */
  ghost predicate MayList(db: Db, u: int, p: int, list: seq<Row>) {
    if OwnsPlaylist(db, u, p) then exists ids :: InSomeOrder(Joined(db, p), ids) && list == RowsOf(db, ids) else list == []
  }

  /** Without ties that is the view. */
  lemma MayListIsView(db: Db, u: int, p: int, list: seq<Row>)
    requires MayList(db, u, p, list) && Distinct(Joined(db, p))
    ensures list == ListPlaylistTracks(db, u, p)
  {
    if OwnsPlaylist(db, u, p) {
      var ids :| InSomeOrder(Joined(db, p), ids) && list == RowsOf(db, ids);
      ListingIsView(Joined(db, p), ids);
    }
  }

  ghost function RowsOf(db: Db, ids: seq<int>): seq<Row> {
    if ids == [] then []
    else (if ids[0] in db.tracks then [Row(ids[0], db.tracks[ids[0]])] else []) + RowsOf(db, ids[1..])
  }

  lemma {:induction false} RowsOfConcat(db: Db, a: seq<int>, b: seq<int>)
    ensures RowsOf(db, a + b) == RowsOf(db, a) + RowsOf(db, b)
  {
    if a == [] {
      assert a + b == b;
    } else {
      RowsOfConcat(db, a[1..], b);
      assert (a + b)[1..] == a[1..] + b;
    }
  }

  lemma RowsOfSnoc(db: Db, ids: seq<int>, i: nat)
    requires i < |ids|
    ensures RowsOf(db, ids[..i + 1]) ==
            RowsOf(db, ids[..i]) + if ids[i] in db.tracks then [Row(ids[i], db.tracks[ids[i]])] else []
  {
    RowsOfConcat(db, ids[..i], [ids[i]]);
    assert ids[..i + 1] == ids[..i] + [ids[i]];
    assert [ids[i]][1..] == [];
  }
}
