/** The store: the transactions of server/internal/store/playlists.go, statement by
    statement, and the insert of server/internal/store/tracks.go. */
module PlaylistStore {
  import opened Sequences
  import opened Tables
  import opened PlaylistSql
  import Sql = PlaylistSql
  import opened Tracks

  lemma FirstOf(m: map<int, int>)
    requires m.Keys != {}
    ensures exists t :: t in m && forall u :: u in m ==> m[t] <= m[u]
  {
    assert m.Keys == {} || Inhabited(m) by {
      if !Inhabited(m) {
        assert forall t :: t !in m.Keys;
      }
    }
    SomeoneIsFirst(m);
  }

  /** `ids` are the rows read so far and `left` those still to come. */
  ghost predicate ReadSoFar(m: map<int, int>, ids: seq<int>, left: map<int, int>) {
    && (forall t :: t in left ==> t in m && left[t] == m[t])
    && (forall t :: t in m <==> t in ids || t in left)
    && (forall i :: 0 <= i < |ids| ==> ids[i] in m && ids[i] !in left)
    && NoDup(ids)
    && (forall i, j :: 0 <= i < j < |ids| ==> m[ids[i]] <= m[ids[j]])
    && (forall i, t :: 0 <= i < |ids| && t in left ==> m[ids[i]] <= m[t])
  }

  lemma ReadOneMore(m: map<int, int>, ids: seq<int>, left: map<int, int>, t: int)
    requires ReadSoFar(m, ids, left) && t in left && forall u :: u in left ==> left[t] <= left[u]
    ensures ReadSoFar(m, ids + [t], left - {t})
  {
    assert forall u :: u in ids + [t] <==> u in ids || u == t;
  }

  class Store {
    var tracks: map<int, Track>
    var playlists: map<int, Playlist>
    var entries: map<(int, int), int>

    function Rows(): Db
      reads this
    {
      Db(tracks, playlists, entries)
    }

    constructor ()
      ensures Rows() == EMPTY
    {
      tracks, playlists, entries := map[], map[], map[];
    }

    /** The id comes from the table's sequence; a failed insert leaves no row. */
    method InsertTrack(id: int, nt: NewTrack, ok: bool) returns (row: Option<Row>)
      requires id !in tracks
      modifies this
      ensures row == if ok then Some(Row(id, InsertedRow(nt))) else None
      ensures Rows() == if ok then old(Rows()).(tracks := old(tracks)[id := InsertedRow(nt)]) else old(Rows())
    {
      var albumArtist := nt.albumArtist;
      if albumArtist == "" {
        albumArtist := nt.artist;
      }
      if !ok {
        return None;
      }
      var t := Track(nt.userID, nt.storageKey, nt.mimeType, nt.originalFilename, nt.size, nt.title, nt.artist, nt.album, albumArtist,
                     NullableTrackNumber(nt.trackNumber), NullableString(nt.artworkExt));
      tracks := tracks[id := t];
      return Some(Row(id, t));
    }

    /** The id comes from the table's sequence. */
    method CreatePlaylist(userID: int, id: int, name: string)
      requires id !in playlists
      modifies this
      ensures Rows() == Sql.CreatePlaylist(old(Rows()), userID, id, name)
    {
      playlists := playlists[id := Playlist(userID, name)];
    }

    method RenamePlaylist(p: int, userID: int, name: string) returns (o: Outcome)
      modifies this
      ensures (Rows(), o) == Sql.RenamePlaylist(old(Rows()), userID, p, name)
    {
      if p !in playlists || playlists[p].owner != userID {
        return NoRows;
      }
      playlists := playlists[p := Playlist(userID, name)];
      return Done;
    }

    method DeletePlaylist(p: int, userID: int) returns (o: Outcome)
      modifies this
      ensures (Rows(), o) == Sql.DeletePlaylist(old(Rows()), userID, p)
    {
      if p !in playlists || playlists[p].owner != userID {
        return NoRows;
      }
      playlists := playlists - {p};
      entries := map k | k in entries && k.0 != p :: entries[k];
      return Done;
    }

    method OwnsPlaylist(p: int, userID: int) returns (yes: bool)
      ensures yes == Sql.OwnsPlaylist(Rows(), userID, p)
    {
      yes := p in playlists && playlists[p].owner == userID;
    }

    /** SELECT COALESCE(MAX(position) + 1, 0) */
    method AppendPosition(p: int) returns (pos: int)
      ensures pos == NextPosition(Members(entries, p))
    {
      var rows := Members(entries, p);
      var unread := rows.Keys;
      pos := 0;
      var any := false;
      while unread != {}
        invariant unread <= rows.Keys
        invariant any <==> unread != rows.Keys
        invariant !any ==> pos == 0
        invariant any ==> exists t :: t in rows && t !in unread && pos == rows[t] + 1
        invariant forall t :: t in rows && t !in unread ==> rows[t] < pos
        decreases unread
      {
        var t :| t in unread;
        if !any || pos <= rows[t] {
          pos := rows[t] + 1;
          any := true;
        }
        unread := unread - {t};
      }
    }

    method AddTrackToPlaylist(p: int, userID: int, t: int) returns (o: Outcome)
      modifies this
      ensures (Rows(), o) == AddTrack(old(Rows()), userID, p, t)
    {
      var owns := OwnsPlaylist(p, userID);
      if !owns {
        return NoRows;
      }
      if t !in tracks || tracks[t].owner != userID {
        return NoRows;
      }
      if (p, t) !in entries {  // ON CONFLICT DO NOTHING
        var pos := AppendPosition(p);
        entries := entries[(p, t) := pos];
      }
      return Done;
    }

    method RemoveTrackFromPlaylist(p: int, userID: int, t: int) returns (o: Outcome)
      modifies this
      ensures (Rows(), o) == RemoveTrack(old(Rows()), userID, p, t)
    {
      var owns := OwnsPlaylist(p, userID);
      if !owns {
        return NoRows;
      }
      entries := map k | k in entries && k != (p, t) :: entries[k];
      return Done;
    }

    /** The length test and the seen/current loop. */
    static method SamePermutation(current: set<int>, trackIDs: seq<int>) returns (yes: bool)
      ensures yes <==> |trackIDs| == |current| && NoDup(trackIDs) && forall i :: 0 <= i < |trackIDs| ==> trackIDs[i] in current
    {
      if |trackIDs| != |current| {
        return false;
      }
      var seen := {};
      for i := 0 to |trackIDs|
        invariant forall x :: x in seen <==> x in trackIDs[..i]
        invariant NoDup(trackIDs[..i])
        invariant forall k :: 0 <= k < i ==> trackIDs[k] in current
      {
        var id := trackIDs[i];
        if id in seen || id !in current {
          return false;
        }
        seen := seen + {id};
        assert trackIDs[..i + 1] == trackIDs[..i] + [id];
      }
      assert trackIDs[..|trackIDs|] == trackIDs;
      return true;
    }

    /** The ids the cursor reads into a set. */
    method Membership(p: int) returns (current: set<int>)
      ensures current == Members(entries, p).Keys
    {
      var rows := Members(entries, p);
      var unread := rows.Keys;
      current := {};
      while unread != {}
        invariant unread <= rows.Keys && current == rows.Keys - unread
        decreases unread
      {
        var id :| id in unread;
        current, unread := current + {id}, unread - {id};
      }
    }

    /** UPDATE playlist_tracks SET position, row by row. */
    method Renumber(p: int, trackIDs: seq<int>)
      modifies this`entries
      ensures entries == Renumbered(old(entries), p, trackIDs, |trackIDs|)
    {
      for pos := 0 to |trackIDs|
        invariant entries == Renumbered(old(entries), p, trackIDs, pos)
      {
        if (p, trackIDs[pos]) in entries {
          entries := entries[(p, trackIDs[pos]) := pos];
        }
      }
    }

    method ReorderPlaylist(p: int, userID: int, trackIDs: seq<int>) returns (o: Outcome)
      modifies this
      ensures (Rows(), o) == Reorder(old(Rows()), userID, p, trackIDs)
    {
      var owns := OwnsPlaylist(p, userID);
      if !owns {
        return NoRows;
      }

      var current := Membership(p);
      var fits := SamePermutation(current, trackIDs);
      if !fits {
        return Mismatch;
      }
      Renumber(p, trackIDs);
      return Done;
    }

    /** The cursor behind ORDER BY position: a least row first, any of those that tie. */
    static method Cursor(m: map<int, int>) returns (ids: seq<int>)
      ensures InSomeOrder(m, ids)
      ensures Distinct(m) ==> ids == ByPosition(m)
    {
      ids := [];
      var left := m;
      while left.Keys != {}
        invariant ReadSoFar(m, ids, left)
        decreases |left|
      {
        FirstOf(left);
        var t :| t in left && forall u :: u in left ==> left[t] <= left[u];
        ReadOneMore(m, ids, left, t);
        ids, left := ids + [t], left - {t};
      }
      assert forall t :: t !in left;
      if Distinct(m) {
        ListingIsView(m, ids);
      }
    }

    /** The rows come in position order and are appended one by one. */
    method ListPlaylistTracks(p: int, userID: int) returns (list: seq<Row>)
      ensures MayList(Rows(), userID, p, list)
    {
      list := [];
      var owns := OwnsPlaylist(p, userID);
      if !owns {
        return;
      }
      var ids := Cursor(Joined(Rows(), p));
      ghost var db := Rows();
      for i := 0 to |ids|
        invariant list == RowsOf(db, ids[..i])
      {
        RowsOfSnoc(db, ids, i);
        if ids[i] in tracks {
          list := list + [Row(ids[i], tracks[ids[i]])];
        }
      }
      assert ids[..|ids|] == ids;
    }

    /** The same for a playlist without ties, as every run of the transactions leaves it. */
    method ListDistinct(p: int, userID: int) returns (list: seq<Row>)
      requires Distinct(Members(entries, p))
      ensures list == Sql.ListPlaylistTracks(Rows(), userID, p)
    {
      list := ListPlaylistTracks(p, userID);
      assert forall t :: t in Joined(Rows(), p) ==> t in Members(entries, p) && Joined(Rows(), p)[t] == Members(entries, p)[t];
      MayListIsView(Rows(), userID, p, list);
    }
  }
}
