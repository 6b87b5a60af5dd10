/** The optimistic playlist editor of app/src/app/(tabs)/playlists/[id].tsx, on top of the
    store it talks to. Tracks are represented by their ids. */
module PlaylistEditor {
  import opened Sequences
  import opened Tables
  import opened PlaylistSql
  import opened PlaylistStore
  import P = Playlists
  import T = Tenancy

  function Swapped(s: seq<int>, i: nat, j: nat): (r: seq<int>)
    requires i < |s| && j < |s|
    ensures |r| == |s|
  {
    s[i := s[j]][j := s[i]]
  }

  lemma SwapKeepsMembership(s: seq<int>, i: nat, j: nat)
    requires i < |s| && j < |s|
    ensures multiset(Swapped(s, i, j)) == multiset(s)
  {
  }

  function Ids(rows: seq<Row>): (ids: seq<int>)
    ensures |ids| == |rows|
  {
    seq(|rows|, i requires 0 <= i < |rows| => rows[i].id)
  }

  ghost function ServerOrder(db: Db, u: int, p: int): seq<int> {
    Ids(ListPlaylistTracks(db, u, p))
  }

  /** What can become of a request: answered, lost on the way, or carried out with the answer lost. */
  datatype Link = Answered | RequestLost | ReplyLost

  ghost predicate Tidy(db: Db, p: int) {
    P.Sound(db) && Distinct(Members(db.entries, p))
  }

  lemma ServerOrderIs(db: Db, u: int, p: int)
    requires Tidy(db, p) && OwnsPlaylist(db, u, p)
    ensures ServerOrder(db, u, p) == ByPosition(Members(db.entries, p))
  {
    T.JoinLosesNothing(db, p);
    var order := ByPosition(Members(db.entries, p));
    ByPositionOrders(Members(db.entries, p));
    T.OrderIsOwn(db, Members(db.entries, p), order, u, p);
    T.AllRows(db, order);
  }

  /** A list with the current membership, in any order, is accepted and becomes the server's. */
  lemma PushIsAccepted(db: Db, u: int, p: int, next: seq<int>)
    requires Tidy(db, p) && OwnsPlaylist(db, u, p)
    ensures var (db', o) := Reorder(db, u, p, next);
      && Tidy(db', p) && OwnsPlaylist(db', u, p)
      && (o == Done <==> multiset(next) == multiset(ServerOrder(db, u, p)))
      && ServerOrder(db', u, p) == if o == Done then next else ServerOrder(db, u, p)
  {
    var m := Members(db.entries, p);
    ServerOrderIs(db, u, p);
    ByPositionOrders(m);
    P.AcceptsPermutations(m, ByPosition(m), next);
    if Accepts(m, next) {
      var db' := Reorder(db, u, p, next).0;
      P.RenumberingSetsOrder(db.entries, p, next);
      ByPositionIs(Members(db'.entries, p), next);
      assert P.Sound(db') by {
        assert forall k: (int, int) :: k in db'.entries ==> P.Linked(db, k);
      }
      ServerOrderIs(db', u, p);
    }
  }

  lemma RemovalFilters(db: Db, u: int, p: int, t: int)
    requires Tidy(db, p) && OwnsPlaylist(db, u, p)
    ensures var db' := RemoveTrack(db, u, p, t).0;
      Tidy(db', p) && OwnsPlaylist(db', u, p) && ServerOrder(db', u, p) == Without(ServerOrder(db, u, p), t)
  {
    var db', m := RemoveTrack(db, u, p, t).0, Members(db.entries, p);
    ServerOrderIs(db, u, p);
    ByPositionOrders(m);
    P.RowsAfterRemoval(db.entries, db'.entries, p, ByPosition(m), t);
    ByPositionIs(Members(db'.entries, p), Without(ByPosition(m), t));
    assert P.Sound(db') by {
      assert forall k: (int, int) :: k in db'.entries ==> P.Linked(db, k);
    }
    ServerOrderIs(db', u, p);
  }

  // ---------------------------------------------------------------- what a move and a removal leave behind

  /** The tables and the list on screen when a move is over, and the reload after a failed one. */
  ghost function AfterMove(db: Db, u: int, p: int, shown: seq<int>, from: nat, to: int, link: Link, reloads: bool): (Db, seq<int>)
    requires from < |shown|
  {
    if to < 0 || |shown| <= to then (db, shown)
    else
      var next := Swapped(shown, from, to);
      var (pushed, o) := Reorder(db, u, p, next);
      var db' := if link.RequestLost? then db else pushed;
      var failed := !link.Answered? || o != Done;
      (db', if failed && reloads && OwnsPlaylist(db, u, p) then ServerOrder(db', u, p) else next)
  }

  ghost function AfterRemoval(db: Db, u: int, p: int, shown: seq<int>, track: int, link: Link, reloads: bool): (Db, seq<int>) {
    var db' := if link.RequestLost? then db else RemoveTrack(db, u, p, track).0;
    var failed := !link.Answered? || !OwnsPlaylist(db, u, p);
    (db', if failed && reloads && OwnsPlaylist(db, u, p) then ServerOrder(db', u, p) else Without(shown, track))
  }

  ghost predicate InStep(after: (Db, seq<int>), u: int, p: int) {
    after.1 == ServerOrder(after.0, u, p)
  }

  lemma PushStaysTidy(db: Db, u: int, p: int, next: seq<int>)
    requires Tidy(db, p)
    ensures Tidy(Reorder(db, u, p, next).0, p)
  {
    if OwnsPlaylist(db, u, p) {
      PushIsAccepted(db, u, p, next);
    } else {
      assert Reorder(db, u, p, next) == (db, NoRows);
    }
  }

  lemma MoveStaysTidy(db: Db, u: int, p: int, shown: seq<int>, from: nat, to: int, link: Link, reloads: bool)
    requires Tidy(db, p) && from < |shown|
    ensures Tidy(AfterMove(db, u, p, shown, from, to, link, reloads).0, p)
  {
    if 0 <= to < |shown| {
      var next := Swapped(shown, from, to);
      PushStaysTidy(db, u, p, next);
      var db' := AfterMove(db, u, p, shown, from, to, link, reloads).0;
      assert db' == if link.RequestLost? then db else Reorder(db, u, p, next).0;
    } else {
      assert AfterMove(db, u, p, shown, from, to, link, reloads).0 == db;
    }
  }

  /** Main result: when a move is over the screen shows the server's order exactly when the
      reload came through, or the push did and the client had the current membership, or the
      push was lost and the server had the new order anyway. */
  lemma MoveAgreesExactlyWhen(db: Db, u: int, p: int, shown: seq<int>, from: nat, to: nat, link: Link, reloads: bool)
    requires Tidy(db, p) && OwnsPlaylist(db, u, p) && from < |shown| && to < |shown|
    ensures InStep(AfterMove(db, u, p, shown, from, to, link, reloads), u, p) <==>
      || reloads
      || (!link.RequestLost? && multiset(shown) == multiset(ServerOrder(db, u, p)))
      || (link.RequestLost? && Swapped(shown, from, to) == ServerOrder(db, u, p))
  {
    PushIsAccepted(db, u, p, Swapped(shown, from, to));
    SwapKeepsMembership(shown, from, to);
  }

  lemma ServerOrderNoDup(db: Db, u: int, p: int)
    requires Tidy(db, p) && OwnsPlaylist(db, u, p)
    ensures NoDup(ServerOrder(db, u, p))
  {
    ServerOrderIs(db, u, p);
    var m := Members(db.entries, p);
    ByPositionOrders(m);
    ByPositionIs(m, ByPosition(m));
  }

  /** Main result: a screen in step with the server drifts exactly when the request is lost, the
      reload fails as well, and the tap changed something. */
  lemma MoveDriftsExactlyWhen(db: Db, u: int, p: int, from: nat, to: nat, link: Link, reloads: bool)
    requires Tidy(db, p) && OwnsPlaylist(db, u, p)
    requires from < |ServerOrder(db, u, p)| && to < |ServerOrder(db, u, p)|
    ensures !InStep(AfterMove(db, u, p, ServerOrder(db, u, p), from, to, link, reloads), u, p) <==>
      link.RequestLost? && !reloads && from != to
  {
    var s := ServerOrder(db, u, p);
    MoveAgreesExactlyWhen(db, u, p, s, from, to, link, reloads);
    ServerOrderNoDup(db, u, p);
    assert from != to ==> Swapped(s, from, to)[from] != s[from];
    assert from == to ==> Swapped(s, from, to) == s;
  }

  lemma RemovalAgreesExactlyWhen(db: Db, u: int, p: int, shown: seq<int>, track: int, link: Link, reloads: bool)
    requires Tidy(db, p) && OwnsPlaylist(db, u, p)
    ensures InStep(AfterRemoval(db, u, p, shown, track, link, reloads), u, p) <==>
      || (reloads && !link.Answered?)
      || (!link.RequestLost? && Without(shown, track) == Without(ServerOrder(db, u, p), track))
      || (link.RequestLost? && Without(shown, track) == ServerOrder(db, u, p))
  {
    RemovalFilters(db, u, p, track);
  }

  lemma FilterOne(before: seq<int>, s: seq<int>, x: int)
    requires s != []
    ensures before + Without(s, x) == (if s[0] == x then before else before + [s[0]]) + Without(s[1..], x)
  {
    assert before + ([s[0]] + Without(s[1..], x)) == (before + [s[0]]) + Without(s[1..], x);
  }

  lemma {:induction false} WithoutChanges(s: seq<int>, x: int)
    ensures |Without(s, x)| <= |s|
    ensures Without(s, x) == s <==> x !in s
  {
    if s != [] {
      WithoutChanges(s[1..], x);
      assert s == [s[0]] + s[1..];
    }
  }

  lemma RemovalDriftsExactlyWhen(db: Db, u: int, p: int, track: int, link: Link, reloads: bool)
    requires Tidy(db, p) && OwnsPlaylist(db, u, p)
    ensures !InStep(AfterRemoval(db, u, p, ServerOrder(db, u, p), track, link, reloads), u, p) <==>
      link.RequestLost? && !reloads && track in ServerOrder(db, u, p)
  {
    RemovalAgreesExactlyWhen(db, u, p, ServerOrder(db, u, p), track, link, reloads);
    WithoutChanges(ServerOrder(db, u, p), track);
  }

  const SONG := Track(1, "key", "audio/mpeg", "song.mp3", 1, "Song", "Artist", "Album", "Artist", None, None)

  /** User 1's playlist 1: track 1, then track 2. */
  const TWO_SONGS := Db(map[1 := SONG, 2 := SONG], map[1 := Playlist(1, "Mix")], map[(1, 1) := 0, (1, 2) := 1])

  lemma TwoSongsLinked()
    ensures P.Sound(TWO_SONGS)
  {
    forall k: (int, int) | k in TWO_SONGS.entries
      ensures P.Linked(TWO_SONGS, k)
    {
      assert k == (1, 1) || k == (1, 2);
    }
  }

  lemma TwoSongsOrdered()
    ensures Orders(Members(TWO_SONGS.entries, 1), [1, 2])
  {
    var m := Members(TWO_SONGS.entries, 1);
    assert (1, 1) in TWO_SONGS.entries && (1, 2) in TWO_SONGS.entries;
    forall t | t in m
      ensures t in [1, 2]
    {
      assert (1, t) in TWO_SONGS.entries;
      assert t == 1 || t == 2;
      assert [1, 2][t - 1] == t;
    }
  }

  lemma TwoSongs()
    ensures Tidy(TWO_SONGS, 1) && OwnsPlaylist(TWO_SONGS, 1, 1) && ServerOrder(TWO_SONGS, 1, 1) == [1, 2]
  {
    TwoSongsLinked();
    TwoSongsOrdered();
    ByPositionIs(Members(TWO_SONGS.entries, 1), [1, 2]);
    assert OwnsPlaylist(TWO_SONGS, 1, 1);
    ServerOrderIs(TWO_SONGS, 1, 1);
  }

  /** So it can happen: the server keeps 1, 2 while the screen shows 2, 1. */
  lemma ScreenCanDrift()
    ensures AfterMove(TWO_SONGS, 1, 1, [1, 2], 0, 1, RequestLost, false) == (TWO_SONGS, [2, 1])
    ensures ServerOrder(TWO_SONGS, 1, 1) == [1, 2] != [2, 1]
  {
    TwoSongs();
    assert Swapped([1, 2], 0, 1) == [2, 1];
    assert [1, 2][0] != [2, 1][0];
  }

  // ---------------------------------------------------------------- the screen

  class PlaylistDetailScreen {
    const id: int
    const user: int
    const server: Store
    var tracks: seq<int>

    constructor (id: int, user: int, server: Store)
      ensures this.id == id && this.user == user && this.server == server && tracks == []
    {
      this.id, this.user, this.server, tracks := id, user, server, [];
    }

    ghost function OnServer(): seq<int>
      reads server
    {
      ServerOrder(server.Rows(), user, id)
    }

    ghost predicate Mine()
      reads server
    {
      OwnsPlaylist(server.Rows(), user, id)
    }

    /** A failed fetch, or a playlist that is gone, leaves the list as it is. */
    method Load(ok: bool)
      requires Tidy(server.Rows(), id)
      modifies this
      ensures tracks == if ok && Mine() then OnServer() else old(tracks)
    {
      var owns := server.OwnsPlaylist(id, user);
      if ok && owns {
        var rows := server.ListDistinct(id, user);
        tracks := Ids(rows);
      }
    }

    /** The request, and what the caller hears of it. */
    method Push(next: seq<int>, link: Link) returns (failed: bool)
      requires Tidy(server.Rows(), id)
      modifies server
      ensures server.Rows() == if link.RequestLost? then old(server.Rows()) else Reorder(old(server.Rows()), user, id, next).0
      ensures failed <==> !link.Answered? || Reorder(old(server.Rows()), user, id, next).1 != Done
    {
      if link.RequestLost? {
        return true;
      }
      var o := server.ReorderPlaylist(id, user, next);
      failed := o != Done || link.ReplyLost?;
    }

    /** Swap locally, push the new order, reload if the push fails. */
    method Move(from: nat, to: int, link: Link, reloads: bool)
      requires from < |tracks| && Tidy(server.Rows(), id)
      modifies this, server
      ensures Tidy(server.Rows(), id)
      ensures (server.Rows(), tracks) == AfterMove(old(server.Rows()), user, id, old(tracks), from, to, link, reloads)
      // a client with the current membership is accepted, and client and server move together
      ensures 0 <= to < |old(tracks)| && link.Answered? && old(Mine()) && multiset(old(tracks)) == multiset(old(OnServer()))
              ==> tracks == Swapped(old(tracks), from, to) == OnServer()
      // and in general they agree exactly when
      ensures 0 <= to < |old(tracks)| && old(Mine()) ==>
        (tracks == OnServer() <==>
           || reloads
           || (!link.RequestLost? && multiset(old(tracks)) == multiset(old(OnServer())))
           || (link.RequestLost? && Swapped(old(tracks), from, to) == old(OnServer())))
    {
      ghost var db, shown := server.Rows(), tracks;
      MoveStaysTidy(db, user, id, shown, from, to, link, reloads);
      if to < 0 || |tracks| <= to {
        return;
      }
      var next := tracks[from := tracks[to]][to := tracks[from]];
      assert next == Swapped(tracks, from, to);
      tracks := next;
      var failed := Push(next, link);
      if failed {
        if OwnsPlaylist(db, user, id) {
          PushIsAccepted(db, user, id, next);
        }
        Load(reloads);
      }
      if OwnsPlaylist(db, user, id) {
        MoveAgreesExactlyWhen(db, user, id, shown, from, to, link, reloads);
        PushIsAccepted(db, user, id, next);
        SwapKeepsMembership(shown, from, to);
      }
    }

    static method Filtered(list: seq<int>, track: int) returns (next: seq<int>)
      ensures next == Without(list, track)
    {
      next := [];
      for i := 0 to |list|
        invariant Without(list, track) == next + Without(list[i..], track)
      {
        FilterOne(next, list[i..], track);
        assert list[i..][1..] == list[i + 1..];
        if list[i] != track {
          next := next + [list[i]];
        }
      }
    }

    method PushRemoval(track: int, link: Link) returns (failed: bool)
      requires Tidy(server.Rows(), id)
      modifies server
      ensures Tidy(server.Rows(), id) && Mine() == old(Mine())
      ensures server.Rows() == if link.RequestLost? then old(server.Rows()) else RemoveTrack(old(server.Rows()), user, id, track).0
      ensures failed <==> !link.Answered? || !old(Mine())
    {
      ghost var db := server.Rows();
      if OwnsPlaylist(db, user, id) {
        RemovalFilters(db, user, id, track);
      }
      if link.RequestLost? {
        return true;
      }
      var o := server.RemoveTrackFromPlaylist(id, user, track);
      failed := o != Done || link.ReplyLost?;
    }

    method RemoveAndReload(track: int, link: Link, reloads: bool)
      requires Tidy(server.Rows(), id)
      modifies this, server
      ensures Tidy(server.Rows(), id)
      ensures (server.Rows(), tracks) == AfterRemoval(old(server.Rows()), user, id, old(tracks), track, link, reloads)
    {
      var next := Filtered(tracks, track);
      tracks := next;
      var failed := PushRemoval(track, link);
      if failed {
        Load(reloads);
      }
    }

    /** Filter locally, delete the membership row, reload if that fails. */
    method Remove(track: int, link: Link, reloads: bool)
      requires Tidy(server.Rows(), id)
      modifies this, server
      ensures Tidy(server.Rows(), id)
      ensures (server.Rows(), tracks) == AfterRemoval(old(server.Rows()), user, id, old(tracks), track, link, reloads)
      // they agree exactly when
      ensures old(Mine()) ==>
        (tracks == OnServer() <==>
           || (reloads && !link.Answered?)
           || (!link.RequestLost? && Without(old(tracks), track) == Without(old(OnServer()), track))
           || (link.RequestLost? && Without(old(tracks), track) == old(OnServer())))
    {
      ghost var db, shown := server.Rows(), tracks;
      RemoveAndReload(track, link, reloads);
      if OwnsPlaylist(db, user, id) {
        RemovalAgreesExactlyWhen(db, user, id, shown, track, link, reloads);
      }
    }
  }

  // ---------------------------------------------------------------- every order is a few taps away

  /** A tap on an enabled arrow: the first row has no way up and the last no way down. */
  datatype Tap = Up(index: nat) | Down(index: nat)

  predicate Enabled(s: seq<int>, tap: Tap) {
    match tap
    case Up(i) => 0 < i < |s|
    case Down(i) => i + 1 < |s|
  }

  function Tapped(s: seq<int>, tap: Tap): (r: seq<int>)
    requires Enabled(s, tap)
    ensures |r| == |s|
  {
    match tap
    case Up(i) => Swapped(s, i, i - 1)
    case Down(i) => Swapped(s, i, i + 1)
  }

  /** ▲ exchanges a row with the one above and ▼ with the one below; either undoes the other. */
  lemma TapsExchangeNeighbours(s: seq<int>, i: nat)
    requires i + 1 < |s|
    ensures Enabled(s, Down(i)) && Enabled(s, Up(i + 1))
    ensures Tapped(s, Down(i)) == s[..i] + [s[i + 1], s[i]] + s[i + 2..]
    ensures Tapped(s, Up(i + 1)) == s[..i] + [s[i + 1], s[i]] + s[i + 2..]
    ensures Tapped(Tapped(s, Down(i)), Up(i + 1)) == s == Tapped(Tapped(s, Up(i + 1)), Down(i))
  {
  }

  predicate AllEnabled(s: seq<int>, taps: seq<Tap>)
    decreases |taps|
  {
    taps == [] || (Enabled(s, taps[0]) && AllEnabled(Tapped(s, taps[0]), taps[1..]))
  }

  function AfterTaps(s: seq<int>, taps: seq<Tap>): seq<int>
    requires AllEnabled(s, taps)
    decreases |taps|
  {
    if taps == [] then s else AfterTaps(Tapped(s, taps[0]), taps[1..])
  }

  function Below(taps: seq<Tap>): seq<Tap> {
    if taps == [] then []
    else [if taps[0].Up? then Up(taps[0].index + 1) else Down(taps[0].index + 1)] + Below(taps[1..])
  }

  lemma {:induction false} TapsBelowTheTop(x: int, s: seq<int>, taps: seq<Tap>)
    requires AllEnabled(s, taps)
    ensures AllEnabled([x] + s, Below(taps)) && AfterTaps([x] + s, Below(taps)) == [x] + AfterTaps(s, taps)
    decreases |taps|
  {
    if taps != [] {
      var lower := Below(taps)[0];
      assert Tapped([x] + s, lower) == [x] + Tapped(s, taps[0]);
      TapsBelowTheTop(x, Tapped(s, taps[0]), taps[1..]);
      assert Below(taps)[1..] == Below(taps[1..]);
    }
  }

  lemma {:induction false} TapsInSequence(s: seq<int>, a: seq<Tap>, b: seq<Tap>)
    requires AllEnabled(s, a) && AllEnabled(AfterTaps(s, a), b)
    ensures AllEnabled(s, a + b) && AfterTaps(s, a + b) == AfterTaps(AfterTaps(s, a), b)
    decreases |a|
  {
    if a == [] {
      assert a + b == b;
    } else {
      TapsInSequence(Tapped(s, a[0]), a[1..], b);
      assert (a + b)[1..] == a[1..] + b;
    }
  }

  /** One tap up, and the rest of the way is as for the row above. */
  lemma RaiseOne(s: seq<int>, k: nat)
    requires 0 < k < |s|
    ensures var t := Tapped(s, Up(k)); [t[k - 1]] + t[..k - 1] + t[k..] == [s[k]] + s[..k] + s[k + 1..]
  {
    var t := Tapped(s, Up(k));
    assert t[..k - 1] == s[..k - 1] && t[k..] == [s[k - 1]] + s[k + 1..];
    assert s[..k] == s[..k - 1] + [s[k - 1]];
  }

  lemma {:induction false} BubbleToTop(s: seq<int>, k: nat) returns (taps: seq<Tap>)
    requires k < |s|
    ensures AllEnabled(s, taps) && AfterTaps(s, taps) == [s[k]] + s[..k] + s[k + 1..]
    decreases k
  {
    if k == 0 {
      taps := [];
      assert [s[0]] + s[..0] + s[1..] == s;
    } else {
      RaiseOne(s, k);
      var rest := BubbleToTop(Tapped(s, Up(k)), k - 1);
      taps := [Up(k)] + rest;
      OneTapThen(s, Up(k), rest);
    }
  }

  lemma OneTapThen(s: seq<int>, tap: Tap, rest: seq<Tap>)
    requires Enabled(s, tap) && AllEnabled(Tapped(s, tap), rest)
    ensures AllEnabled(s, [tap] + rest) && AfterTaps(s, [tap] + rest) == AfterTaps(Tapped(s, tap), rest)
  {
    assert ([tap] + rest)[1..] == rest;
  }

  lemma Uncons(s: seq<int>)
    requires s != []
    ensures multiset(s[1..]) == multiset(s) - multiset{s[0]}
  {
    assert s == [s[0]] + s[1..];
  }

  lemma Excise(s: seq<int>, k: nat)
    requires k < |s|
    ensures multiset(s[..k] + s[k + 1..]) == multiset(s) - multiset{s[k]}
  {
    assert s == s[..k] + s[k..];
    Uncons(s[k..]);
    assert s[k..][1..] == s[k + 1..];
  }

  ghost predicate Reaches(s: seq<int>, taps: seq<Tap>, target: seq<int>) {
    AllEnabled(s, taps) && AfterTaps(s, taps) == target
  }

  lemma TopThenRest(s: seq<int>, x: int, r: seq<int>, up: seq<Tap>, rest: seq<Tap>, target: seq<int>)
    requires Reaches(s, up, [x] + r) && Reaches(r, rest, target)
    ensures Reaches(s, up + Below(rest), [x] + target)
  {
    TapsBelowTheTop(x, r, rest);
    TapsInSequence(s, up, Below(rest));
  }

  /** Where the first track of the target is now, and what is left without it. */
  lemma PickFirst(s: seq<int>, target: seq<int>) returns (k: nat, r: seq<int>)
    requires target != [] && multiset(s) == multiset(target)
    ensures k < |s| && [s[k]] + s[..k] + s[k + 1..] == [target[0]] + r
    ensures multiset(r) == multiset(target[1..])
  {
    assert target[0] in multiset(s);
    k :| 0 <= k < |s| && s[k] == target[0];
    r := s[..k] + s[k + 1..];
    Excise(s, k);
    Uncons(target);
  }

  /** Main result: from any order some run of enabled ▲/▼ taps reaches any other. */
  lemma {:induction false} EveryOrderIsReachable(s: seq<int>, target: seq<int>) returns (taps: seq<Tap>)
    requires multiset(s) == multiset(target)
    ensures Reaches(s, taps, target)
    decreases |target|
  {
    if target == [] {
      assert |s| == |multiset(s)|;
      taps := [];
    } else {
      var k, r := PickFirst(s, target);
      var up := BubbleToTop(s, k);
      var rest := EveryOrderIsReachable(r, target[1..]);
      TopThenRest(s, target[0], r, up, rest, target[1..]);
      taps := up + Below(rest);
      assert target == [target[0]] + target[1..];
    }
  }

  // ---------------------------------------------------------------- pushed tap by tap

  /** The tables after each tap has pushed the list it left. */
  ghost function Pushed(db: Db, u: int, p: int, s: seq<int>, taps: seq<Tap>): Db
    requires AllEnabled(s, taps)
    decreases |taps|
  {
    if taps == [] then db
    else Pushed(Reorder(db, u, p, Tapped(s, taps[0])).0, u, p, Tapped(s, taps[0]), taps[1..])
  }

  lemma TapKeepsMembership(s: seq<int>, tap: Tap)
    requires Enabled(s, tap)
    ensures multiset(Tapped(s, tap)) == multiset(s)
  {
  }

  lemma {:induction false} TapsReachTheServer(db: Db, u: int, p: int, s: seq<int>, taps: seq<Tap>)
    requires Tidy(db, p) && OwnsPlaylist(db, u, p) && s == ServerOrder(db, u, p) && AllEnabled(s, taps)
    ensures ServerOrder(Pushed(db, u, p, s, taps), u, p) == AfterTaps(s, taps)
    decreases |taps|
  {
    if taps != [] {
      TapKeepsMembership(s, taps[0]);
      PushIsAccepted(db, u, p, Tapped(s, taps[0]));
      TapsReachTheServer(Reorder(db, u, p, Tapped(s, taps[0])).0, u, p, Tapped(s, taps[0]), taps[1..]);
    }
  }

  /** Main result: the arrows suffice to store any order of a playlist's tracks. */
  lemma EveryOrderCanBeStored(db: Db, u: int, p: int, target: seq<int>) returns (taps: seq<Tap>)
    requires Tidy(db, p) && OwnsPlaylist(db, u, p) && multiset(target) == multiset(ServerOrder(db, u, p))
    ensures AllEnabled(ServerOrder(db, u, p), taps)
    ensures ServerOrder(Pushed(db, u, p, ServerOrder(db, u, p), taps), u, p) == target
  {
    var s := ServerOrder(db, u, p);
    taps := EveryOrderIsReachable(s, target);
    TapsReachTheServer(db, u, p, s, taps);
  }
}
