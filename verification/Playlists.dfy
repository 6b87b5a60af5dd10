/** The gapped-position tables refine a library of duplicate-free track lists, over every
    run of transactions and foreign-key cascades, and users cannot see each other. */
module Playlists {
  import opened Sequences
  import opened Tables
  import opened PlaylistSql

  // ---------------------------------------------------------------- runs

  /** One committed transaction. The last two are cascades a parent row's deletion sets off. */
  datatype Op =
    | InsertTrack(id: int, track: Track)
    | Create(user: int, id: int, name: string)
    | Rename(user: int, p: int, name: string)
    | Delete(user: int, p: int)
    | Add(user: int, p: int, t: int)
    | Remove(user: int, p: int, t: int)
    | Move(user: int, p: int, ids: seq<int>)
    | DropTrack(t: int)
    | DropUser(user: int)

  /** Row ids come out of sequences, so an insert never meets an existing id. */
  predicate FreshIds(tracks: set<int>, playlists: set<int>, op: Op) {
    (op.InsertTrack? ==> op.id !in tracks) && (op.Create? ==> op.id !in playlists)
  }

  ghost function Apply(db: Db, op: Op): (Db, Outcome) {
    match op
    case InsertTrack(id, track) => (db.(tracks := db.tracks[id := track]), Done)
    case Create(u, id, name) => (CreatePlaylist(db, u, id, name), Done)
    case Rename(u, p, name) => RenamePlaylist(db, u, p, name)
    case Delete(u, p) => DeletePlaylist(db, u, p)
    case Add(u, p, t) => AddTrack(db, u, p, t)
    case Remove(u, p, t) => RemoveTrack(db, u, p, t)
    case Move(u, p, ids) => Reorder(db, u, p, ids)
    case DropTrack(t) => (PlaylistSql.DropTrack(db, t), Done)
    case DropUser(u) => (PlaylistSql.DropUser(db, u), Done)
  }

  /** Foreign keys hold, and a row links a playlist and a track of one owner. */
  ghost predicate Sound(db: Db) {
    forall k: (int, int) :: k in db.entries ==> Linked(db, k)
  }

  ghost predicate Linked(db: Db, k: (int, int)) {
    k.0 in db.playlists && k.1 in db.tracks && db.playlists[k.0].owner == db.tracks[k.1].owner
  }

  // ---------------------------------------------------------------- the library users think of

  datatype List = List(owner: int, name: string, order: seq<int>)
  datatype Library = Library(tracks: map<int, Track>, lists: map<int, List>)

  predicate Owns(lib: Library, u: int, p: int) {
    p in lib.lists && lib.lists[p].owner == u
  }

  function Edit(lib: Library, p: int, order: seq<int>): Library
    requires p in lib.lists
  {
    lib.(lists := lib.lists[p := lib.lists[p].(order := order)])
  }

  ghost function RenameList(lib: Library, u: int, p: int, name: string): (Library, Outcome) {
    if Owns(lib, u, p) then (lib.(lists := lib.lists[p := lib.lists[p].(name := name)]), Done) else (lib, NoRows)
  }

  ghost function DeleteList(lib: Library, u: int, p: int): (Library, Outcome) {
    if Owns(lib, u, p) then (lib.(lists := lib.lists - {p}), Done) else (lib, NoRows)
  }

  /** Add appends, if absent. */
  ghost function Append(lib: Library, u: int, p: int, t: int): (Library, Outcome) {
    if !Owns(lib, u, p) || t !in lib.tracks || lib.tracks[t].owner != u then (lib, NoRows)
    else if t in lib.lists[p].order then (lib, Done)
    else (Edit(lib, p, lib.lists[p].order + [t]), Done)
  }

  /** Remove filters. */
  ghost function Filter(lib: Library, u: int, p: int, t: int): (Library, Outcome) {
    if Owns(lib, u, p) then (Edit(lib, p, Without(lib.lists[p].order, t)), Done) else (lib, NoRows)
  }

  /** Reorder replaces the list by a permutation of it, and takes nothing else. */
  ghost function Permute(lib: Library, u: int, p: int, ids: seq<int>): (Library, Outcome) {
    if !Owns(lib, u, p) then (lib, NoRows)
    else if multiset(ids) == multiset(lib.lists[p].order) then (Edit(lib, p, ids), Done)
    else (lib, Mismatch)
  }

  ghost function FilterAll(lib: Library, t: int): Library {
    Library(lib.tracks - {t}, map p | p in lib.lists :: lib.lists[p].(order := Without(lib.lists[p].order, t)))
  }

  ghost function ForgetUser(lib: Library, u: int): Library {
    Library(map t | t in lib.tracks && lib.tracks[t].owner != u :: lib.tracks[t],
            map p | p in lib.lists && lib.lists[p].owner != u :: lib.lists[p])
  }

  ghost function Perform(lib: Library, op: Op): (Library, Outcome) {
    match op
    case InsertTrack(id, track) => (lib.(tracks := lib.tracks[id := track]), Done)
    case Create(u, id, name) => (lib.(lists := lib.lists[id := List(u, name, [])]), Done)
    case Rename(u, p, name) => RenameList(lib, u, p, name)
    case Delete(u, p) => DeleteList(lib, u, p)
    case Add(u, p, t) => Append(lib, u, p, t)
    case Remove(u, p, t) => Filter(lib, u, p, t)
    case Move(u, p, ids) => Permute(lib, u, p, ids)
    case DropTrack(t) => (FilterAll(lib, t), Done)
    case DropUser(u) => (ForgetUser(lib, u), Done)
  }

  /** The library the tables show: each list is the ORDER BY position view of its rows,
      which are pairwise apart. */
  ghost predicate Shows(db: Db, lib: Library) {
    && lib.tracks == db.tracks
    && lib.lists.Keys == db.playlists.Keys
    && forall p :: p in lib.lists ==> ShowsList(db, p, lib.lists[p])
  }

  ghost predicate ShowsList(db: Db, p: int, l: List) {
    p in db.playlists && db.playlists[p] == Playlist(l.owner, l.name) && Orders(Members(db.entries, p), l.order)
  }

  /** What showing a list means: distinct positions, the view in order, the count. */
  lemma ShownList(db: Db, lib: Library, p: int)
    requires Shows(db, lib) && p in lib.lists
    ensures Distinct(Members(db.entries, p)) && NoDup(lib.lists[p].order)
    ensures ByPosition(Members(db.entries, p)) == lib.lists[p].order
    ensures GetPlaylist(db, lib.lists[p].owner, p) == Some(Info(lib.lists[p].name, |lib.lists[p].order|))
  {
    assert ShowsList(db, p, lib.lists[p]);
    ByPositionIs(Members(db.entries, p), lib.lists[p].order);
  }

  // ---------------------------------------------------------------- reorder accepts exactly the permutations

  lemma {:induction false} Pigeonhole(s: seq<int>, elems: set<int>)
    requires NoDup(s) && |s| == |elems| && forall i :: 0 <= i < |s| ==> s[i] in elems
    ensures forall t :: t in elems ==> t in s
    decreases |s|
  {
    if s != [] {
      assert forall i :: 0 <= i < |s[1..]| ==> s[1..][i] == s[i + 1];
      var rest := elems - {s[0]};
      Pigeonhole(s[1..], rest);
      assert forall t :: t in elems ==> t == s[0] || t in rest;
    }
  }

  /** Main result: the length test and the seen/current loop let through exactly the
      permutations of the current view. */
  lemma AcceptsPermutations(m: map<int, int>, s: seq<int>, ids: seq<int>)
    requires Orders(m, s)
    ensures Accepts(m, ids) <==> multiset(ids) == multiset(s)
  {
    ByPositionIs(m, s);
    if Accepts(m, ids) {
      Pigeonhole(ids, m.Keys);
      forall x
        ensures multiset(ids)[x] == multiset(s)[x]
      {
        CountInNoDup(ids, x);
        CountInNoDup(s, x);
      }
    }
    if multiset(ids) == multiset(s) {
      SamePermutationNoDup(s, ids);
      SameElements(ids, s);
      assert forall i :: 0 <= i < |ids| ==> ids[i] in s;
    }
  }

  lemma {:induction false} RenumberedRows(entries: map<(int, int), int>, p: int, ids: seq<int>, n: nat)
    requires n <= |ids| && NoDup(ids) && forall i :: 0 <= i < |ids| ==> (p, ids[i]) in entries
    ensures var after := Renumbered(entries, p, ids, n);
      && after.Keys == entries.Keys
      && (forall i :: 0 <= i < n ==> after[(p, ids[i])] == i)
      && (forall k :: k in entries && k.0 != p ==> after[k] == entries[k])
  {
    if 0 < n {
      RenumberedRows(entries, p, ids, n - 1);
    }
  }

  /** Main result: an accepted reorder leaves positions 0..n-1 in the order asked for. */
  lemma RenumberingSetsOrder(entries: map<(int, int), int>, p: int, ids: seq<int>)
    requires Accepts(Members(entries, p), ids)
    ensures var m := Members(Renumbered(entries, p, ids, |ids|), p);
      Orders(m, ids) && forall i :: 0 <= i < |ids| ==> ids[i] in m && m[ids[i]] == i
    ensures Renumbered(entries, p, ids, |ids|).Keys == entries.Keys
    ensures forall k :: k in entries && k.0 != p ==> Renumbered(entries, p, ids, |ids|)[k] == entries[k]
  {
    var m := Members(entries, p);
    RenumberedRows(entries, p, ids, |ids|);
    var after := Renumbered(entries, p, ids, |ids|);
    var m' := Members(after, p);
    Pigeonhole(ids, m.Keys);
    assert forall i :: 0 <= i < |ids| ==> ids[i] in m' && m'[ids[i]] == i;
    assert forall t :: t in m' ==> t in m.Keys;
    assert Orders(m', ids);
  }

  // ---------------------------------------------------------------- one step

  lemma SameRows(a: map<(int, int), int>, b: map<(int, int), int>, q: int)
    requires forall t :: (q, t) in a <==> (q, t) in b
    requires forall t :: (q, t) in a ==> a[(q, t)] == b[(q, t)]
    ensures Members(a, q) == Members(b, q)
  {
  }

  /** A transaction and its counterpart leave matching states and give the same answer. */
  ghost predicate Agree(a: (Db, Outcome), b: (Library, Outcome)) {
    Sound(a.0) && Shows(a.0, b.0) && a.1 == b.1
  }

  /** A transaction that only touches the rows of one playlist edits one list. */
  lemma EditOne(db: Db, lib: Library, after: map<(int, int), int>, p: int, order: seq<int>)
    requires Shows(db, lib) && p in db.playlists
    requires forall k: (int, int) :: k.0 != p ==> (k in after <==> k in db.entries) && (k in after ==> after[k] == db.entries[k])
    requires Orders(Members(after, p), order)
    ensures Shows(db.(entries := after), Edit(lib, p, order))
  {
    var db' := db.(entries := after);
    var lib' := Edit(lib, p, order);
    forall q | q in lib'.lists
      ensures ShowsList(db', q, lib'.lists[q])
    {
      assert ShowsList(db, q, lib.lists[q]);
      if q != p {
        SameRows(after, db.entries, q);
      }
    }
  }

  /** A list whose playlist row and track rows are untouched is still shown. */
  lemma SurvivingList(db: Db, db': Db, q: int, l: List)
    requires ShowsList(db, q, l) && q in db'.playlists && db'.playlists[q] == db.playlists[q]
    requires forall t :: (q, t) in db'.entries <==> (q, t) in db.entries
    requires forall t :: (q, t) in db'.entries ==> db'.entries[(q, t)] == db.entries[(q, t)]
    ensures ShowsList(db', q, l)
  {
    SameRows(db'.entries, db.entries, q);
  }

  lemma MembersAfterAdd(entries: map<(int, int), int>, p: int, t: int, n: int)
    ensures Members(entries[(p, t) := n], p) == Members(entries, p)[t := n]
  {
  }

  lemma RowsAfterAdd(entries: map<(int, int), int>, p: int, s: seq<int>, t: int, n: int)
    requires Orders(Members(entries, p), s) && t !in Members(entries, p)
    requires forall u :: u in Members(entries, p) ==> Members(entries, p)[u] < n
    ensures Orders(Members(entries[(p, t) := n], p), s + [t])
  {
    AppendMovesView(Members(entries, p), s, t, n);
    MembersAfterAdd(entries, p, t, n);
  }

  lemma RowsAfterRemoval(entries: map<(int, int), int>, after: map<(int, int), int>, p: int, s: seq<int>, t: int)
    requires Orders(Members(entries, p), s)
    requires forall u :: (p, u) in after <==> (p, u) in entries && u != t
    requires forall u :: (p, u) in after ==> after[(p, u)] == entries[(p, u)]
    ensures Orders(Members(after, p), Without(s, t))
  {
    RemovalMovesView(Members(entries, p), s, t);
    assert Members(after, p) == Members(entries, p) - {t};
  }

  lemma StillSound(db: Db, after: map<(int, int), int>)
    requires forall k :: k in after ==> Linked(db, k)
    ensures Sound(db.(entries := after))
  {
    forall k: (int, int) | k in after
      ensures Linked(db.(entries := after), k)
    {
      assert Linked(db, k);
    }
  }

  /** The end of the list, from the rows' side and the list's side. */
  lemma AppendOne(db: Db, lib: Library, p: int, t: int, n: int)
    requires Sound(db) && Shows(db, lib) && Linked(db, (p, t)) && (p, t) !in db.entries
    requires forall u :: (p, u) in db.entries ==> db.entries[(p, u)] < n
    ensures Sound(db.(entries := db.entries[(p, t) := n]))
    ensures Shows(db.(entries := db.entries[(p, t) := n]), Edit(lib, p, lib.lists[p].order + [t]))
  {
    StillSound(db, db.entries[(p, t) := n]);
    assert ShowsList(db, p, lib.lists[p]);
    RowsAfterAdd(db.entries, p, lib.lists[p].order, t, n);
    EditOne(db, lib, db.entries[(p, t) := n], p, lib.lists[p].order + [t]);
  }

  lemma NextPositionIsFree(entries: map<(int, int), int>, p: int)
    ensures forall u :: (p, u) in entries ==> entries[(p, u)] < NextPosition(Members(entries, p))
  {
    var m := Members(entries, p);
    assert forall u :: (p, u) in entries ==> u in m && m[u] == entries[(p, u)];
  }

  lemma ListedIsMember(db: Db, p: int, l: List, t: int)
    requires ShowsList(db, p, l)
    ensures t in l.order <==> (p, t) in db.entries
  {
    assert t in Members(db.entries, p) <==> (p, t) in db.entries;
  }

  lemma AddNew(db: Db, lib: Library, u: int, p: int, t: int)
    requires Sound(db) && Shows(db, lib)
    requires OwnsPlaylist(db, u, p) && OwnsTrack(db, u, t) && (p, t) !in db.entries
    ensures p in lib.lists
    ensures Agree(AddTrack(db, u, p, t), (Edit(lib, p, lib.lists[p].order + [t]), Done))
  {
    NextPositionIsFree(db.entries, p);
    AppendOne(db, lib, p, t, NextPosition(Members(db.entries, p)));
  }

  lemma SameOwner(db: Db, lib: Library, u: int, p: int)
    requires Shows(db, lib)
    ensures OwnsPlaylist(db, u, p) <==> Owns(lib, u, p)
  {
    if p in lib.lists {
      assert ShowsList(db, p, lib.lists[p]);
    }
  }

  lemma AddStep(db: Db, lib: Library, u: int, p: int, t: int)
    requires Sound(db) && Shows(db, lib)
    ensures Agree(AddTrack(db, u, p, t), Append(lib, u, p, t))
  {
    SameOwner(db, lib, u, p);
    if OwnsPlaylist(db, u, p) && OwnsTrack(db, u, t) {
      assert ShowsList(db, p, lib.lists[p]);
      ListedIsMember(db, p, lib.lists[p], t);
      if (p, t) !in db.entries {
        AddNew(db, lib, u, p, t);
      }
    }
  }

  lemma RemoveStep(db: Db, lib: Library, u: int, p: int, t: int)
    requires Sound(db) && Shows(db, lib)
    ensures Agree(RemoveTrack(db, u, p, t), Filter(lib, u, p, t))
  {
    if Owns(lib, u, p) {
      assert ShowsList(db, p, lib.lists[p]);
      var s, after := lib.lists[p].order, RemoveTrack(db, u, p, t).0.entries;
      RowsAfterRemoval(db.entries, after, p, s, t);
      EditOne(db, lib, after, p, Without(s, t));
    }
  }

  lemma ReplaceOne(db: Db, lib: Library, p: int, ids: seq<int>)
    requires Sound(db) && Shows(db, lib) && p in lib.lists && Accepts(Members(db.entries, p), ids)
    ensures var db' := db.(entries := Renumbered(db.entries, p, ids, |ids|));
      Sound(db') && Shows(db', Edit(lib, p, ids))
  {
    RenumberingSetsOrder(db.entries, p, ids);
    var after := Renumbered(db.entries, p, ids, |ids|);
    assert forall k :: k in after ==> k in db.entries.Keys;
    StillSound(db, after);
    EditOne(db, lib, after, p, ids);
  }

  lemma MoveStep(db: Db, lib: Library, u: int, p: int, ids: seq<int>)
    requires Sound(db) && Shows(db, lib)
    ensures Agree(Reorder(db, u, p, ids), Permute(lib, u, p, ids))
  {
    if p in lib.lists {
      assert ShowsList(db, p, lib.lists[p]);
      AcceptsPermutations(Members(db.entries, p), lib.lists[p].order, ids);
      if Accepts(Members(db.entries, p), ids) {
        ReplaceOne(db, lib, p, ids);
      }
    }
  }

  /** Every list that survives keeps its rows: the lists that do survive are shown as before. */
  lemma DeleteStep(db: Db, lib: Library, u: int, p: int)
    requires Sound(db) && Shows(db, lib)
    ensures Agree(DeletePlaylist(db, u, p), DeleteList(lib, u, p))
  {
    var (db', o) := DeletePlaylist(db, u, p);
    assert p in lib.lists ==> ShowsList(db, p, lib.lists[p]);
    if o == Done {
      forall q | q in lib.lists && q != p
        ensures ShowsList(db', q, lib.lists[q])
      {
        assert ShowsList(db, q, lib.lists[q]);
        SurvivingList(db, db', q, lib.lists[q]);
      }
    }
  }

  lemma NewPlaylistIsEmpty(db: Db, u: int, id: int, name: string)
    requires Sound(db) && id !in db.playlists
    ensures ShowsList(CreatePlaylist(db, u, id, name), id, List(u, name, []))
  {
    assert forall t :: t in Members(db.entries, id) ==> Linked(db, (id, t));
  }

  lemma CreateStep(db: Db, lib: Library, u: int, id: int, name: string)
    requires Sound(db) && Shows(db, lib) && id !in db.playlists
    ensures Agree((CreatePlaylist(db, u, id, name), Done), Perform(lib, Create(u, id, name)))
  {
    var db' := CreatePlaylist(db, u, id, name);
    NewPlaylistIsEmpty(db, u, id, name);
    forall q | q in lib.lists
      ensures ShowsList(db', q, lib.lists[q])
    {
      assert ShowsList(db, q, lib.lists[q]);
      SurvivingList(db, db', q, lib.lists[q]);
    }
  }

  lemma RenameStep(db: Db, lib: Library, u: int, p: int, name: string)
    requires Sound(db) && Shows(db, lib)
    ensures Agree(RenamePlaylist(db, u, p, name), RenameList(lib, u, p, name))
  {
    var db' := RenamePlaylist(db, u, p, name).0;
    forall q | q in lib.lists
      ensures q == p && Owns(lib, u, p) ==> ShowsList(db', q, lib.lists[q].(name := name))
      ensures !(q == p && Owns(lib, u, p)) ==> ShowsList(db', q, lib.lists[q])
    {
      assert ShowsList(db, q, lib.lists[q]);
      if q != p {
        SurvivingList(db, db', q, lib.lists[q]);
      }
    }
  }

  /** All of `t`'s rows are gone, from every playlist, and nothing else is. */
  lemma ListWithoutTrack(db: Db, after: map<(int, int), int>, q: int, l: List, t: int)
    requires ShowsList(db, q, l)
    requires forall k: (int, int) :: k in after <==> k in db.entries && k.1 != t
    requires forall k: (int, int) :: k in after ==> after[k] == db.entries[k]
    ensures Orders(Members(after, q), Without(l.order, t))
  {
    RowsAfterRemoval(db.entries, after, q, l.order, t);
  }

  lemma DropTrackShows(db: Db, lib: Library, t: int, q: int)
    requires Shows(db, lib) && q in lib.lists
    ensures ShowsList(PlaylistSql.DropTrack(db, t), q, FilterAll(lib, t).lists[q])
  {
    assert ShowsList(db, q, lib.lists[q]);
    ListWithoutTrack(db, PlaylistSql.DropTrack(db, t).entries, q, lib.lists[q], t);
  }

  lemma DropTrackSound(db: Db, t: int)
    requires Sound(db)
    ensures Sound(PlaylistSql.DropTrack(db, t))
  {
    var db' := PlaylistSql.DropTrack(db, t);
    forall k: (int, int) | k in db'.entries
      ensures Linked(db', k)
    {
      assert Linked(db, k);
    }
  }

  lemma DropTrackStep(db: Db, lib: Library, t: int)
    requires Sound(db) && Shows(db, lib)
    ensures Agree((PlaylistSql.DropTrack(db, t), Done), (FilterAll(lib, t), Done))
  {
    var db', lib' := PlaylistSql.DropTrack(db, t), FilterAll(lib, t);
    DropTrackSound(db, t);
    assert lib'.lists.Keys == lib.lists.Keys;
    forall q | q in lib'.lists
      ensures ShowsList(db', q, lib'.lists[q])
    {
      DropTrackShows(db, lib, t, q);
    }
  }

  /** The rows of another user's playlist never name a track of the deleted user. */
  lemma OthersRowsSurvive(db: Db, u: int, q: int)
    requires Sound(db) && q in db.playlists && db.playlists[q].owner != u
    ensures var db' := PlaylistSql.DropUser(db, u);
      && (forall t :: (q, t) in db'.entries <==> (q, t) in db.entries)
      && (forall t :: (q, t) in db'.entries ==> db'.entries[(q, t)] == db.entries[(q, t)])
  {
    assert forall t :: (q, t) in db.entries ==> Linked(db, (q, t));
  }

  lemma DropUserSound(db: Db, u: int)
    requires Sound(db)
    ensures Sound(PlaylistSql.DropUser(db, u))
  {
    var db' := PlaylistSql.DropUser(db, u);
    forall k: (int, int) | k in db'.entries
      ensures Linked(db', k)
    {
      assert Linked(db, k);
    }
  }

  lemma DropUserShows(db: Db, lib: Library, u: int, q: int)
    requires Sound(db) && Shows(db, lib) && q in ForgetUser(lib, u).lists
    ensures ShowsList(PlaylistSql.DropUser(db, u), q, lib.lists[q])
  {
    assert ShowsList(db, q, lib.lists[q]);
    OthersRowsSurvive(db, u, q);
    SurvivingList(db, PlaylistSql.DropUser(db, u), q, lib.lists[q]);
  }

  lemma DropUserKeys(db: Db, lib: Library, u: int)
    requires Shows(db, lib)
    ensures ForgetUser(lib, u).lists.Keys == PlaylistSql.DropUser(db, u).playlists.Keys
  {
    forall q | q in lib.lists
      ensures lib.lists[q].owner == db.playlists[q].owner
    {
      assert ShowsList(db, q, lib.lists[q]);
    }
  }

  lemma DropUserStep(db: Db, lib: Library, u: int)
    requires Sound(db) && Shows(db, lib)
    ensures Agree((PlaylistSql.DropUser(db, u), Done), (ForgetUser(lib, u), Done))
  {
    DropUserSound(db, u);
    DropUserKeys(db, lib, u);
    forall q | q in ForgetUser(lib, u).lists
      ensures ShowsList(PlaylistSql.DropUser(db, u), q, lib.lists[q])
    {
      DropUserShows(db, lib, u, q);
    }
  }

  lemma InsertStep(db: Db, lib: Library, id: int, track: Track)
    requires Sound(db) && Shows(db, lib) && id !in db.tracks
    ensures Agree(Apply(db, InsertTrack(id, track)), Perform(lib, InsertTrack(id, track)))
  {
    assert forall q :: q in lib.lists ==> ShowsList(db, q, lib.lists[q]);
  }

  lemma StepRefines(db: Db, lib: Library, op: Op)
    requires Sound(db) && Shows(db, lib) && FreshIds(db.tracks.Keys, db.playlists.Keys, op)
    ensures Agree(Apply(db, op), Perform(lib, op))
  {
    match op
    case InsertTrack(id, track) => InsertStep(db, lib, id, track);
    case Create(u, id, name) => CreateStep(db, lib, u, id, name);
    case Rename(u, p, name) => RenameStep(db, lib, u, p, name);
    case Delete(u, p) => DeleteStep(db, lib, u, p);
    case Add(u, p, t) => AddStep(db, lib, u, p, t);
    case Remove(u, p, t) => RemoveStep(db, lib, u, p, t);
    case Move(u, p, ids) => MoveStep(db, lib, u, p, ids);
    case DropTrack(t) => DropTrackStep(db, lib, t);
    case DropUser(u) => DropUserStep(db, lib, u);
  }

  // ---------------------------------------------------------------- every run

  ghost function Run(db: Db, ops: seq<Op>): Db
    decreases |ops|
  {
    if ops == [] then db else Run(Apply(db, ops[0]).0, ops[1..])
  }

  ghost function Outcomes(db: Db, ops: seq<Op>): seq<Outcome>
    decreases |ops|
  {
    if ops == [] then [] else [Apply(db, ops[0]).1] + Outcomes(Apply(db, ops[0]).0, ops[1..])
  }

  ghost function LibraryRun(lib: Library, ops: seq<Op>): Library
    decreases |ops|
  {
    if ops == [] then lib else LibraryRun(Perform(lib, ops[0]).0, ops[1..])
  }

  ghost function LibraryOutcomes(lib: Library, ops: seq<Op>): seq<Outcome>
    decreases |ops|
  {
    if ops == [] then [] else [Perform(lib, ops[0]).1] + LibraryOutcomes(Perform(lib, ops[0]).0, ops[1..])
  }

  /** Every insert along the run gets a fresh id. */
  ghost predicate Legal(db: Db, ops: seq<Op>)
    decreases |ops|
  {
    ops == [] ||
    (FreshIds(db.tracks.Keys, db.playlists.Keys, ops[0]) && Legal(Apply(db, ops[0]).0, ops[1..]))
  }

  /** Main result: every run of the tables is a run of the library, answer for answer. */
  lemma {:induction false} RunRefines(db: Db, lib: Library, ops: seq<Op>)
    requires Sound(db) && Shows(db, lib) && Legal(db, ops)
    ensures Sound(Run(db, ops))
    ensures Shows(Run(db, ops), LibraryRun(lib, ops))
    ensures Outcomes(db, ops) == LibraryOutcomes(lib, ops)
    decreases |ops|
  {
    if ops != [] {
      StepRefines(db, lib, ops[0]);
      RunRefines(Apply(db, ops[0]).0, Perform(lib, ops[0]).0, ops[1..]);
    }
  }

  lemma FromScratch(ops: seq<Op>)
    requires Legal(EMPTY, ops)
    ensures Sound(Run(EMPTY, ops))
    ensures Shows(Run(EMPTY, ops), LibraryRun(Library(map[], map[]), ops))
    ensures Outcomes(EMPTY, ops) == LibraryOutcomes(Library(map[], map[]), ops)
  {
    RunRefines(EMPTY, Library(map[], map[]), ops);
  }
}
