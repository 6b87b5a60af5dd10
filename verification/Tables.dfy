/** The rows of the music library (server/migrations/003, 004, 005, 007 and 008) and the
    facts about sequences and position columns the stores build on. */
module Tables {
  import opened Sequences

  datatype Option<+T> = None | Some(value: T)

  datatype Track = Track(
    owner: int,
    storageKey: string,
    mimeType: string,
    originalFilename: string,
    size: int,
    title: string,
    artist: string,
    album: string,
    albumArtist: string,
    trackNumber: Option<int>,
    artworkExt: Option<string>)

  datatype Row = Row(id: int, track: Track)

  datatype Playlist = Playlist(owner: int, name: string)

  /** playlist_tracks is keyed by (playlist_id, track_id) and holds the position. */
  datatype Db = Db(
    tracks: map<int, Track>,
    playlists: map<int, Playlist>,
    entries: map<(int, int), int>)

  const EMPTY := Db(map[], map[], map[])

  /** The playlist_tracks rows of one playlist: track id to position. */
  function Members(entries: map<(int, int), int>, p: int): (m: map<int, int>)
    ensures forall t :: t in m <==> (p, t) in entries
    ensures forall t :: t in m ==> m[t] == entries[(p, t)]
  {
    map k | k in entries && k.0 == p :: k.1 := entries[k]
  }

  function Without(s: seq<int>, x: int): seq<int> {
    if s == [] then [] else (if s[0] == x then [] else [s[0]]) + Without(s[1..], x)
  }

  lemma WithoutMembers(s: seq<int>, x: int)
    ensures forall y :: y in Without(s, x) <==> y in s && y != x
  {
  }

  // ---------------------------------------------------------------- ORDER BY position

  ghost predicate Distinct(m: map<int, int>) {
    forall t, u :: t in m && u in m && t != u ==> m[t] != m[u]
  }

  ghost predicate Inhabited(m: map<int, int>) {
    exists t :: t in m
  }

  lemma {:induction false} SomeoneIsFirst(m: map<int, int>)
    requires Inhabited(m)
    ensures exists t :: t in m && forall u :: u in m ==> m[t] <= m[u]
    decreases |m|
  {
    var x :| x in m;
    var rest := m - {x};
    assert forall u :: u in m ==> u == x || u in rest;
    if !Inhabited(rest) {
      assert forall u :: u in m ==> m[x] <= m[u];
    } else {
      SomeoneIsFirst(rest);
      var y :| y in rest && forall u :: u in rest ==> rest[y] <= rest[u];
      var t := if m[x] <= m[y] then x else y;
      assert t in m && forall u :: u in m ==> m[t] <= m[u];
    }
  }

  /** SELECT track_id ... ORDER BY position; ties come out in no particular order. */
  ghost function ByPosition(m: map<int, int>): seq<int>
    decreases |m|
  {
    if !Inhabited(m) then []
    else
      SomeoneIsFirst(m);
      var t :| t in m && forall u :: u in m ==> m[t] <= m[u];
      [t] + ByPosition(m - {t})
  }

  ghost predicate Increasing(m: map<int, int>, s: seq<int>) {
    && (forall i :: 0 <= i < |s| ==> s[i] in m)
    && (forall i, j :: 0 <= i < j < |s| ==> m[s[i]] < m[s[j]])
  }

  /** `s` lists exactly the keys of `m`, in strictly increasing position. */
  ghost predicate Orders(m: map<int, int>, s: seq<int>) {
    Increasing(m, s) && forall t :: t in m ==> t in s
  }

  lemma PrependFirst(m: map<int, int>, t: int, r: seq<int>)
    requires Distinct(m) && t in m && (forall u :: u in m ==> m[t] <= m[u])
    requires Orders(m - {t}, r)
    ensures Orders(m, [t] + r)
  {
    var s := [t] + r;
    assert forall i :: 0 < i < |s| ==> s[i] == r[i - 1] && s[i] in m - {t};
    forall u | u in m
      ensures u in s
    {
      if u != t {
        assert u in m - {t};
      }
    }
  }

  lemma {:induction false} ByPositionOrders(m: map<int, int>)
    requires Distinct(m)
    ensures Orders(m, ByPosition(m))
    decreases |m|
  {
    if Inhabited(m) {
      var t := ByPosition(m)[0];
      ByPositionOrders(m - {t});
      PrependFirst(m, t, ByPosition(m - {t}));
    }
  }

  lemma SameFirst(m: map<int, int>, s: seq<int>, r: seq<int>)
    requires Orders(m, s) && Orders(m, r) && s != []
    ensures r != [] && r[0] == s[0]
  {
    assert s[0] in m;
    var k :| 0 <= k < |r| && r[k] == s[0];
    assert r[0] in m;
    var l :| 0 <= l < |s| && s[l] == r[0];
    assert m[r[0]] <= m[r[k]] && m[s[0]] <= m[s[l]];
  }

  lemma BothHaveRows(m: map<int, int>, s: seq<int>, r: seq<int>)
    requires Orders(m, s) && Orders(m, r) && r != []
    ensures s != []
  {
    var t := r[0];
    assert t in m;
  }

  lemma {:induction false} OrderIsUnique(m: map<int, int>, s: seq<int>, r: seq<int>)
    requires Orders(m, s) && Orders(m, r)
    ensures s == r
    decreases |s|
  {
    if s != [] || r != [] {
      if r != [] {
        BothHaveRows(m, s, r);
      }
      SameFirst(m, s, r);
      TailOrders(m, s);
      TailOrders(m, r);
      OrderIsUnique(m - {s[0]}, s[1..], r[1..]);
      SameSeq(s, r);
    }
  }

  lemma SameSeq(s: seq<int>, r: seq<int>)
    requires s != [] && r != [] && s[0] == r[0] && s[1..] == r[1..]
    ensures s == r
  {
    assert s == [s[0]] + s[1..] && r == [r[0]] + r[1..];
  }

  lemma TailOrders(m: map<int, int>, s: seq<int>)
    requires Orders(m, s) && s != []
    ensures Orders(m - {s[0]}, s[1..])
  {
    var rest := m - {s[0]};
    assert forall i :: 0 <= i < |s[1..]| ==> s[1..][i] == s[i + 1] && m[s[0]] < m[s[i + 1]];
    forall t | t in rest
      ensures t in s[1..]
    {
      var k :| 0 <= k < |s| && s[k] == t;
      assert s[1..][k - 1] == t;
    }
  }

  /** The view is the one sequence that lists the rows in position order. */
  lemma ByPositionIs(m: map<int, int>, s: seq<int>)
    requires Orders(m, s)
    ensures Distinct(m) && ByPosition(m) == s && NoDup(s) && |s| == |m|
  {
    forall t, u | t in m && u in m && t != u
      ensures m[t] != m[u]
    {
      var i :| 0 <= i < |s| && s[i] == t;
      var j :| 0 <= j < |s| && s[j] == u;
      if i < j { assert m[s[i]] < m[s[j]]; } else { assert m[s[j]] < m[s[i]]; }
    }
    ByPositionOrders(m);
    OrderIsUnique(m, s, ByPosition(m));
    forall i, j | 0 <= i < j < |s|
      ensures s[i] != s[j]
    {
      assert m[s[i]] < m[s[j]];
    }
    CardinalityOfNoDup(s, m.Keys);
  }

  lemma {:induction false} CardinalityOfNoDup(s: seq<int>, elems: set<int>)
    requires NoDup(s)
    requires forall i :: 0 <= i < |s| ==> s[i] in elems
    requires forall t :: t in elems ==> t in s
    ensures |s| == |elems|
    decreases |s|
  {
    if s == [] {
      assert forall t :: t !in elems;
      assert elems == {};
    } else {
      var rest := elems - {s[0]};
      assert forall i :: 0 <= i < |s[1..]| ==> s[1..][i] == s[i + 1];
      forall t | t in rest
        ensures t in s[1..]
      {
        var k :| 0 <= k < |s| && s[k] == t;
        assert s[1..][k - 1] == t;
      }
      CardinalityOfNoDup(s[1..], rest);
      assert elems == rest + {s[0]};
    }
  }

  /** Any order ORDER BY position may give: each key once, positions never falling. */
  ghost predicate InSomeOrder(m: map<int, int>, s: seq<int>) {
    && NoDup(s)
    && (forall t :: t in s <==> t in m)
    && (forall i, j :: 0 <= i < j < |s| ==> s[i] in m && s[j] in m && m[s[i]] <= m[s[j]])
  }

  /** Without ties there is just one. */
  lemma ListingIsView(m: map<int, int>, s: seq<int>)
    requires InSomeOrder(m, s) && Distinct(m)
    ensures s == ByPosition(m)
  {
    forall i | 0 <= i < |s|
      ensures s[i] in m
    {
      var t := s[i];
      assert t in s;
    }
    forall i, j | 0 <= i < j < |s|
      ensures m[s[i]] < m[s[j]]
    {
      var t, u := s[i], s[j];
      assert t != u && t in m && u in m;
    }
    ByPositionIs(m, s);
  }

  // ---------------------------------------------------------------- how edits move the view

  lemma {:induction false} SomeoneIsLast(m: map<int, int>)
    requires Inhabited(m)
    ensures exists t :: t in m && forall u :: u in m ==> m[u] <= m[t]
    decreases |m|
  {
    var x :| x in m;
    var rest := m - {x};
    assert forall u :: u in m ==> u == x || u in rest;
    if !Inhabited(rest) {
      assert forall u :: u in m ==> m[u] <= m[x];
    } else {
      SomeoneIsLast(rest);
      var y :| y in rest && forall u :: u in rest ==> rest[u] <= rest[y];
      var t := if m[y] <= m[x] then x else y;
      assert t in m && forall u :: u in m ==> m[u] <= m[t];
    }
  }

  /** COALESCE(MAX(position) + 1, 0) */
  ghost function NextPosition(m: map<int, int>): (n: int)
    ensures !Inhabited(m) ==> n == 0
    ensures Inhabited(m) ==> exists t :: t in m && n == m[t] + 1
    ensures forall t :: t in m ==> m[t] < n
  {
    if !Inhabited(m) then 0
    else
      SomeoneIsLast(m);
      var t :| t in m && forall u :: u in m ==> m[u] <= m[t];
      m[t] + 1
  }

  lemma AppendMovesView(m: map<int, int>, s: seq<int>, t: int, n: int)
    requires Orders(m, s) && t !in m && forall u :: u in m ==> m[u] < n
    ensures Orders(m[t := n], s + [t])
  {
    var s' := s + [t];
    assert forall i :: 0 <= i < |s| ==> s'[i] == s[i] && s[i] in m;
    assert forall u :: u in s' <==> u in s || u == t;
  }

  lemma {:induction false} WithoutKeepsOrder(m: map<int, int>, s: seq<int>, x: int)
    requires Increasing(m, s)
    ensures Increasing(m, Without(s, x))
    ensures forall i :: 0 <= i < |Without(s, x)| ==> Without(s, x)[i] in s
  {
    if s != [] {
      assert forall i :: 0 <= i < |s[1..]| ==> s[1..][i] == s[i + 1];
      WithoutKeepsOrder(m, s[1..], x);
      var q := Without(s[1..], x);
      forall i | 0 <= i < |q|
        ensures m[s[0]] < m[q[i]]
      {
        var k :| 0 <= k < |s[1..]| && s[1..][k] == q[i];
        assert m[s[0]] < m[s[k + 1]];
      }
      assert Without(s, x) == (if s[0] == x then [] else [s[0]]) + q;
    }
  }

  lemma RemovalMovesView(m: map<int, int>, s: seq<int>, x: int)
    requires Orders(m, s)
    ensures Orders(m - {x}, Without(s, x))
  {
    WithoutMembers(s, x);
    WithoutKeepsOrder(m, s, x);
    var r := Without(s, x);
    assert forall i :: 0 <= i < |r| ==> r[i] in r;
  }
}
