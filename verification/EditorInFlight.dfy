/** Taps in the playlist editor that overlap: each pushes the whole list it leaves, and the
    requests reach the server in whatever order the network delivers them. */
module EditorInFlight {
  import opened Sequences
  import opened Tables
  import opened PlaylistSql
  import opened PlaylistEditor

  /** `inFlight`: the lists pushed and not yet carried out, oldest first. */
  datatype State = State(db: Db, screen: seq<int>, inFlight: seq<seq<int>>)

  datatype Event = Press(tap: Tap) | Deliver(i: nat)

  predicate Possible(s: State, e: Event) {
    match e
    case Press(tap) => PlaylistEditor.Enabled(s.screen, tap)
    case Deliver(i) => i < |s.inFlight|
  }

  ghost function Step(s: State, u: int, p: int, e: Event): State
    requires Possible(s, e)
  {
    match e
    case Press(tap) => var next := Tapped(s.screen, tap); s.(screen := next, inFlight := s.inFlight + [next])
    case Deliver(i) =>
      s.(db := Reorder(s.db, u, p, s.inFlight[i]).0, inFlight := s.inFlight[..i] + s.inFlight[i + 1..])
  }

  ghost predicate Runs(s: State, u: int, p: int, es: seq<Event>)
    decreases |es|
  {
    es == [] || (Possible(s, es[0]) && Runs(Step(s, u, p, es[0]), u, p, es[1..]))
  }

  ghost function After(s: State, u: int, p: int, es: seq<Event>): State
    requires Runs(s, u, p, es)
    decreases |es|
  {
    if es == [] then s else After(Step(s, u, p, es[0]), u, p, es[1..])
  }

  ghost predicate InStep(s: State, u: int, p: int) {
    s.screen == ServerOrder(s.db, u, p)
  }

  // ---------------------------------------------------------------- every request is accepted

  ghost predicate SameTracks(s: State, a: seq<int>) {
    multiset(a) == multiset(s.screen)
  }

  /** Screen, server and all lists on their way hold the same tracks. */
  ghost predicate Inv(s: State, u: int, p: int) {
    && Tidy(s.db, p) && OwnsPlaylist(s.db, u, p)
    && SameTracks(s, ServerOrder(s.db, u, p))
    && forall q :: q in s.inFlight ==> SameTracks(s, q)
  }

  /** What a delivery does: the server takes the list, whichever it is. */
  lemma DeliverIsAccepted(s: State, u: int, p: int, i: nat)
    requires Inv(s, u, p) && i < |s.inFlight|
    ensures var (db', o) := Reorder(s.db, u, p, s.inFlight[i]);
      && o == Done && Tidy(db', p) && OwnsPlaylist(db', u, p)
      && ServerOrder(db', u, p) == s.inFlight[i]
  {
    var next := s.inFlight[i];
    assert next in s.inFlight && SameTracks(s, next);
    PushIsAccepted(s.db, u, p, next);
  }

  lemma TakenOut(lists: seq<seq<int>>, i: nat, q: seq<int>)
    requires i < |lists| && q in lists[..i] + lists[i + 1..]
    ensures q in lists
  {
  }

  lemma DeliverKeepsInv(s: State, u: int, p: int, i: nat)
    requires Inv(s, u, p) && i < |s.inFlight|
    ensures Inv(Step(s, u, p, Deliver(i)), u, p)
    ensures ServerOrder(Step(s, u, p, Deliver(i)).db, u, p) == s.inFlight[i]
  {
    DeliverIsAccepted(s, u, p, i);
    var s', next := Step(s, u, p, Deliver(i)), s.inFlight[i];
    assert next in s.inFlight && SameTracks(s, next);
    forall q | q in s'.inFlight
      ensures SameTracks(s', q)
    {
      TakenOut(s.inFlight, i, q);
      assert SameTracks(s, q);
    }
  }

  lemma PressKeepsInv(s: State, u: int, p: int, tap: Tap)
    requires Inv(s, u, p) && Possible(s, Press(tap))
    ensures Inv(Step(s, u, p, Press(tap)), u, p)
  {
    TapKeepsMembership(s.screen, tap);
    var s' := Step(s, u, p, Press(tap));
    forall q | q in s'.inFlight
      ensures SameTracks(s', q)
    {
      assert q in s.inFlight ==> SameTracks(s, q);
    }
  }

  lemma StepKeepsInv(s: State, u: int, p: int, e: Event)
    requires Inv(s, u, p) && Possible(s, e)
    ensures Inv(Step(s, u, p, e), u, p)
  {
    match e
    case Press(tap) => PressKeepsInv(s, u, p, tap);
    case Deliver(i) => DeliverKeepsInv(s, u, p, i);
  }

  // ---------------------------------------------------------------- delivered in order

  ghost predicate InOrder(es: seq<Event>) {
    forall k :: 0 <= k < |es| && es[k].Deliver? ==> es[k].i == 0
  }

  /** The newest list on its way, or else the server's. */
  ghost function Newest(s: State, u: int, p: int): seq<int> {
    if s.inFlight == [] then ServerOrder(s.db, u, p) else s.inFlight[|s.inFlight| - 1]
  }

  lemma OldestDelivered(s: State, u: int, p: int)
    requires Inv(s, u, p) && s.inFlight != []
    ensures Newest(Step(s, u, p, Deliver(0)), u, p) == Newest(s, u, p)
  {
    DeliverKeepsInv(s, u, p, 0);
    assert s.inFlight[..0] + s.inFlight[1..] == s.inFlight[1..];
  }

  lemma InOrderStep(s: State, u: int, p: int, e: Event)
    requires Inv(s, u, p) && Newest(s, u, p) == s.screen && Possible(s, e) && (e.Deliver? ==> e.i == 0)
    ensures Newest(Step(s, u, p, e), u, p) == Step(s, u, p, e).screen
  {
    match e
    case Press(tap) =>
      assert Step(s, u, p, e).inFlight == s.inFlight + [Tapped(s.screen, tap)];
    case Deliver(i) =>
      OldestDelivered(s, u, p);
  }

  lemma {:induction false} InOrderRun(s: State, u: int, p: int, es: seq<Event>)
    requires Inv(s, u, p) && Newest(s, u, p) == s.screen && Runs(s, u, p, es) && InOrder(es)
    ensures Newest(After(s, u, p, es), u, p) == After(s, u, p, es).screen
    decreases |es|
  {
    if es != [] {
      assert es[0].Deliver? ==> es[0].i == 0;
      InOrderStep(s, u, p, es[0]);
      StepKeepsInv(s, u, p, es[0]);
      LaterInOrder(es);
      InOrderRun(Step(s, u, p, es[0]), u, p, es[1..]);
    }
  }

  lemma LaterInOrder(es: seq<Event>)
    requires InOrder(es) && es != []
    ensures InOrder(es[1..])
  {
    assert forall k :: 0 <= k < |es[1..]| ==> es[1..][k] == es[k + 1];
  }

  /** Main result: delivered in the order of the taps, any run of overlapping moves ends with
      screen and server alike once nothing is on its way. */
  lemma InOrderEndsInStep(s: State, u: int, p: int, es: seq<Event>)
    requires Inv(s, u, p) && InStep(s, u, p) && s.inFlight == [] && Runs(s, u, p, es) && InOrder(es)
    requires After(s, u, p, es).inFlight == []
    ensures InStep(After(s, u, p, es), u, p)
  {
    InOrderRun(s, u, p, es);
  }

  // ---------------------------------------------------------------- delivered in any order

  /** The list carried out last. */
  ghost function LastDelivered(s: State, u: int, p: int, es: seq<Event>, sofar: seq<int>): seq<int>
    requires Runs(s, u, p, es)
    decreases |es|
  {
    if es == [] then sofar
    else LastDelivered(Step(s, u, p, es[0]), u, p, es[1..], if es[0].Deliver? then s.inFlight[es[0].i] else sofar)
  }

  lemma {:induction false} ServerHasLastDelivered(s: State, u: int, p: int, es: seq<Event>)
    requires Inv(s, u, p) && Runs(s, u, p, es)
    ensures Inv(After(s, u, p, es), u, p)
    ensures ServerOrder(After(s, u, p, es).db, u, p) == LastDelivered(s, u, p, es, ServerOrder(s.db, u, p))
    decreases |es|
  {
    if es != [] {
      if es[0].Deliver? {
        DeliverKeepsInv(s, u, p, es[0].i);
      }
      StepKeepsInv(s, u, p, es[0]);
      ServerHasLastDelivered(Step(s, u, p, es[0]), u, p, es[1..]);
    }
  }

  lemma TapChanges(s: seq<int>, tap: Tap)
    requires PlaylistEditor.Enabled(s, tap) && NoDup(s)
    ensures Tapped(s, tap) != s
  {
    var i := tap.index;
    assert s[i] != Tapped(s, tap)[i];
  }

  lemma OneThen(s: State, u: int, p: int, e: Event, rest: seq<Event>)
    requires Possible(s, e) && Runs(Step(s, u, p, e), u, p, rest)
    ensures Runs(s, u, p, [e] + rest) && After(s, u, p, [e] + rest) == After(Step(s, u, p, e), u, p, rest)
  {
    assert ([e] + rest)[1..] == rest;
  }

  /** Two taps, then both requests, the older one first or last. */
  function TwoTaps(a: Tap, b: Tap, olderFirst: bool): seq<Event> {
    [Press(a)] + ([Press(b)] + BothArrive(olderFirst))
  }

  function BothArrive(olderFirst: bool): seq<Event> {
    [Deliver(if olderFirst then 0 else 1)] + ([Deliver(0)] + [])
  }

  lemma LastArrives(s: State, u: int, p: int)
    requires Inv(s, u, p) && |s.inFlight| == 1
    ensures Runs(s, u, p, [Deliver(0)] + [])
    ensures var t := After(s, u, p, [Deliver(0)] + []);
      t.inFlight == [] && t.screen == s.screen && ServerOrder(t.db, u, p) == s.inFlight[0]
  {
    DeliverKeepsInv(s, u, p, 0);
    OneThen(s, u, p, Deliver(0), []);
  }

  lemma BothArriveRun(s: State, u: int, p: int, olderFirst: bool)
    requires Inv(s, u, p) && |s.inFlight| == 2
    ensures Runs(s, u, p, BothArrive(olderFirst))
    ensures var t := After(s, u, p, BothArrive(olderFirst));
      && t.inFlight == [] && t.screen == s.screen
      && ServerOrder(t.db, u, p) == s.inFlight[if olderFirst then 1 else 0]
  {
    var i := if olderFirst then 0 else 1;
    var s1 := Step(s, u, p, Deliver(i));
    DeliverKeepsInv(s, u, p, i);
    assert s1.inFlight == [s.inFlight[1 - i]];
    LastArrives(s1, u, p);
    OneThen(s, u, p, Deliver(i), [Deliver(0)] + []);
  }

  lemma TwoTapsRun(s: State, u: int, p: int, a: Tap, b: Tap, olderFirst: bool)
    requires Inv(s, u, p) && s.inFlight == []
    requires PlaylistEditor.Enabled(s.screen, a) && PlaylistEditor.Enabled(Tapped(s.screen, a), b)
    ensures Runs(s, u, p, TwoTaps(a, b, olderFirst))
    ensures var t, x := After(s, u, p, TwoTaps(a, b, olderFirst)), Tapped(s.screen, a);
      && t.inFlight == [] && t.screen == Tapped(x, b)
      && ServerOrder(t.db, u, p) == if olderFirst then Tapped(x, b) else x
  {
    var s1 := Step(s, u, p, Press(a));
    StepKeepsInv(s, u, p, Press(a));
    var s2 := Step(s1, u, p, Press(b));
    StepKeepsInv(s1, u, p, Press(b));
    BothArriveRun(s2, u, p, olderFirst);
    OneThen(s1, u, p, Press(b), BothArrive(olderFirst));
    OneThen(s, u, p, Press(a), [Press(b)] + BothArrive(olderFirst));
  }

  /** Main result: of two overlapping taps, all requests answered with success, screen and server
      end alike exactly when the requests arrive in order; out of order they always drift. */
  lemma TwoTapsAgreeExactlyInOrder(s: State, u: int, p: int, a: Tap, b: Tap, olderFirst: bool)
    requires Inv(s, u, p) && s.inFlight == []
    requires PlaylistEditor.Enabled(s.screen, a) && PlaylistEditor.Enabled(Tapped(s.screen, a), b)
    ensures Runs(s, u, p, TwoTaps(a, b, olderFirst))
    ensures After(s, u, p, TwoTaps(a, b, olderFirst)).inFlight == []
    ensures InStep(After(s, u, p, TwoTaps(a, b, olderFirst)), u, p) <==> olderFirst
  {
    TwoTapsRun(s, u, p, a, b, olderFirst);
    ServerOrderNoDup(s.db, u, p);
    TapKeepsMembership(s.screen, a);
    SamePermutationNoDup(ServerOrder(s.db, u, p), Tapped(s.screen, a));
    TapChanges(Tapped(s.screen, a), b);
  }
}
