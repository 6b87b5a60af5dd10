/** How large a position can get (the column is a 32-bit INTEGER). */
module Positions {
  import opened Tables
  import opened PlaylistSql
  import opened Playlists

  /** 1 when the transaction makes a track newly a member of `p`. */
  ghost function Gain(db: Db, op: Op, p: int): nat {
    if op.Add? && op.p == p && (p, op.t) !in db.entries && (p, op.t) in Apply(db, op).0.entries then 1 else 0
  }

  /** New memberships of `p` over a run; re-adds that do nothing are not counted. */
  ghost function Additions(db: Db, ops: seq<Op>, p: int): nat
    decreases |ops|
  {
    if ops == [] then 0 else Gain(db, ops[0], p) + Additions(Apply(db, ops[0]).0, ops[1..], p)
  }

  ghost predicate Below(db: Db, p: int, n: nat) {
    |Members(db.entries, p).Keys| <= n && forall t :: t in Members(db.entries, p) ==> Members(db.entries, p)[t] < n
  }

  lemma SubsetIsNoLarger(a: set<int>, b: set<int>)
    requires a <= b
    ensures |a| <= |b|
  {
    assert b == a + (b - a);
  }

  lemma ShrinkingStaysBelow(db: Db, after: map<(int, int), int>, p: int, n: nat)
    requires Below(db, p, n)
    requires forall t :: (p, t) in after ==> (p, t) in db.entries && after[(p, t)] == db.entries[(p, t)]
    ensures |Members(after, p).Keys| <= n && forall t :: t in Members(after, p) ==> Members(after, p)[t] < n
  {
    SubsetIsNoLarger(Members(after, p).Keys, Members(db.entries, p).Keys);
  }

  lemma AddStaysBelow(db: Db, u: int, p: int, t: int, n: nat)
    requires Below(db, p, n) && OwnsPlaylist(db, u, p) && OwnsTrack(db, u, t) && (p, t) !in db.entries
    ensures Below(AddTrack(db, u, p, t).0, p, n + 1)
  {
    var m := Members(db.entries, p);
    MembersAfterAdd(db.entries, p, t, NextPosition(m));
    assert m[t := NextPosition(m)].Keys == m.Keys + {t};
  }

  lemma MoveStaysBelow(db: Db, p: int, ids: seq<int>, n: nat)
    requires Below(db, p, n) && Accepts(Members(db.entries, p), ids)
    ensures Below(db.(entries := Renumbered(db.entries, p, ids, |ids|)), p, n)
  {
    RenumberingSetsOrder(db.entries, p, ids);
    var m := Members(Renumbered(db.entries, p, ids, |ids|), p);
    assert m.Keys == Members(db.entries, p).Keys;
    forall t | t in m
      ensures m[t] < n
    {
      assert t in ids;
    }
  }

  lemma OtherStepsAddNothing(db: Db, op: Op)
    requires !op.Add? && !op.Move?
    ensures forall k :: k in Apply(db, op).0.entries ==> k in db.entries && Apply(db, op).0.entries[k] == db.entries[k]
  {
  }

  lemma OtherStepsStayBelow(db: Db, op: Op, p: int, n: nat)
    requires Below(db, p, n) && !op.Add? && !op.Move?
    ensures Below(Apply(db, op).0, p, n)
  {
    OtherStepsAddNothing(db, op);
    ShrinkingStaysBelow(db, Apply(db, op).0.entries, p, n);
  }

  ghost predicate NewMember(db: Db, u: int, p: int, t: int) {
    OwnsPlaylist(db, u, p) && OwnsTrack(db, u, t) && (p, t) !in db.entries
  }

  lemma GainOfAdd(db: Db, u: int, q: int, t: int, p: int)
    ensures Gain(db, Add(u, q, t), p) == if q == p && NewMember(db, u, p, t) then 1 else 0
  {
  }

  lemma AddElsewhere(db: Db, u: int, q: int, t: int, p: int, n: nat)
    requires Below(db, p, n) && !(q == p && NewMember(db, u, p, t))
    ensures Below(AddTrack(db, u, q, t).0, p, n)
  {
    if NewMember(db, u, q, t) {
      OtherRowStaysBelow(db, q, t, NextPosition(Members(db.entries, q)), p, n);
    }
  }

  lemma OtherRowStaysBelow(db: Db, q: int, t: int, position: int, p: int, n: nat)
    requires Below(db, p, n) && q != p
    ensures Below(db.(entries := db.entries[(q, t) := position]), p, n)
  {
    ShrinkingStaysBelow(db, db.entries[(q, t) := position], p, n);
  }

  lemma AddStepStaysBelow(db: Db, u: int, q: int, t: int, p: int, n: nat)
    requires Below(db, p, n)
    ensures Below(AddTrack(db, u, q, t).0, p, n + Gain(db, Add(u, q, t), p))
  {
    GainOfAdd(db, u, q, t, p);
    if q == p && NewMember(db, u, p, t) {
      AddStaysBelow(db, u, p, t, n);
    } else {
      AddElsewhere(db, u, q, t, p, n);
    }
  }

  lemma MoveStepStaysBelow(db: Db, u: int, q: int, ids: seq<int>, p: int, n: nat)
    requires Below(db, p, n)
    ensures Below(Reorder(db, u, q, ids).0, p, n)
  {
    if OwnsPlaylist(db, u, q) && Accepts(Members(db.entries, q), ids) {
      if q == p {
        MoveStaysBelow(db, p, ids, n);
      } else {
        RenumberingSetsOrder(db.entries, q, ids);
        ShrinkingStaysBelow(db, Reorder(db, u, q, ids).0.entries, p, n);
      }
    }
  }

  lemma StepStaysBelow(db: Db, op: Op, p: int, n: nat)
    requires Below(db, p, n)
    ensures Below(Apply(db, op).0, p, n + Gain(db, op, p))
  {
    match op
    case Add(u, q, t) => AddStepStaysBelow(db, u, q, t, p, n);
    case Move(u, q, ids) => MoveStepStaysBelow(db, u, q, ids, p, n);
    case _ => OtherStepsStayBelow(db, op, p, n);
  }

  lemma {:induction false} RunStaysBelow(db: Db, ops: seq<Op>, p: int, n: nat)
    requires Below(db, p, n)
    ensures Below(Run(db, ops), p, n + Additions(db, ops, p))
    decreases |ops|
  {
    if ops != [] {
      StepStaysBelow(db, ops[0], p, n);
      RunStaysBelow(Apply(db, ops[0]).0, ops[1..], p, n + Gain(db, ops[0], p));
    }
  }

  /** Main result: over any run the largest position plus one is at most the number of
      tracks ever newly added to the playlist, gaps and renumbering notwithstanding. */
  lemma PositionsFit(ops: seq<Op>, p: int, t: int)
    requires (p, t) in Run(EMPTY, ops).entries
    ensures Run(EMPTY, ops).entries[(p, t)] + 1 <= Additions(EMPTY, ops, p)
  {
    assert forall t :: t !in Members(EMPTY.entries, p).Keys;
    assert Members(EMPTY.entries, p).Keys == {};
    RunStaysBelow(EMPTY, ops, p, 0);
    assert t in Members(Run(EMPTY, ops).entries, p);
  }
}
