/** Put of server/internal/library/library.go step by step: CreateTemp, writes, rename, and the
    deferred removal of the temporary name. Any number of Puts share a directory, interleaved at
    every step; one that crashes simply takes no further step. */
module PutProtocol {
  import opened Storage

  datatype Writer =
    | NotOpen
    | Writing(tmp: string, left: Bytes)
    | Abandoned(tmp: string)
    | Renamed(tmp: string)
    | Closed(ok: bool)

  datatype Act = OpenTemp(tmp: string) | Write(n: nat) | Rename | DropTemp(removed: bool) | Break

  predicate MayAct(dir: map<string, Bytes>, w: Writer, a: Act) {
    match a
    case OpenTemp(tmp) => w.NotOpen? && TempName(tmp) && tmp !in dir
    case Write(n) => w.Writing? && 0 < n <= |w.left|
    case Rename => w.Writing? && w.left == []
    case DropTemp(_) => w.Abandoned? || w.Renamed?
    case Break => w.NotOpen? || w.Writing?
  }

  /** The directory and the Put after its own step. A step that breaks returns an error, after
      the temporary name is gone if it was made. */
  function Acted(dir: map<string, Bytes>, key: string, data: Bytes, w: Writer, a: Act): (map<string, Bytes>, Writer)
    requires MayAct(dir, w, a)
  {
    match a
    case OpenTemp(tmp) => (dir[tmp := []], Writing(tmp, data))
    case Write(n) =>
      (if w.tmp in dir then dir[w.tmp := dir[w.tmp] + w.left[..n]] else dir, Writing(w.tmp, w.left[n..]))
    case Rename =>
      if w.tmp in dir then ((dir - {w.tmp})[key := dir[w.tmp]], Renamed(w.tmp)) else (dir, Abandoned(w.tmp))
    case DropTemp(removed) => (if removed then dir - {w.tmp} else dir, Closed(w.Renamed?))
    case Break => (dir, if w.NotOpen? then Closed(false) else Abandoned(w.tmp))
  }

  function Held(w: Writer): set<string> {
    match w
    case Writing(tmp, _) => {tmp}
    case Abandoned(tmp) => {tmp}
    case Renamed(tmp) => {tmp}
    case _ => {}
  }

  // ---------------------------------------------------------------- many Puts over one directory

  datatype Put = Put(key: string, data: Bytes, w: Writer)

  datatype State = State(dir: map<string, Bytes>, puts: map<nat, Put>)

  datatype Step = Begin(j: nat, key: string, data: Bytes) | Take(j: nat, act: Act)

  /** CreateTemp picks a name that is neither in the directory nor held by a Put. */
  ghost predicate Enabled(s: State, a: Step) {
    match a
    case Begin(j, key, _) => j !in s.puts && !TempName(key)
    case Take(j, act) =>
      j in s.puts && MayAct(s.dir, s.puts[j].w, act)
      && (act.OpenTemp? ==> forall i :: i in s.puts ==> act.tmp !in Held(s.puts[i].w))
  }

  ghost function Next(s: State, a: Step): State
    requires Enabled(s, a)
  {
    match a
    case Begin(j, key, data) => s.(puts := s.puts[j := Put(key, data, NotOpen)])
    case Take(j, act) =>
      var p := s.puts[j];
      var (dir, w) := Acted(s.dir, p.key, p.data, p.w, act);
      State(dir, s.puts[j := p.(w := w)])
  }

  /** What a Put has in the directory: all it has written so far, under its temporary name. */
  ghost predicate PutOk(dir: map<string, Bytes>, p: Put) {
    && !TempName(p.key)
    && (forall tmp :: tmp in Held(p.w) ==> TempName(tmp))
    && (p.w.Writing? ==> p.w.tmp in dir && dir[p.w.tmp] + p.w.left == p.data)
  }

  ghost predicate PutsOk(s: State) {
    forall j :: j in s.puts ==> PutOk(s.dir, s.puts[j])
  }

  ghost predicate PutsApart(s: State) {
    forall i, j :: i in s.puts && j in s.puts && i != j ==> Held(s.puts[i].w) !! Held(s.puts[j].w)
  }

  ghost predicate Inv(s: State) {
    PutsOk(s) && PutsApart(s)
  }

  /** What readers see of a step: nothing, or one complete object under its own key. */
  ghost predicate Publishes(dir: map<string, Bytes>, dir': map<string, Bytes>, p: Put, act: Act) {
    Visible(dir') == if act.Rename? then Visible(dir)[p.key := p.data] else Visible(dir)
  }

  lemma ActPublishes(dir: map<string, Bytes>, p: Put, act: Act)
    requires PutOk(dir, p) && MayAct(dir, p.w, act)
    ensures var (dir', w) := Acted(dir, p.key, p.data, p.w, act);
      && PutOk(dir', p.(w := w)) && Publishes(dir, dir', p, act)
      && Held(w) <= Held(p.w) + if act.OpenTemp? then {act.tmp} else {}
  {
    match act
    case OpenTemp(_) =>
      assert [] + p.data == p.data;
    case Write(n) =>
      assert (dir[p.w.tmp] + p.w.left[..n]) + p.w.left[n..] == dir[p.w.tmp] + p.w.left;
    case Rename =>
      assert dir[p.w.tmp] + [] == dir[p.w.tmp];
    case _ =>
  }

  lemma ActSparesOthers(dir: map<string, Bytes>, p: Put, act: Act, q: Put)
    requires PutOk(dir, p) && PutOk(dir, q) && MayAct(dir, p.w, act) && Held(p.w) !! Held(q.w)
    requires act.OpenTemp? ==> act.tmp !in Held(q.w)
    ensures PutOk(Acted(dir, p.key, p.data, p.w, act).0, q)
  {
  }

  lemma NextKeepsApart(s: State, j: nat, act: Act)
    requires Inv(s) && Enabled(s, Take(j, act))
    ensures PutsApart(Next(s, Take(j, act)))
  {
    var s' := Next(s, Take(j, act));
    ActPublishes(s.dir, s.puts[j], act);
    forall i, k | i in s'.puts && k in s'.puts && i != k
      ensures Held(s'.puts[i].w) !! Held(s'.puts[k].w)
    {
      assert Held(s.puts[i].w) !! Held(s.puts[k].w);
    }
  }

  lemma NextKeepsInv(s: State, a: Step)
    requires Inv(s) && Enabled(s, a)
    ensures Inv(Next(s, a))
  {
    match a
    case Begin(_, _, _) =>
    case Take(j, act) =>
      NextKeepsApart(s, j, act);
      ActPublishes(s.dir, s.puts[j], act);
      forall i | i in s.puts && i != j
        ensures PutOk(Next(s, a).dir, s.puts[i])
      {
        ActSparesOthers(s.dir, s.puts[j], act, s.puts[i]);
      }
  }

  // ---------------------------------------------------------------- every run

  ghost predicate Runs(s: State, steps: seq<Step>)
    decreases |steps|
  {
    steps == [] || (Enabled(s, steps[0]) && Runs(Next(s, steps[0]), steps[1..]))
  }

  ghost function After(s: State, steps: seq<Step>): State
    requires Runs(s, steps)
    decreases |steps|
  {
    if steps == [] then s else After(Next(s, steps[0]), steps[1..])
  }

  ghost predicate From(s: State, name: string, data: Bytes) {
    exists j :: j in s.puts && s.puts[j].key == name && s.puts[j].data == data
  }

  /** A real name keeps what it held or holds all of what some Put to it was given. */
  ghost predicate OldOrNew(found: map<string, Bytes>, s: State, name: string) {
    && (name in found ==> name in s.dir)
    && (name in s.dir ==> (name in found && s.dir[name] == found[name]) || From(s, name, s.dir[name]))
  }

  lemma NextKeepsOldOrNew(found: map<string, Bytes>, s: State, a: Step, name: string)
    requires Inv(s) && Enabled(s, a) && !TempName(name) && OldOrNew(found, s, name)
    ensures OldOrNew(found, Next(s, a), name)
  {
    var s' := Next(s, a);
    assert forall j :: j in s.puts ==> j in s'.puts && s'.puts[j].key == s.puts[j].key && s'.puts[j].data == s.puts[j].data;
    if a.Take? {
      var p := s.puts[a.j];
      ActPublishes(s.dir, p, a.act);
      assert name in s'.dir <==> name in Visible(s'.dir);
      assert name in s.dir <==> name in Visible(s.dir);
      if a.act.Rename? && name == p.key {
        assert From(s', name, p.data);
      }
    }
  }

  lemma {:induction false} RunKeepsOldOrNew(found: map<string, Bytes>, s: State, steps: seq<Step>, name: string)
    requires Inv(s) && Runs(s, steps) && !TempName(name) && OldOrNew(found, s, name)
    ensures OldOrNew(found, After(s, steps), name)
    decreases |steps|
  {
    if steps != [] {
      NextKeepsInv(s, steps[0]);
      NextKeepsOldOrNew(found, s, steps[0], name);
      RunKeepsOldOrNew(found, Next(s, steps[0]), steps[1..], name);
    }
  }

  /** Main result: over any directory, through every step of any interleaved Puts, with errors and
      crashes at any point, a real key holds its old object or a complete new one, and is never lost. */
  lemma OldOrComplete(s: State, steps: seq<Step>, name: string)
    requires s.puts == map[] && Runs(s, steps) && !TempName(name)
    ensures var t := After(s, steps);
      && (name in s.dir ==> name in t.dir)
      && (name in t.dir ==>
            || (name in s.dir && t.dir[name] == s.dir[name])
            || exists j :: j in t.puts && t.puts[j].key == name && t.puts[j].data == t.dir[name])
  {
    RunKeepsOldOrNew(s.dir, s, steps, name);
  }

  // ---------------------------------------------------------------- a Put that nothing goes wrong with

  lemma AllWritten(dir: map<string, Bytes>, key: string, data: Bytes, tmp: string)
    requires tmp in dir && dir[tmp] == [] && data != []
    ensures Acted(dir, key, data, Writing(tmp, data), Write(|data|)) == (dir[tmp := data], Writing(tmp, []))
  {
    assert data[..|data|] == data && data[|data|..] == [] && [] + data == data;
  }

  /** The steps of a Put with every byte written at once; for no bytes there is no write. */
  function AllSteps(tmp: string, data: Bytes): seq<Act> {
    [OpenTemp(tmp)] + if data == [] then [Rename, DropTemp(true)] else [Write(|data|)] + [Rename, DropTemp(true)]
  }

  /** A Put's own steps, one after the other. */
  predicate MayActAll(dir: map<string, Bytes>, key: string, data: Bytes, w: Writer, acts: seq<Act>)
    decreases |acts|
  {
    acts == [] ||
    (MayAct(dir, w, acts[0]) &&
     MayActAll(Acted(dir, key, data, w, acts[0]).0, key, data, Acted(dir, key, data, w, acts[0]).1, acts[1..]))
  }

  function ActedAll(dir: map<string, Bytes>, key: string, data: Bytes, w: Writer, acts: seq<Act>): (map<string, Bytes>, Writer)
    requires MayActAll(dir, key, data, w, acts)
    decreases |acts|
  {
    if acts == [] then (dir, w)
    else ActedAll(Acted(dir, key, data, w, acts[0]).0, key, data, Acted(dir, key, data, w, acts[0]).1, acts[1..])
  }

  lemma FirstAct(dir: map<string, Bytes>, key: string, data: Bytes, w: Writer, a: Act, rest: seq<Act>)
    requires MayAct(dir, w, a)
    requires MayActAll(Acted(dir, key, data, w, a).0, key, data, Acted(dir, key, data, w, a).1, rest)
    ensures MayActAll(dir, key, data, w, [a] + rest)
    ensures ActedAll(dir, key, data, w, [a] + rest) ==
            ActedAll(Acted(dir, key, data, w, a).0, key, data, Acted(dir, key, data, w, a).1, rest)
  {
    assert ([a] + rest)[1..] == rest;
  }

  lemma FinalSteps(dir: map<string, Bytes>, key: string, data: Bytes, tmp: string)
    requires tmp in dir && dir[tmp] == data && key != tmp
    ensures MayActAll(dir, key, data, Writing(tmp, []), [Rename, DropTemp(true)])
    ensures ActedAll(dir, key, data, Writing(tmp, []), [Rename, DropTemp(true)]) == ((dir - {tmp})[key := data], Closed(true))
  {
    var acts := [Rename, DropTemp(true)];
    assert acts[1..] == [DropTemp(true)] && acts[1..][1..] == [];
    var after := (dir - {tmp})[key := data];
    assert Acted(dir, key, data, Writing(tmp, []), Rename) == (after, Renamed(tmp));
    assert after - {tmp} == after;
  }

  /** Main result: a Put that nothing goes wrong with adds the complete object under its key, as the
      call that returns nil does, and leaves every other name alone. */
  lemma UndisturbedPutPublishes(dir: map<string, Bytes>, key: string, data: Bytes, tmp: string)
    requires TempName(tmp) && !TempName(key) && tmp !in dir
    ensures MayActAll(dir, key, data, NotOpen, AllSteps(tmp, data))
    ensures ActedAll(dir, key, data, NotOpen, AllSteps(tmp, data)) == (dir[key := data], Closed(true))
  {
    var open, last := dir[tmp := []], [Rename, DropTemp(true)];
    FinalSteps(dir[tmp := data], key, data, tmp);
    assert (dir[tmp := data] - {tmp})[key := data] == dir[key := data];
    if data == [] {
      FirstAct(dir, key, data, NotOpen, OpenTemp(tmp), last);
    } else {
      AllWritten(open, key, data, tmp);
      assert open[tmp := data] == dir[tmp := data];
      FirstAct(open, key, data, Writing(tmp, data), Write(|data|), last);
      FirstAct(dir, key, data, NotOpen, OpenTemp(tmp), [Write(|data|)] + last);
    }
  }
}
