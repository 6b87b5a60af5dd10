/** Many ingests of server/internal/library/ingest.go at once over one FileStorage directory
    and one tracks table, interleaved at every file and database operation, any of which may
    fail, and with a crash possible between any two. */
module IngestProtocol {
  import opened Tables
  import opened Storage
  import opened Uuid
  import Puts = PutProtocol

  datatype Slot = AudioSlot | ArtSlot

  datatype Phase =
    | Putting(slot: Slot, w: Puts.Writer)
    | Inserting(ext: string)
    | Undoing(keys: seq<string>)
    | Done(ext: string)
    | Failed(clean: bool)
    | Crashed

  datatype Job = Job(key: string, audio: Bytes, art: Option<Artwork>, phase: Phase)

  /** rows: job to the artwork_ext column of the track it committed ("" is NULL).
      found: what the directory held before the first ingest. */
  datatype State = State(
    dir: map<string, Bytes>,
    jobs: map<nat, Job>,
    rows: map<nat, string>,
    found: map<string, Bytes>)

  datatype Action =
    | Start(j: nat, key: string, audio: Bytes, art: Option<Artwork>)
    | Put(j: nat, act: Puts.Act)
    | Insert(j: nat)
    | DeleteNext(j: nat)
    | Fault(j: nat)
    | Crash(j: nat)

  // ---------------------------------------------------------------- names

  function ArtKey(job: Job): string
    requires job.art.Some?
  {
    job.key + job.art.value.ext
  }

  function Key(job: Job, slot: Slot): string {
    if slot.ArtSlot? && job.art.Some? then ArtKey(job) else job.key
  }

  function Data(job: Job, slot: Slot): Bytes {
    if slot.ArtSlot? && job.art.Some? then job.art.value.data else job.audio
  }

  function Keys(job: Job): set<string> {
    {job.key} + if job.art.Some? then {ArtKey(job)} else {}
  }

  function Temps(job: Job): set<string> {
    if job.phase.Putting? then Puts.Held(job.phase.w) else {}
  }

  /** UUID key, and an artwork extension with its leading dot (".jpg" or ".png"). */
  predicate WellNamed(job: Job) {
    && UuidShaped(job.key)
    && (job.art.Some? ==> job.art.value.ext != "")
    && forall tmp :: tmp in Temps(job) ==> TempName(tmp)
  }

  // ---------------------------------------------------------------- one step of one job

  predicate MayStep(dir: map<string, Bytes>, job: Job, a: Action) {
    match a
    case Start(_, _, _, _) => false
    case Put(_, act) => job.phase.Putting? && Puts.MayAct(dir, job.phase.w, act)
    case Insert(_) => job.phase.Inserting?
    case DeleteNext(_) => job.phase.Undoing?
    case Fault(_) => job.phase.Inserting? || (job.phase.Undoing? && job.phase.keys != [])
    case Crash(_) => !job.phase.Done? && !job.phase.Failed? && !job.phase.Crashed?
  }

  /** UUIDs are fresh, and CreateTemp picks a name that is neither in the directory nor held
      by a Put in progress. */
  ghost predicate Enabled(s: State, a: Action) {
    if a.Start? then
      && a.j !in s.jobs && UuidShaped(a.key) && (a.art.Some? ==> a.art.value.ext != "")
      && (forall i :: i in s.jobs ==> s.jobs[i].key != a.key)
      && Keys(NewJob(a)) !! s.dir.Keys
    else
      && a.j in s.jobs && MayStep(s.dir, s.jobs[a.j], a)
      && (a.Put? && a.act.OpenTemp? ==> forall i :: i in s.jobs ==> a.act.tmp !in Temps(s.jobs[i]))
  }

  function NewJob(a: Action): Job
    requires a.Start?
  {
    Job(a.key, a.audio, a.art, Putting(AudioSlot, Puts.NotOpen))
  }

  /** Failing to store the audio fails the ingest; failing to store the artwork does not. */
  function AfterFailedPut(slot: Slot): Phase {
    if slot.AudioSlot? then Failed(true) else Inserting("")
  }

  function AfterPut(job: Job, slot: Slot): Phase {
    if job.art.None? then Inserting("")
    else if slot.AudioSlot? then Putting(ArtSlot, Puts.NotOpen)
    else Inserting(job.art.value.ext)
  }

  function UndoKeys(job: Job, ext: string): seq<string> {
    if ext == "" then [job.key] else [job.key, job.key + ext]
  }

  /** The directory and the job after its own step. */
  function Advance(dir: map<string, Bytes>, job: Job, a: Action): (map<string, Bytes>, Job)
    requires MayStep(dir, job, a)
  {
    match a
    case Put(_, act) =>
      var slot := job.phase.slot;
      var (dir', w) := Puts.Acted(dir, Key(job, slot), Data(job, slot), job.phase.w, act);
      (dir', job.(phase := if !w.Closed? then Putting(slot, w) else if w.ok then AfterPut(job, slot) else AfterFailedPut(slot)))
    case Insert(_) => (dir, job.(phase := Done(job.phase.ext)))
    case DeleteNext(_) =>
      if job.phase.keys == [] then (dir, job.(phase := Failed(true)))
      else (dir - {job.phase.keys[0]}, job.(phase := Undoing(job.phase.keys[1..])))
    case Fault(_) =>
      (dir, job.(phase := match job.phase
                          case Inserting(ext) => Undoing(UndoKeys(job, ext))
                          case _ => Failed(false)))
    case Crash(_) => (dir, job.(phase := Crashed))
  }

  ghost function Step(s: State, a: Action): State
    requires Enabled(s, a)
  {
    if a.Start? then s.(jobs := s.jobs[a.j := NewJob(a)])
    else
      var (dir, job) := Advance(s.dir, s.jobs[a.j], a);
      s.(dir := dir, jobs := s.jobs[a.j := job],
         rows := if a.Insert? then s.rows[a.j := s.jobs[a.j].phase.ext] else s.rows)
  }

  // ---------------------------------------------------------------- what each phase guarantees

  predicate Stored(dir: map<string, Bytes>, name: string, data: Bytes) {
    name in dir && dir[name] == data
  }

  predicate ArtAbsent(dir: map<string, Bytes>, job: Job) {
    job.art.Some? ==> ArtKey(job) !in dir
  }

  /** The artwork object exactly as the extension says. */
  predicate ArtAs(dir: map<string, Bytes>, job: Job, ext: string) {
    if ext == "" then ArtAbsent(dir, job)
    else job.art.Some? && job.art.value.ext == ext && Stored(dir, ArtKey(job), job.art.value.data)
  }

  /** A real key of a job holds the complete object or nothing, in every phase. */
  ghost predicate Whole(dir: map<string, Bytes>, job: Job) {
    && (job.key in dir ==> dir[job.key] == job.audio)
    && (job.art.Some? && ArtKey(job) in dir ==> dir[ArtKey(job)] == job.art.value.data)
  }

  ghost predicate PutOk(dir: map<string, Bytes>, job: Job, slot: Slot, w: Puts.Writer) {
    && (slot.ArtSlot? ==> job.art.Some? && Stored(dir, job.key, job.audio))
    && (slot.AudioSlot? ==> ArtAbsent(dir, job))
    && match w
       case NotOpen => Key(job, slot) !in dir
       case Writing(tmp, left) => Key(job, slot) !in dir && tmp in dir && dir[tmp] + left == Data(job, slot)
       case Abandoned(_) => Key(job, slot) !in dir
       case Renamed(tmp) => Stored(dir, Key(job, slot), Data(job, slot)) && tmp !in dir
       case Closed(_) => false
  }

  ghost predicate JobOk(dir: map<string, Bytes>, job: Job) {
    && Whole(dir, job)
    && match job.phase
       case Putting(slot, w) => PutOk(dir, job, slot, w)
       case Inserting(ext) => Stored(dir, job.key, job.audio) && ArtAs(dir, job, ext)
       case Undoing(keys) =>
         && (forall k :: k in keys ==> k in Keys(job))
         && (forall k :: k in Keys(job) && k in dir ==> k in keys)
       case Done(ext) => Stored(dir, job.key, job.audio) && ArtAs(dir, job, ext)
       case Failed(clean) => clean ==> Keys(job) !! dir.Keys
       case Crashed => true
  }

  ghost predicate Apart(a: Job, b: Job) {
    a.key != b.key && Temps(a) !! Temps(b)
  }

  ghost predicate JobsOk(s: State) {
    forall j :: j in s.jobs ==> WellNamed(s.jobs[j]) && JobOk(s.dir, s.jobs[j])
  }

  ghost predicate JobsAreApart(s: State) {
    forall i, j :: i in s.jobs && j in s.jobs && i != j ==> Apart(s.jobs[i], s.jobs[j])
  }

  /** A committed row belongs to an ingest that finished. */
  ghost predicate RowsOk(s: State) {
    forall j :: j in s.rows ==> j in s.jobs && s.jobs[j].phase == Done(s.rows[j])
  }

  /** What the directory held before is still there, and no job's. */
  ghost predicate FoundOk(s: State) {
    && (forall name :: name in s.found ==> Stored(s.dir, name, s.found[name]))
    && (forall j, name :: j in s.jobs && name in s.found ==> name !in Own(s.jobs[j]))
  }

  ghost predicate Known(s: State, name: string) {
    name in s.found || exists j :: j in s.jobs && name in Keys(s.jobs[j])
  }

  /** Every visible object was there before or is an object of some job. */
  ghost predicate NamesOk(s: State) {
    forall name :: name in s.dir && !TempName(name) ==> Known(s, name)
  }

  ghost predicate Inv(s: State) {
    JobsOk(s) && JobsAreApart(s) && RowsOk(s) && FoundOk(s) && NamesOk(s)
  }

  // ---------------------------------------------------------------- the steps of a job leave the others alone

  /** Everything a job may touch. */
  function Own(job: Job): set<string> {
    Keys(job) + Temps(job)
  }

  lemma KeysAreNotTemps(job: Job)
    requires WellNamed(job)
    ensures !TempName(job.key)
    ensures job.art.Some? ==> !TempName(ArtKey(job)) && ArtKey(job) != job.key
    ensures forall k :: k in Keys(job) ==> !TempName(k)
  {
    if job.art.Some? {
      assert |ArtKey(job)| > |job.key|;
    }
  }

  lemma JobsApart(a: Job, b: Job)
    requires WellNamed(a) && WellNamed(b) && Apart(a, b)
    ensures Own(a) !! Own(b)
  {
    KeysAreNotTemps(a);
    KeysAreNotTemps(b);
    if a.art.Some? { KeysNeverCollide(b.key, "", a.key, a.art.value.ext); }
    if b.art.Some? { KeysNeverCollide(a.key, "", b.key, b.art.value.ext); }
    if a.art.Some? && b.art.Some? { KeysNeverCollide(a.key, a.art.value.ext, b.key, b.art.value.ext); }
  }

  ghost predicate AgreeOn(names: set<string>, d: map<string, Bytes>, e: map<string, Bytes>) {
    forall name :: name in names ==> (name in d <==> name in e) && (name in d ==> d[name] == e[name])
  }

  lemma JobOkFrame(d: map<string, Bytes>, e: map<string, Bytes>, job: Job)
    requires JobOk(d, job) && AgreeOn(Own(job), d, e)
    ensures JobOk(e, job)
  {
    assert job.key in Own(job);
    assert job.art.Some? ==> ArtKey(job) in Own(job);
  }

  ghost predicate SameJob(a: Job, b: Job) {
    a.key == b.key && a.audio == b.audio && a.art == b.art
  }

  /** After its own step a job keeps its promise, and only its own names have changed. */
  ghost predicate Kept(dir: map<string, Bytes>, job: Job, a: Action)
    requires MayStep(dir, job, a)
  {
    var (dir', job') := Advance(dir, job, a);
    && SameJob(job', job) && WellNamed(job') && JobOk(dir', job')
    && Temps(job') <= Temps(job) + (if a.Put? && a.act.OpenTemp? then {a.act.tmp} else {})
    && (forall name :: name !in Own(job) + Own(job') ==>
          (name in dir' <==> name in dir) && (name in dir' ==> dir'[name] == dir[name]))
    && (forall name :: name in dir' && !TempName(name) ==> name in dir || name in Keys(job'))
  }

  ghost predicate Ready(dir: map<string, Bytes>, job: Job, a: Action) {
    WellNamed(job) && JobOk(dir, job) && MayStep(dir, job, a)
  }

  lemma OpenKeeps(dir: map<string, Bytes>, job: Job, a: Action)
    requires Ready(dir, job, a) && a.Put? && a.act.OpenTemp?
    ensures Kept(dir, job, a)
  {
    KeysAreNotTemps(job);
    assert [] + Data(job, job.phase.slot) == Data(job, job.phase.slot);
  }

  lemma WriteKeeps(dir: map<string, Bytes>, job: Job, a: Action)
    requires Ready(dir, job, a) && a.Put? && a.act.Write?
    ensures Kept(dir, job, a)
  {
    KeysAreNotTemps(job);
    var tmp, left := job.phase.w.tmp, job.phase.w.left;
    assert (dir[tmp] + left[..a.act.n]) + left[a.act.n..] == dir[tmp] + left;
  }

  lemma RenameKeeps(dir: map<string, Bytes>, job: Job, a: Action)
    requires Ready(dir, job, a) && a.Put? && a.act.Rename?
    ensures Kept(dir, job, a)
  {
    KeysAreNotTemps(job);
    assert dir[job.phase.w.tmp] + [] == dir[job.phase.w.tmp];
    if job.art.Some? {
      assert ArtKey(job)[|job.key|..] == job.art.value.ext;
    }
  }

  lemma DropKeeps(dir: map<string, Bytes>, job: Job, a: Action)
    requires Ready(dir, job, a) && a.Put? && (a.act.DropTemp? || a.act.Break?)
    ensures Kept(dir, job, a)
  {
    KeysAreNotTemps(job);
  }

  lemma DeleteKeeps(dir: map<string, Bytes>, job: Job, a: Action)
    requires Ready(dir, job, a) && a.DeleteNext?
    ensures Kept(dir, job, a)
  {
    var keys := job.phase.keys;
    if keys != [] {
      assert keys[0] in keys && keys == [keys[0]] + keys[1..];
    }
  }

  lemma FaultKeeps(dir: map<string, Bytes>, job: Job, a: Action)
    requires Ready(dir, job, a) && (a.Fault? || a.Insert? || a.Crash?)
    ensures Kept(dir, job, a)
  {
  }

  lemma OwnStepKeeps(dir: map<string, Bytes>, job: Job, a: Action)
    requires Ready(dir, job, a)
    ensures Kept(dir, job, a)
  {
    match a
    case Put(_, OpenTemp(_)) => OpenKeeps(dir, job, a);
    case Put(_, Write(_)) => WriteKeeps(dir, job, a);
    case Put(_, Rename) => RenameKeeps(dir, job, a);
    case Put(_, _) => DropKeeps(dir, job, a);
    case DeleteNext(_) => DeleteKeeps(dir, job, a);
    case _ => FaultKeeps(dir, job, a);
  }

  // ---------------------------------------------------------------- the invariant

  ghost predicate Initial(s: State) {
    s.jobs == map[] && s.rows == map[] && s.found == s.dir
  }

  lemma StartKeeps(s: State, a: Action)
    requires Inv(s) && Enabled(s, a) && a.Start?
    ensures WellNamed(NewJob(a)) && JobOk(s.dir, NewJob(a))
    ensures forall name :: name in s.found ==> name !in Own(NewJob(a))
  {
    var job := NewJob(a);
    assert job.key in Keys(job);
    assert job.art.Some? ==> ArtKey(job) in Keys(job);
    forall name | name in s.found
      ensures name !in Own(job)
    {
      assert Stored(s.dir, name, s.found[name]);
    }
  }

  lemma OthersStepKeeps(s: State, a: Action, i: nat)
    requires JobsOk(s) && JobsAreApart(s) && Enabled(s, a) && !a.Start? && i in s.jobs && i != a.j
    ensures Apart(s.jobs[i], Advance(s.dir, s.jobs[a.j], a).1)
    ensures Apart(Advance(s.dir, s.jobs[a.j], a).1, s.jobs[i])
    ensures JobOk(Advance(s.dir, s.jobs[a.j], a).0, s.jobs[i])
  {
    var (dir', job') := Advance(s.dir, s.jobs[a.j], a);
    OwnStepKeeps(s.dir, s.jobs[a.j], a);
    assert Apart(s.jobs[i], s.jobs[a.j]);
    JobsApart(s.jobs[i], s.jobs[a.j]);
    assert Apart(s.jobs[i], job');
    JobsApart(s.jobs[i], job');
    assert AgreeOn(Own(s.jobs[i]), s.dir, dir');
    JobOkFrame(s.dir, dir', s.jobs[i]);
  }

  lemma StepKeepsApart(s: State, a: Action)
    requires Inv(s) && Enabled(s, a) && !a.Start?
    ensures JobsAreApart(Step(s, a))
  {
    var s' := Step(s, a);
    forall i, j | i in s'.jobs && j in s'.jobs && i != j
      ensures Apart(s'.jobs[i], s'.jobs[j])
    {
      if i == a.j {
        OthersStepKeeps(s, a, j);
      } else if j == a.j {
        OthersStepKeeps(s, a, i);
      } else {
        assert Apart(s.jobs[i], s.jobs[j]);
      }
    }
  }

  lemma StartKeepsJobs(s: State, a: Action)
    requires Inv(s) && Enabled(s, a) && a.Start?
    ensures JobsOk(Step(s, a)) && JobsAreApart(Step(s, a))
  {
    StartKeeps(s, a);
  }

  lemma ActKeepsJobs(s: State, a: Action)
    requires Inv(s) && Enabled(s, a) && !a.Start?
    ensures JobsOk(Step(s, a))
  {
    var s' := Step(s, a);
    OwnStepKeeps(s.dir, s.jobs[a.j], a);
    forall i | i in s.jobs && i != a.j
      ensures JobOk(s'.dir, s'.jobs[i])
    {
      OthersStepKeeps(s, a, i);
    }
  }

  lemma StepKeepsJobs(s: State, a: Action)
    requires Inv(s) && Enabled(s, a)
    ensures JobsOk(Step(s, a)) && JobsAreApart(Step(s, a))
  {
    if a.Start? {
      StartKeepsJobs(s, a);
    } else {
      ActKeepsJobs(s, a);
      StepKeepsApart(s, a);
    }
  }

  lemma FoundStays(s: State, a: Action, name: string)
    requires Inv(s) && Enabled(s, a) && !a.Start? && name in s.found
    ensures var (dir', job') := Advance(s.dir, s.jobs[a.j], a);
      name !in Own(job') && Stored(dir', name, s.found[name])
  {
    var job := s.jobs[a.j];
    OwnStepKeeps(s.dir, job, a);
    assert Stored(s.dir, name, s.found[name]) && name !in Own(job);
    assert Keys(Advance(s.dir, job, a).1) == Keys(job);
  }

  /** What was there before is not a name of any job. */
  lemma StepKeepsFound(s: State, a: Action)
    requires Inv(s) && Enabled(s, a)
    ensures FoundOk(Step(s, a))
  {
    if a.Start? {
      StartKeeps(s, a);
    } else {
      forall name | name in s.found
        ensures name !in Own(Step(s, a).jobs[a.j]) && Stored(Step(s, a).dir, name, s.found[name])
      {
        FoundStays(s, a, name);
      }
    }
  }

  lemma StepKeepsRows(s: State, a: Action)
    requires RowsOk(s) && Enabled(s, a)
    ensures RowsOk(Step(s, a))
  {
  }

  lemma KnownStays(s: State, a: Action, name: string)
    requires Enabled(s, a) && Known(s, name)
    ensures Known(Step(s, a), name)
  {
    var s' := Step(s, a);
    if name !in s.found {
      var j :| j in s.jobs && name in Keys(s.jobs[j]);
      assert j in s'.jobs && Keys(s'.jobs[j]) == Keys(s.jobs[j]);
    }
  }

  lemma StepKeepsNames(s: State, a: Action)
    requires Inv(s) && Enabled(s, a)
    ensures NamesOk(Step(s, a))
  {
    var s' := Step(s, a);
    if !a.Start? {
      OwnStepKeeps(s.dir, s.jobs[a.j], a);
    }
    forall name | name in s'.dir && !TempName(name)
      ensures Known(s', name)
    {
      if name in s.dir {
        KnownStays(s, a, name);
      } else {
        assert a.j in s'.jobs && name in Keys(s'.jobs[a.j]);
      }
    }
  }

  /** Main result: every step of every ingest keeps the invariant. */
  lemma StepKeepsInv(s: State, a: Action)
    requires Inv(s) && Enabled(s, a)
    ensures Inv(Step(s, a))
  {
    StepKeepsJobs(s, a);
    StepKeepsFound(s, a);
    StepKeepsRows(s, a);
    StepKeepsNames(s, a);
  }

  /** Main result: readers see a step only when it publishes one complete object at one
      of the ingest's own keys, by a rename, or removes one such key, by a compensating delete. */
  lemma WhatReadersSee(s: State, a: Action)
    requires Inv(s) && Enabled(s, a)
    ensures var before, after := Visible(s.dir), Visible(Step(s, a).dir);
      || after == before
      || (a.Put? && a.act.Rename? && (after == before[s.jobs[a.j].key := s.jobs[a.j].audio]
                        || (s.jobs[a.j].art.Some? && after == before[ArtKey(s.jobs[a.j]) := s.jobs[a.j].art.value.data])))
      || (a.DeleteNext? && exists k :: k in Keys(s.jobs[a.j]) && after == before - {k})
  {
    if !a.Start? {
      var job := s.jobs[a.j];
      assert WellNamed(job) && JobOk(s.dir, job);
      KeysAreNotTemps(job);
      ReadersSee(s.dir, job, a);
    }
  }

  lemma ReadersSee(dir: map<string, Bytes>, job: Job, a: Action)
    requires Ready(dir, job, a)
    ensures var before, after := Visible(dir), Visible(Advance(dir, job, a).0);
      || after == before
      || (a.Put? && a.act.Rename? && (after == before[job.key := job.audio]
                        || (job.art.Some? && after == before[ArtKey(job) := job.art.value.data])))
      || (a.DeleteNext? && exists k :: k in Keys(job) && after == before - {k})
  {
    KeysAreNotTemps(job);
    var dir' := Advance(dir, job, a).0;
    if a.Put? && a.act.Rename? {
      var slot, tmp := job.phase.slot, job.phase.w.tmp;
      assert dir[tmp] + [] == dir[tmp];
      assert Visible(dir') == Visible(dir)[Key(job, slot) := Data(job, slot)];
    } else if a.DeleteNext? && job.phase.keys != [] {
      var k := job.phase.keys[0];
      assert k in job.phase.keys;
      assert k in Keys(job) && Visible(dir') == Visible(dir) - {k};
    } else {
      assert Visible(dir') == Visible(dir);
    }
  }

  // ---------------------------------------------------------------- every run

  ghost predicate Runs(s: State, actions: seq<Action>)
    decreases |actions|
  {
    actions == [] || (Enabled(s, actions[0]) && Runs(Step(s, actions[0]), actions[1..]))
  }

  ghost function After(s: State, actions: seq<Action>): State
    requires Runs(s, actions)
    decreases |actions|
  {
    if actions == [] then s else After(Step(s, actions[0]), actions[1..])
  }

  lemma {:induction false} RunKeepsInv(s: State, actions: seq<Action>)
    requires Inv(s) && Runs(s, actions)
    ensures Inv(After(s, actions)) && After(s, actions).found == s.found
    decreases |actions|
  {
    if actions != [] {
      StepKeepsInv(s, actions[0]);
      RunKeepsInv(Step(s, actions[0]), actions[1..]);
    }
  }

  lemma Reachable(s: State, actions: seq<Action>)
    requires Initial(s) && Runs(s, actions)
    ensures Inv(After(s, actions)) && After(s, actions).found == s.dir
  {
    RunKeepsInv(s, actions);
  }

  /** Main result: in every interleaving, crashes and faults included, a committed track has
      its full audio object, and its artwork object if and only if it names an extension. */
  lemma CommittedTracksAreStored(s: State, actions: seq<Action>, j: nat)
    requires Initial(s) && Runs(s, actions) && j in After(s, actions).rows
    ensures var t := After(s, actions);
      && j in t.jobs
      && Stored(t.dir, t.jobs[j].key, t.jobs[j].audio)
      && (t.rows[j] != "" ==> t.jobs[j].art.Some? && t.rows[j] == t.jobs[j].art.value.ext
                              && Stored(t.dir, t.jobs[j].key + t.rows[j], t.jobs[j].art.value.data))
      && (t.rows[j] == "" && t.jobs[j].art.Some? ==> t.jobs[j].key + t.jobs[j].art.value.ext !in t.dir)
  {
    Reachable(s, actions);
    var t := After(s, actions);
    assert JobOk(t.dir, t.jobs[j]);
  }

  /** Main result: at every moment of every run each object a reader can open is whole: it was
      there before the run, or it is the complete audio or artwork of one ingest. */
  lemma ObjectsAreWhole(s: State, actions: seq<Action>, name: string)
    requires Initial(s) && Runs(s, actions) && name in After(s, actions).dir && !TempName(name)
    ensures var t := After(s, actions);
      || Stored(s.dir, name, t.dir[name])
      || exists j :: j in t.jobs
           && ((name == t.jobs[j].key && t.dir[name] == t.jobs[j].audio)
               || (t.jobs[j].art.Some? && name == ArtKey(t.jobs[j]) && t.dir[name] == t.jobs[j].art.value.data))
  {
    Reachable(s, actions);
    var t := After(s, actions);
    assert Known(t, name);
    if name in t.found {
      assert Stored(t.dir, name, t.found[name]);
    } else {
      var j :| j in t.jobs && name in Keys(t.jobs[j]);
      assert JobOk(t.dir, t.jobs[j]);
    }
  }

  /** No ingest is under way, none crashed, and every compensating delete went through. */
  ghost predicate Settled(s: State) {
    forall j :: j in s.jobs ==> s.jobs[j].phase.Done? || s.jobs[j].phase == Failed(true)
  }

  /** The audio or artwork object of a committed track. */
  ghost predicate ObjectOf(s: State, j: nat, name: string) {
    j in s.rows && j in s.jobs
    && (name == s.jobs[j].key || (s.rows[j] != "" && name == s.jobs[j].key + s.rows[j]))
  }

  lemma VisibleOfSettled(dir: map<string, Bytes>, job: Job, name: string)
    requires JobOk(dir, job) && (job.phase.Done? || job.phase == Failed(true))
    requires name in Keys(job) && name in dir
    ensures job.phase.Done? && (name == job.key || (job.phase.ext != "" && name == job.key + job.phase.ext))
  {
  }

  lemma VisibleIsCommitted(t: State, name: string)
    requires Inv(t) && DoneHaveRows(t) && Settled(t) && name in t.dir && !TempName(name) && name !in t.found
    ensures exists j :: j in t.rows && ObjectOf(t, j, name)
  {
    assert Known(t, name);
    var j :| j in t.jobs && name in Keys(t.jobs[j]);
    assert JobOk(t.dir, t.jobs[j]);
    VisibleOfSettled(t.dir, t.jobs[j], name);
    assert ObjectOf(t, j, name);
  }

  lemma CommittedIsVisible(t: State, j: nat, name: string)
    requires Inv(t) && ObjectOf(t, j, name)
    ensures name in t.dir
  {
    assert JobOk(t.dir, t.jobs[j]);
  }

  /** Main result: once settled, the visible objects are those found at the start and those
      of committed tracks; failed ingests have left nothing behind. */
  lemma FailuresLeaveNothing(s: State, actions: seq<Action>, name: string)
    requires Initial(s) && Runs(s, actions) && Settled(After(s, actions)) && !TempName(name)
    ensures var t := After(s, actions);
      name in t.dir <==> name in s.dir || exists j :: j in t.rows && ObjectOf(t, j, name)
  {
    Reachable(s, actions);
    RunKeepsRows(s, actions);
    var t := After(s, actions);
    if name in t.dir && name !in s.dir {
      VisibleIsCommitted(t, name);
    }
    if name in s.dir {
      assert Stored(t.dir, name, t.found[name]);
    }
    if j :| j in t.rows && ObjectOf(t, j, name) {
      CommittedIsVisible(t, j, name);
    }
  }

  ghost predicate DoneHaveRows(s: State) {
    forall j :: j in s.jobs && s.jobs[j].phase.Done? ==> j in s.rows
  }

  lemma {:induction false} RunKeepsRows(s: State, actions: seq<Action>)
    requires DoneHaveRows(s) && Runs(s, actions)
    ensures DoneHaveRows(After(s, actions))
    decreases |actions|
  {
    if actions != [] {
      RunKeepsRows(Step(s, actions[0]), actions[1..]);
    }
  }

  // ---------------------------------------------------------------- an ingest that nothing disturbs

  lemma OneThen(s: State, a: Action, rest: seq<Action>)
    requires Enabled(s, a) && Runs(Step(s, a), rest)
    ensures Runs(s, [a] + rest) && After(s, [a] + rest) == After(Step(s, a), rest)
  {
    assert ([a] + rest)[1..] == rest;
  }

  /** A temporary name that CreateTemp may pick. */
  ghost predicate Unused(s: State, tmp: string) {
    TempName(tmp) && tmp !in s.dir && forall i :: i in s.jobs ==> tmp !in Temps(s.jobs[i])
  }

  function PutActions(j: nat, acts: seq<Puts.Act>): seq<Action> {
    if acts == [] then [] else [Put(j, acts[0])] + PutActions(j, acts[1..])
  }

  /** Job `j` after a Put has ended, in a directory that is `dir` now. */
  function PutEnded(s: State, j: nat, dir: map<string, Bytes>, slot: Slot, ok: bool): State
    requires j in s.jobs
  {
    s.(dir := dir, jobs := s.jobs[j := s.jobs[j].(phase := if ok then AfterPut(s.jobs[j], slot) else AfterFailedPut(slot))])
  }

  /** A step of the Put changes the directory and the writer's phase, and neither matters to how it ends. */
  lemma EndsAlike(s: State, s': State, j: nat, dir: map<string, Bytes>, slot: Slot, ok: bool)
    requires j in s.jobs && s' == s.(dir := s'.dir, jobs := s'.jobs) && j in s'.jobs
    requires SameJob(s.jobs[j], s'.jobs[j]) && s'.jobs == s.jobs[j := s'.jobs[j]]
    ensures PutEnded(s', j, dir, slot, ok) == PutEnded(s, j, dir, slot, ok)
  {
  }

  lemma PutStep(s: State, j: nat, slot: Slot, w: Puts.Writer, act: Puts.Act)
    requires j in s.jobs && s.jobs[j].phase == Putting(slot, w) && Puts.MayAct(s.dir, w, act)
    requires act.OpenTemp? ==> Unused(s, act.tmp)
    ensures Enabled(s, Put(j, act))
    ensures var (dir', w'), s' := Puts.Acted(s.dir, Key(s.jobs[j], slot), Data(s.jobs[j], slot), w, act), Step(s, Put(j, act));
      if w'.Closed? then s' == PutEnded(s, j, dir', slot, w'.ok)
      else s' == s.(dir := dir', jobs := s.jobs[j := s.jobs[j].(phase := Putting(slot, w'))])
  {
  }

  /** Only the first step opens a temporary file. */
  predicate OpensFirst(acts: seq<Puts.Act>) {
    forall k :: 0 < k < |acts| ==> !acts[k].OpenTemp?
  }

  lemma {:induction false} PutRuns(s: State, j: nat, slot: Slot, w: Puts.Writer, acts: seq<Puts.Act>)
    requires j in s.jobs && s.jobs[j].phase == Putting(slot, w) && acts != [] && OpensFirst(acts)
    requires var key, data := Key(s.jobs[j], slot), Data(s.jobs[j], slot);
      Puts.MayActAll(s.dir, key, data, w, acts) && Puts.ActedAll(s.dir, key, data, w, acts).1.Closed?
    requires acts[0].OpenTemp? ==> Unused(s, acts[0].tmp)
    ensures var t := Puts.ActedAll(s.dir, Key(s.jobs[j], slot), Data(s.jobs[j], slot), w, acts);
      && Runs(s, PutActions(j, acts))
      && After(s, PutActions(j, acts)) == PutEnded(s, j, t.0, slot, t.1.ok)
    decreases |acts|
  {
    var job, s' := s.jobs[j], Step(s, Put(j, acts[0]));
    var (dir', w') := Puts.Acted(s.dir, Key(job, slot), Data(job, slot), w, acts[0]);
    PutStep(s, j, slot, w, acts[0]);
    if acts[1..] == [] {
      OneThen(s, Put(j, acts[0]), []);
    } else {
      MoreToDo(dir', Key(job, slot), Data(job, slot), w', acts[1..]);
      assert forall k :: 0 <= k < |acts[1..]| ==> acts[1..][k] == acts[k + 1];
      PutRuns(s', j, slot, w', acts[1..]);
      OneThen(s, Put(j, acts[0]), PutActions(j, acts[1..]));
      var t := Puts.ActedAll(dir', Key(job, slot), Data(job, slot), w', acts[1..]);
      EndsAlike(s, s', j, t.0, slot, t.1.ok);
    }
  }

  lemma MoreToDo(dir: map<string, Bytes>, key: string, data: Bytes, w: Puts.Writer, acts: seq<Puts.Act>)
    requires acts != [] && Puts.MayActAll(dir, key, data, w, acts)
    ensures !w.Closed?
  {
  }

  /** Both objects in place, or the audio alone if there is no artwork. */
  function BothStored(dir: map<string, Bytes>, job: Job): map<string, Bytes> {
    if job.art.Some? then dir[job.key := job.audio][ArtKey(job) := job.art.value.data] else dir[job.key := job.audio]
  }

  /** Doing `actions` from `s` leads to `t`. */
  ghost predicate Leads(s: State, actions: seq<Action>, t: State) {
    Runs(s, actions) && After(s, actions) == t
  }

  lemma LeadsFrom(s: State, actions: seq<Action>, t: State) returns (s': State)
    requires Leads(s, actions, t) && actions != []
    ensures Enabled(s, actions[0]) && s' == Step(s, actions[0]) && Leads(s', actions[1..], t)
  {
    s' := Step(s, actions[0]);
  }

  lemma LeadsOn(s: State, a: Action, s': State, rest: seq<Action>, t: State)
    requires Enabled(s, a) && s' == Step(s, a) && Leads(s', rest, t)
    ensures Leads(s, [a] + rest, t)
  {
    OneThen(s, a, rest);
  }

  lemma {:induction false} InSequence(s: State, a: seq<Action>, t: State, b: seq<Action>, u: State)
    requires Leads(s, a, t) && Leads(t, b, u)
    ensures Leads(s, a + b, u)
    decreases |a|
  {
    if a == [] {
      assert a + b == b;
    } else {
      var s' := LeadsFrom(s, a, t);
      InSequence(s', a[1..], t, b, u);
      LeadsOn(s, a[0], s', a[1..] + b, u);
      assert a + b == [a[0]] + (a[1..] + b);
    }
  }

  lemma RunsInSequence(s: State, a: seq<Action>, b: seq<Action>)
    requires Runs(s, a) && Runs(After(s, a), b)
    ensures Runs(s, a + b) && After(s, a + b) == After(After(s, a), b)
  {
    InSequence(s, a, After(s, a), b, After(After(s, a), b));
  }

  /** One Put from start to end. */
  lemma OnePut(s: State, j: nat, slot: Slot, tmp: string) returns (actions: seq<Action>)
    requires j in s.jobs && s.jobs[j].phase == Putting(slot, Puts.NotOpen) && WellNamed(s.jobs[j]) && Unused(s, tmp)
    ensures Runs(s, actions)
    ensures After(s, actions) == PutEnded(s, j, s.dir[Key(s.jobs[j], slot) := Data(s.jobs[j], slot)], slot, true)
  {
    var job := s.jobs[j];
    KeysAreNotTemps(job);
    var acts := Puts.AllSteps(tmp, Data(job, slot));
    Puts.UndisturbedPutPublishes(s.dir, Key(job, slot), Data(job, slot), tmp);
    assert acts[0] == Puts.OpenTemp(tmp);
    PutRuns(s, j, slot, Puts.NotOpen, acts);
    actions := PutActions(j, acts);
  }

  lemma InsertAfter(s: State, put: seq<Action>, j: nat)
    requires Runs(s, put) && j in After(s, put).jobs && After(s, put).jobs[j].phase.Inserting?
    ensures Runs(s, put + [Insert(j)])
    ensures After(s, put + [Insert(j)]) == Step(After(s, put), Insert(j))
  {
    OneThen(After(s, put), Insert(j), []);
    assert [Insert(j)] + [] == [Insert(j)];
    RunsInSequence(s, put, [Insert(j)]);
  }

  lemma BothPuts(s: State, j: nat, tmp: string) returns (actions: seq<Action>)
    requires j in s.jobs && s.jobs[j].phase == Putting(AudioSlot, Puts.NotOpen) && WellNamed(s.jobs[j]) && Unused(s, tmp)
    ensures Runs(s, actions)
    ensures var job := s.jobs[j];
      After(s, actions) == s.(dir := BothStored(s.dir, job),
                              jobs := s.jobs[j := job.(phase := Inserting(if job.art.Some? then job.art.value.ext else ""))])
  {
    actions := OnePut(s, j, AudioSlot, tmp);
    if s.jobs[j].art.Some? {
      var s2 := After(s, actions);
      KeysAreNotTemps(s.jobs[j]);
      var art := OnePut(s2, j, ArtSlot, tmp);
      RunsInSequence(s, actions, art);
      assert After(s2, art).jobs == s.jobs[j := s.jobs[j].(phase := Inserting(s.jobs[j].art.value.ext))];
      actions := actions + art;
    }
  }

  /** Main result: an ingest that nothing disturbs ends with its objects stored and with its row,
      which names the artwork's extension, or none if there is no artwork. */
  lemma UndisturbedIngestCommits(s: State, a: Action, tmp: string) returns (actions: seq<Action>)
    requires a.Start? && Enabled(s, a) && Unused(s, tmp)
    ensures Runs(s, [a] + actions)
    ensures var t, ext := After(s, [a] + actions), if a.art.Some? then a.art.value.ext else "";
      && t.rows == s.rows[a.j := ext]
      && a.j in t.jobs && t.jobs[a.j] == NewJob(a).(phase := Done(ext))
      && t.dir == BothStored(s.dir, NewJob(a))
  {
    var put := BothPuts(Step(s, a), a.j, tmp);
    InsertAfter(Step(s, a), put, a.j);
    actions := put + [Insert(a.j)];
    OneThen(s, a, actions);
  }

  /** Main result: an ingest whose artwork cannot be stored still commits, with a row that names none. */
  lemma ArtworkIsOptional(s: State, a: Action, tmp: string) returns (actions: seq<Action>)
    requires a.Start? && Enabled(s, a) && Unused(s, tmp) && a.art.Some?
    ensures Runs(s, [a] + actions)
    ensures var t := After(s, [a] + actions);
      && t.rows == s.rows[a.j := ""]
      && a.j in t.jobs && t.jobs[a.j] == NewJob(a).(phase := Done(""))
      && t.dir == s.dir[a.key := a.audio]
  {
    var s1 := Step(s, a);
    var audio := OnePut(s1, a.j, AudioSlot, tmp);
    OneThen(After(s1, audio), Put(a.j, Puts.Break), []);
    RunsInSequence(s1, audio, [Put(a.j, Puts.Break)] + []);
    var put := audio + ([Put(a.j, Puts.Break)] + []);
    InsertAfter(s1, put, a.j);
    actions := put + [Insert(a.j)];
    OneThen(s, a, actions);
  }
}
