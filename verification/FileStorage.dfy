/** FileStorage of server/internal/library/library.go: one directory that holds both the
    stored objects and the temporary files of writes in progress. I/O failures are inputs. */
module Storage {
  import opened Tables

  type Bytes = seq<bv8>

  /** Embedded cover art and the file extension it is stored under (".jpg" or ".png"). */
  datatype Artwork = Artwork(ext: string, data: Bytes)

  /** os.CreateTemp(dir, ".put-*") */
  predicate TempName(name: string) {
    name != "" && name[0] == '.'
  }

  /** What readers can see: the directory without the temporary files. */
  function Visible(dir: map<string, Bytes>): map<string, Bytes> {
    map name | name in dir && !TempName(name) :: dir[name]
  }

  function Content(chunks: seq<Bytes>): Bytes {
    if chunks == [] then [] else Content(chunks[..|chunks| - 1]) + chunks[|chunks| - 1]
  }

  /** Main result: the chunks one after the other, in the order they were read. */
  lemma {:induction false} ContentIsInOrder(a: seq<Bytes>, b: seq<Bytes>)
    ensures Content(a + b) == Content(a) + Content(b)
    decreases |b|
  {
    if b == [] {
      assert a + b == a;
    } else {
      var front, last := b[..|b| - 1], b[|b| - 1];
      ContentIsInOrder(a, front);
      assert (a + b)[..|a + b| - 1] == a + front;
      assert Content(a) + (Content(front) + last) == (Content(a) + Content(front)) + last;
    }
  }

  lemma ContentOfOne(chunk: Bytes)
    ensures Content([chunk]) == chunk && Content([]) == []
  {
    assert [chunk][..0] == [];
  }

  /** The first `n` removals of a delete. */
  function Removed(dir: map<string, Bytes>, keys: seq<string>, n: nat): map<string, Bytes>
    requires n <= |keys|
  {
    map name | name in dir && name !in keys[..n] :: dir[name]
  }

  /** Where a Put fails, if it does. */
  datatype PutFault = NoFault | CreateFails | ReadFails(afterChunks: nat) | CloseFails | RenameFails

  predicate Succeeds(fault: PutFault, chunks: nat) {
    fault.NoFault? || (fault.ReadFails? && chunks < fault.afterChunks)
  }

  class FileStorage {
    var dir: map<string, Bytes>

    constructor ()
      ensures dir == map[]
    {
      dir := map[];
    }

    /** io.Copy into an open file: chunk by chunk, until the reader fails. */
    method Copy(file: string, chunks: seq<Bytes>, fault: PutFault) returns (ok: bool)
      requires file in dir && dir[file] == []
      modifies this
      ensures ok <==> !(fault.ReadFails? && fault.afterChunks <= |chunks|)
      ensures exists n :: 0 <= n <= |chunks| && dir == old(dir)[file := Content(chunks[..n])]
      ensures ok ==> dir == old(dir)[file := Content(chunks)]
    {
      ok := fault != ReadFails(0);
      var i := 0;
      while ok && i < |chunks|
        invariant 0 <= i <= |chunks|
        invariant dir == old(dir)[file := Content(chunks[..i])]
        invariant ok <==> fault != ReadFails(i)
        invariant fault.ReadFails? ==> i <= fault.afterChunks
        decreases |chunks| - i
      {
        assert chunks[..i + 1][..i] == chunks[..i];
        dir := dir[file := dir[file] + chunks[i]];
        i := i + 1;
        ok := fault != ReadFails(i);
      }
      assert chunks[..|chunks|] == chunks;
    }

    /** `tmp` is the unused name CreateTemp picks; `removes` says whether the deferred removal
        of it succeeds. */
    method Put(key: string, chunks: seq<Bytes>, tmp: string, fault: PutFault, removes: bool) returns (ok: bool)
      requires TempName(tmp) && tmp !in dir && !TempName(key)
      modifies this
      ensures ok <==> Succeeds(fault, |chunks|)
      ensures ok ==> dir == old(dir)[key := Content(chunks)]
      ensures !ok ==> Visible(dir) == Visible(old(dir))
      ensures !ok && (removes || fault.CreateFails?) ==> dir == old(dir)
    {
      if fault.CreateFails? {
        return false;
      }
      dir := dir[tmp := []];
      ok := Copy(tmp, chunks, fault);
      assert dir - {tmp} == old(dir);
      ok := ok && !fault.CloseFails? && !fault.RenameFails?;
      if ok {
        dir := (dir - {tmp})[key := dir[tmp]];
      } else if removes {
        dir := dir - {tmp};
      }
    }

    method Open(key: string) returns (found: Option<Bytes>)
      ensures found == if key in dir then Some(dir[key]) else None
    {
      found := if key in dir then Some(dir[key]) else None;
    }

    /** A missing key is not an error; a removal that fails ends the loop. */
    method Delete(keys: seq<string>, failsAt: Option<nat>) returns (ok: bool)
      modifies this
      ensures ok <==> !(failsAt.Some? && failsAt.value < |keys|)
      ensures dir == Removed(old(dir), keys, if ok then |keys| else failsAt.value)
    {
      assert dir == Removed(dir, keys, 0);
      for i := 0 to |keys|
        invariant dir == Removed(old(dir), keys, i)
        invariant failsAt.Some? ==> i <= failsAt.value
      {
        if failsAt == Some(i) {
          return false;
        }
        assert keys[..i + 1] == keys[..i] + [keys[i]];
        dir := dir - {keys[i]};
      }
      ok := true;
    }
  }

  /** Deleting again, or deleting what was never there, changes nothing; other names stay. */
  lemma DeleteIsIdempotent(dir: map<string, Bytes>, keys: seq<string>, n: nat, m: nat)
    requires n <= m <= |keys|
    ensures Removed(Removed(dir, keys, n), keys, m) == Removed(dir, keys, m)
    ensures forall name :: name in keys[..n] ==> name !in Removed(dir, keys, n)
    ensures forall name :: name !in keys ==> (name in Removed(dir, keys, n) <==> name in dir)
    ensures forall name :: name in Removed(dir, keys, n) ==> Removed(dir, keys, n)[name] == dir[name]
  {
    assert forall name :: name in keys[..n] ==> name in keys[..m] && name in keys by {
      assert keys[..n] == keys[..m][..n];
    }
  }
}
