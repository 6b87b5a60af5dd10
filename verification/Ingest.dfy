/** IngestFile of server/internal/library/ingest.go, start to finish, for one upload. Reading
    the source, the generator, the storage and the database may each fail: what they do is
    an input. */
module Ingest {
  import opened Tables
  import opened Tracks
  import opened Storage
  import opened PlaylistStore
  import opened Uuid
  import Albums

  /** "" and 0 mean the tag is absent. */
  datatype Metadata = Metadata(
    title: string, artist: string, album: string, albumArtist: string, trackNumber: int, artwork: Option<Artwork>)

  datatype Overrides = Overrides(title: string, artist: string, album: string, albumArtist: string, trackNumber: int)

  /** The staged file: what a reader delivers, the type its first bytes look like, its tags. */
  datatype Source = Source(audio: seq<Bytes>, sniffed: string, md: Metadata)

  datatype Environment = Environment(
    readable: bool,
    key: Option<string>,
    audioTmp: string,
    audioFault: PutFault,
    artTmp: string,
    artFault: PutFault,
    removesTemp: bool,
    id: int,
    inserts: bool,
    deleteFailsAt: Option<nat>)

  // ---------------------------------------------------------------- names

  /** unicode.IsSpace */
  predicate IsSpace(c: char) {
    || '\t' <= c <= '\r' || c == ' ' || c == '\U{0085}' || c == '\U{00A0}' || c == '\U{1680}'
    || '\U{2000}' <= c <= '\U{200A}' || c == '\U{2028}' || c == '\U{2029}' || c == '\U{202F}'
    || c == '\U{205F}' || c == '\U{3000}'
  }

  function TrimSpace(s: string): string {
    if s == "" then ""
    else if IsSpace(s[0]) then TrimSpace(s[1..])
    else if IsSpace(s[|s| - 1]) then TrimSpace(s[..|s| - 1])
    else s
  }

  /** The code points of unicode.IsSpace. */
  lemma SpacesAre(c: char)
    ensures IsSpace(c) <==> c as int in {
      0x09, 0x0A, 0x0B, 0x0C, 0x0D, 0x20, 0x85, 0xA0, 0x1680, 0x2000, 0x2001, 0x2002, 0x2003, 0x2004, 0x2005,
      0x2006, 0x2007, 0x2008, 0x2009, 0x200A, 0x2028, 0x2029, 0x202F, 0x205F, 0x3000}
  {
  }

  ghost predicate AllSpaces(s: string) {
    forall i :: 0 <= i < |s| ==> IsSpace(s[i])
  }

  lemma SpaceInFront(s: string, v: string, t: string, w: string)
    requires s != "" && IsSpace(s[0]) && AllSpaces(v) && s[1..] == v + t + w
    ensures s == ([s[0]] + v) + t + w && AllSpaces([s[0]] + v)
  {
    assert s == [s[0]] + s[1..];
  }

  lemma SpaceBehind(s: string, v: string, t: string, w: string)
    requires s != "" && IsSpace(s[|s| - 1]) && AllSpaces(w) && s[..|s| - 1] == v + t + w
    ensures s == v + t + (w + [s[|s| - 1]]) && AllSpaces(w + [s[|s| - 1]])
  {
    assert s == s[..|s| - 1] + [s[|s| - 1]];
  }

  /** Main result: what is trimmed is white space, from either end, and all of it. */
  lemma {:induction false} TrimSpaceIs(s: string) returns (v: string, w: string)
    ensures s == v + TrimSpace(s) + w && AllSpaces(v) && AllSpaces(w)
    ensures TrimSpace(s) != "" ==> !IsSpace(TrimSpace(s)[0]) && !IsSpace(TrimSpace(s)[|TrimSpace(s)| - 1])
    decreases |s|
  {
    v, w := "", "";
    if s != "" {
      if IsSpace(s[0]) {
        v, w := TrimSpaceIs(s[1..]);
        SpaceInFront(s, v, TrimSpace(s), w);
        v := [s[0]] + v;
      } else if IsSpace(s[|s| - 1]) {
        v, w := TrimSpaceIs(s[..|s| - 1]);
        SpaceBehind(s, v, TrimSpace(s), w);
        w := w + [s[|s| - 1]];
      }
    }
  }

  /** Where filepath.Ext starts: at the last dot of the last path element, or at the end. */
  function ExtStart(filename: string, n: nat): (k: nat)
    requires n <= |filename|
    ensures k <= |filename|
  {
    if n == 0 || filename[n - 1] == '/' then |filename|
    else if filename[n - 1] == '.' then n - 1
    else ExtStart(filename, n - 1)
  }

  function Ext(filename: string): string {
    filename[ExtStart(filename, |filename|)..]
  }

  function WithoutExt(filename: string): string {
    filename[..ExtStart(filename, |filename|)]
  }

  /** Main result: the extension is the last dot of the last path element and all that follows. */
  lemma ExtIsTheLastDot(filename: string)
    ensures filename == WithoutExt(filename) + Ext(filename)
    ensures Ext(filename) != "" ==> Ext(filename)[0] == '.' && forall i :: 1 <= i < |Ext(filename)| ==> Ext(filename)[i] != '.' && Ext(filename)[i] != '/'
    ensures Ext(filename) == "" ==> forall i :: 0 <= i < |filename| && filename[i] == '.' ==> exists j :: i < j < |filename| && filename[j] == '/'
  {
    LastDot(filename, |filename|);
  }

  lemma {:induction false} LastDot(filename: string, n: nat)
    requires n <= |filename| && forall i :: n <= i < |filename| ==> filename[i] != '.' && filename[i] != '/'
    ensures var k := ExtStart(filename, n);
      && (k < |filename| ==> filename[k] == '.' && forall i :: k < i < |filename| ==> filename[i] != '.' && filename[i] != '/')
      && (k == |filename| ==> forall i :: 0 <= i < |filename| && filename[i] == '.' ==> exists j :: i < j < |filename| && filename[j] == '/')
  {
    if 0 < n && filename[n - 1] != '/' && filename[n - 1] != '.' {
      LastDot(filename, n - 1);
    }
  }

  /** strings.ToLower, as far as the extensions below go: no other letter folds to one of theirs. */
  function ToLower(s: string): string {
    seq(|s|, i requires 0 <= i < |s| => if 'A' <= s[i] <= 'Z' then 'a' + (s[i] - 'A') else s[i])
  }

  const EXTENSION_MIME_TYPES := map[
    ".mp3" := "audio/mpeg", ".flac" := "audio/flac", ".m4a" := "audio/mp4", ".ogg" := "audio/ogg",
    ".wav" := "audio/wave", ".aac" := "audio/aac", ".opus" := "audio/opus"]

  const UNKNOWN_TYPE := "application/octet-stream"

  predicate IsAudio(mimeType: string) {
    "audio/" <= mimeType
  }

  function ResolveMimeType(declared: string, sniffed: string, filename: string): string {
    if IsAudio(declared) then declared
    else if IsAudio(sniffed) then sniffed
    else if ToLower(Ext(filename)) in EXTENSION_MIME_TYPES then EXTENSION_MIME_TYPES[ToLower(Ext(filename))]
    else UNKNOWN_TYPE
  }

  /** A non-blank override wins over a tag, and a tag over the fallback. */
  function Chosen(override: string, tag: string, fallback: string): string {
    if TrimSpace(override) != "" then TrimSpace(override) else if tag != "" then tag else fallback
  }

  function Resolved(userID: int, key: string, src: Source, filename: string, declared: string, o: Overrides, artworkExt: string): NewTrack {
    NewTrack(
      userID,
      key,
      ResolveMimeType(declared, src.sniffed, filename),
      filename,
      |Content(src.audio)|,
      Chosen(o.title, src.md.title, WithoutExt(filename)),
      Chosen(o.artist, src.md.artist, "Unknown"),
      Chosen(o.album, src.md.album, "Unknown"),
      Chosen(o.albumArtist, src.md.albumArtist, ""),
      if o.trackNumber > 0 then o.trackNumber else src.md.trackNumber,
      artworkExt)
  }

  /** One field of a row: an override that is not blank wins, then the tag, then the fallback. */
  predicate Picks(got: string, override: string, tag: string, fallback: string) {
    && (TrimSpace(override) != "" ==> got == TrimSpace(override))
    && (TrimSpace(override) == "" && tag != "" ==> got == tag)
    && (TrimSpace(override) == "" && tag == "" ==> got == fallback)
  }

  /** The precedence chain, column by column. */
  predicate FollowsTheChain(row: Track, userID: int, key: string, src: Source, filename: string, declared: string, o: Overrides) {
    && row.owner == userID && row.storageKey == key && row.originalFilename == filename
    && Picks(row.title, o.title, src.md.title, WithoutExt(filename))
    && Picks(row.artist, o.artist, src.md.artist, "Unknown")
    && Picks(row.album, o.album, src.md.album, "Unknown")
    && Picks(row.albumArtist, o.albumArtist, src.md.albumArtist, row.artist)
    && (0 < o.trackNumber < 0x8000_0000 ==> row.trackNumber == Some(o.trackNumber))
    && (o.trackNumber <= 0 && 0 < src.md.trackNumber < 0x8000_0000 ==> row.trackNumber == Some(src.md.trackNumber))
    && (o.trackNumber <= 0 && src.md.trackNumber <= 0 ==> row.trackNumber == None)
    && (IsAudio(declared) ==> row.mimeType == declared)
    && (!IsAudio(declared) && IsAudio(src.sniffed) ==> row.mimeType == src.sniffed)
  }

  /** Main result: every row an ingest inserts follows the precedence chain. */
  lemma OverridesWin(userID: int, key: string, src: Source, filename: string, declared: string, o: Overrides, ext: string)
    ensures FollowsTheChain(InsertedRow(Resolved(userID, key, src, filename, declared, o, ext)),
                            userID, key, src, filename, declared, o)
  {
    WhatIsStored(Resolved(userID, key, src, filename, declared, o, ext));
  }

  // ---------------------------------------------------------------- the whole ingest

  predicate AudioIsStored(env: Environment, audio: seq<Bytes>) {
    env.readable && env.key.Some? && Succeeds(env.audioFault, |audio|)
  }

  function StoredExt(env: Environment, md: Metadata): string {
    if md.artwork.Some? && Succeeds(env.artFault, 1) then md.artwork.value.ext else ""
  }

  /** The visible objects once audio and, if it works, artwork are in place. */
  function WithObjects(seen: map<string, Bytes>, env: Environment, audio: seq<Bytes>, md: Metadata): map<string, Bytes>
    requires env.key.Some?
  {
    var dir := seen[env.key.value := Content(audio)];
    if StoredExt(env, md) != "" then dir[env.key.value + StoredExt(env, md) := md.artwork.value.data] else dir
  }

  /** Fresh key, unused temporary names, unused row id, artwork extensions of the tag reader. */
  predicate Plausible(env: Environment, md: Metadata, dir: map<string, Bytes>, tracks: map<int, Track>) {
    && (env.key.Some? ==> UuidShaped(env.key.value) && env.key.value !in dir)
    && (env.key.Some? && md.artwork.Some? ==> env.key.value + md.artwork.value.ext !in dir)
    && (md.artwork.Some? ==> md.artwork.value.ext != "")
    && TempName(env.audioTmp) && TempName(env.artTmp) && env.audioTmp != env.artTmp
    && env.audioTmp !in dir && env.artTmp !in dir
    && env.id !in tracks
  }

  method IngestFile(st: Store, storage: FileStorage, userID: int, src: Source, filename: string, declared: string,
                    o: Overrides, env: Environment) returns (r: Option<Row>)
    requires Plausible(env, src.md, storage.dir, st.tracks)
    modifies st, storage
    ensures r.Some? <==> AudioIsStored(env, src.audio) && env.inserts
    // success: one new row, the audio object whole, the artwork object as the row says
    ensures r.Some? ==>
      var row := InsertedRow(Resolved(userID, env.key.value, src, filename, declared, o, StoredExt(env, src.md)));
      && r == Some(Row(env.id, row))
      && st.Rows() == old(st.Rows()).(tracks := old(st.tracks)[env.id := row])
      && Visible(storage.dir) == WithObjects(Visible(old(storage.dir)), env, src.audio, src.md)
    // the row's fields by precedence: override, tag, fallback
    ensures r.Some? ==> FollowsTheChain(r.value.track, userID, env.key.value, src, filename, declared, o)
    // failure: no row, and if the compensating delete went through, no object
    ensures r.None? ==> st.Rows() == old(st.Rows())
    ensures r.None? && env.deleteFailsAt.None? ==> Visible(storage.dir) == Visible(old(storage.dir))
  {
    if !env.readable {
      return None;
    }

    if env.key.None? {
      return None;
    }
    var key := env.key.value;
    ghost var before := storage.dir;
    var artworkExt, stored := StoreObjects(storage, key, src.audio, src.md, env);
    if !stored {
      return None;
    }
    OverridesWin(userID, key, src, filename, declared, o, artworkExt);
    var nt := ResolveFields(userID, key, src, filename, declared, o, artworkExt);
    r := st.InsertTrack(env.id, nt, env.inserts);
    if r.None? {
      Compensate(storage, key, artworkExt, before, src.audio, src.md, env);
    }
  }

  /** The fallback chain: tags first, then the overrides on top. */
  method ResolveFields(userID: int, key: string, src: Source, filename: string, declared: string, o: Overrides, artworkExt: string)
    returns (nt: NewTrack)
    ensures nt == Resolved(userID, key, src, filename, declared, o, artworkExt)
  {
    var mimeType := ResolveMimeType(declared, src.sniffed, filename);
    var md := src.md;
    var title := md.title;
    if title == "" {
      title := WithoutExt(filename);
    }
    var artist := md.artist;
    if artist == "" {
      artist := "Unknown";
    }
    var album := md.album;
    if album == "" {
      album := "Unknown";
    }
    var albumArtist := md.albumArtist;
    if TrimSpace(o.title) != "" {
      title := TrimSpace(o.title);
    }
    if TrimSpace(o.artist) != "" {
      artist := TrimSpace(o.artist);
    }
    if TrimSpace(o.album) != "" {
      album := TrimSpace(o.album);
    }
    if TrimSpace(o.albumArtist) != "" {
      albumArtist := TrimSpace(o.albumArtist);
    }
    var trackNumber := md.trackNumber;
    if o.trackNumber > 0 {
      trackNumber := o.trackNumber;
    }
    nt := NewTrack(userID, key, mimeType, filename, |Content(src.audio)|, title, artist, album, albumArtist, trackNumber, artworkExt);
  }

  /** The two Puts: without the audio the ingest fails, without the artwork it goes on. */
  method StoreObjects(storage: FileStorage, key: string, audio: seq<Bytes>, md: Metadata, env: Environment)
    returns (artworkExt: string, stored: bool)
    requires env.key == Some(key) && Plausible(env, md, storage.dir, map[])
    modifies storage
    ensures stored <==> Succeeds(env.audioFault, |audio|)
    ensures stored ==> artworkExt == StoredExt(env, md)
    ensures Visible(storage.dir) == if stored then WithObjects(Visible(old(storage.dir)), env, audio, md) else Visible(old(storage.dir))
  {
    artworkExt := "";
    stored := storage.Put(key, audio, env.audioTmp, env.audioFault, env.removesTemp);
    if !stored {
      return;
    }
    assert Visible(storage.dir) == Visible(old(storage.dir))[key := Content(audio)];
    if md.artwork.Some? {
      var art := md.artwork.value;
      ghost var mid := storage.dir;
      assert Content([art.data]) == art.data by { assert Content([art.data][..0]) == []; }
      var ok := storage.Put(key + art.ext, [art.data], env.artTmp, env.artFault, env.removesTemp);
      if ok {
        artworkExt := art.ext;
        assert Visible(storage.dir) == Visible(mid)[key + art.ext := art.data];
      }
    }
  }

  method Compensate(storage: FileStorage, key: string, artworkExt: string, ghost before: map<string, Bytes>,
                    audio: seq<Bytes>, md: Metadata, env: Environment)
    requires env.key == Some(key) && Plausible(env, md, before, map[]) && artworkExt == StoredExt(env, md)
    requires Visible(storage.dir) == WithObjects(Visible(before), env, audio, md)
    modifies storage
    ensures env.deleteFailsAt.None? ==> Visible(storage.dir) == Visible(before)
  {
    var keys := [key];
    if artworkExt != "" {
      keys := keys + [key + artworkExt];
    }
    ghost var full := storage.dir;
    var ok := storage.Delete(keys, env.deleteFailsAt);
    if env.deleteFailsAt.None? {
      assert keys[..|keys|] == keys;
      forall name
        ensures name in Visible(storage.dir) <==> name in Visible(full) && name !in keys
        ensures name in Visible(storage.dir) ==> Visible(storage.dir)[name] == Visible(full)[name]
      {
      }
    }
  }

  // ---------------------------------------------------------------- what every ingested row has

  lemma IngestedRowsHaveAlbumArtists(userID: int, key: string, src: Source, filename: string, declared: string, o: Overrides, ext: string)
    ensures var row := InsertedRow(Resolved(userID, key, src, filename, declared, o, ext));
      row.artist != "" && row.album != "" && row.albumArtist != ""
  {
  }

  /** The row's size is the length of the object the ingest has stored under the row's key. */
  lemma StoredSizeIsRight(userID: int, env: Environment, src: Source, filename: string, declared: string, o: Overrides,
                          dir: map<string, Bytes>, tracks: map<int, Track>)
    requires Plausible(env, src.md, dir, tracks) && env.key.Some?
    ensures var row, after := InsertedRow(Resolved(userID, env.key.value, src, filename, declared, o, StoredExt(env, src.md))),
                              WithObjects(Visible(dir), env, src.audio, src.md);
      && Stored(after, row.storageKey, Content(src.audio)) && row.size == |after[row.storageKey]|
      && (HasArtwork(row) <==> src.md.artwork.Some? && Succeeds(env.artFault, 1))
      && (HasArtwork(row) ==> Stored(after, row.storageKey + row.artworkExt.value, src.md.artwork.value.data))
  {
    if StoredExt(env, src.md) != "" {
      assert |env.key.value + StoredExt(env, src.md)| > |env.key.value|;
    }
  }

  predicate Stored(dir: map<string, Bytes>, name: string, data: Bytes) {
    name in dir && dir[name] == data
  }

  /** A row has an audio type exactly when the declared type, the content or the extension says so. */
  lemma TypeIsUnknownExactlyWhen(declared: string, sniffed: string, filename: string)
    ensures var mt := ResolveMimeType(declared, sniffed, filename);
      && (IsAudio(mt) <==> IsAudio(declared) || IsAudio(sniffed) || ToLower(Ext(filename)) in EXTENSION_MIME_TYPES)
      && (!IsAudio(mt) ==> mt == UNKNOWN_TYPE)
  {
    assert IsAudio("audio/mpeg") && IsAudio("audio/flac") && IsAudio("audio/mp4") && IsAudio("audio/ogg");
    assert IsAudio("audio/wave") && IsAudio("audio/aac") && IsAudio("audio/opus");
    assert UNKNOWN_TYPE[0] == 'a' && UNKNOWN_TYPE[1] == 'p';
  }

  lemma {:induction false} ExtStartOfAppended(stem: string, ext: string, n: nat)
    requires ext != "" && ext[0] == '.' && 0 < n <= |ext| && forall i :: 1 <= i < |ext| ==> ext[i] != '.' && ext[i] != '/'
    ensures ExtStart(stem + ext, |stem| + n) == |stem|
  {
    assert (stem + ext)[|stem| + n - 1] == ext[n - 1];
    if 1 < n {
      ExtStartOfAppended(stem, ext, n - 1);
    }
  }

  /** `upper` is `lower` with some letters in upper case. */
  predicate SameLetters(upper: string, lower: string) {
    |upper| == |lower| &&
    forall i :: 0 <= i < |lower| ==> lower[i] == upper[i] || ('A' <= upper[i] <= 'Z' && lower[i] == 'a' + (upper[i] - 'A'))
  }

  lemma ExtOfAppended(stem: string, ext: string)
    requires ext != "" && ext[0] == '.' && forall i :: 1 <= i < |ext| ==> ext[i] != '.' && ext[i] != '/'
    ensures Ext(stem + ext) == ext
  {
    ExtStartOfAppended(stem, ext, |ext|);
    assert (stem + ext)[|stem|..] == ext;
  }

  lemma LowerCaseOf(ext: string, lower: string)
    requires SameLetters(ext, lower) && forall i :: 0 <= i < |lower| ==> !('A' <= lower[i] <= 'Z')
    ensures ToLower(ext) == lower
  {
  }

  /** Main result: an upload that neither the client nor its content calls audio gets the type its
      extension stands for, in whatever case its letters are. */
  lemma ExtensionDecides(declared: string, sniffed: string, stem: string, ext: string, lower: string)
    requires !IsAudio(declared) && !IsAudio(sniffed)
    requires lower in EXTENSION_MIME_TYPES && SameLetters(ext, lower)
    requires forall i :: 0 <= i < |lower| ==> !('A' <= lower[i] <= 'Z')
    requires ext != "" && ext[0] == '.' && forall i :: 1 <= i < |ext| ==> ext[i] != '.' && ext[i] != '/'
    ensures ResolveMimeType(declared, sniffed, stem + ext) == EXTENSION_MIME_TYPES[lower]
  {
    ExtOfAppended(stem, ext);
    LowerCaseOf(ext, lower);
  }

  // ---------------------------------------------------------------- blank titles

  predicate Plain(filename: string, from: nat, to: nat)
    requires to <= |filename|
  {
    forall i :: from <= i < to ==> filename[i] != '.' && filename[i] != '/'
  }

  lemma {:induction false} ExtStartIs(filename: string, n: nat)
    requires n <= |filename|
    ensures ExtStart(filename, n) == 0 <==> filename == "" || (0 < n && filename[0] == '.' && Plain(filename, 1, n))
  {
    if 0 < n && filename[n - 1] != '.' && filename[n - 1] != '/' {
      ExtStartIs(filename, n - 1);
    }
  }

  /** There is no such guarantee for the title: it is blank exactly when nothing offers one and
      the filename is all extension. */
  lemma TitleIsBlankExactlyWhen(userID: int, key: string, src: Source, filename: string, declared: string, o: Overrides, ext: string)
    ensures InsertedRow(Resolved(userID, key, src, filename, declared, o, ext)).title == "" <==>
      && TrimSpace(o.title) == "" && src.md.title == ""
      && (filename == "" || (filename[0] == '.' && Plain(filename, 1, |filename|)))
  {
    ExtStartIs(filename, |filename|);
  }

  /** An untagged ".mp3" uploaded as it is. */
  lemma TitleCanBeBlank(userID: int, key: string, src: Source, declared: string, o: Overrides, ext: string)
    requires src.md.title == "" && o.title == ""
    ensures InsertedRow(Resolved(userID, key, src, ".mp3", declared, o, ext)).title == ""
  {
    TitleIsBlankExactlyWhen(userID, key, src, ".mp3", declared, o, ext);
  }

  // ---------------------------------------------------------------- libraries of ingested rows

  ghost predicate Ingested(row: Row) {
    exists userID, key, src, filename, declared, o, ext ::
      row.track == InsertedRow(Resolved(userID, key, src, filename, declared, o, ext))
  }

  lemma IngestedIsNotBlank(row: Row)
    requires Ingested(row)
    ensures row.track.albumArtist != ""
  {
    var userID, key, src, filename, declared, o, ext :|
      row.track == InsertedRow(Resolved(userID, key, src, filename, declared, o, ext));
    IngestedRowsHaveAlbumArtists(userID, key, src, filename, declared, o, ext);
  }

  ghost predicate CountsAreRight(rows: seq<Row>) {
    forall i :: 0 <= i < |Albums.ListAlbums(rows)| ==> Albums.CountIsRight(rows, Albums.ListAlbums(rows)[i])
  }

  ghost predicate AllCredited(rows: seq<Row>) {
    forall r :: r in rows ==> r.track.albumArtist != ""
  }

  lemma CreditedCountsAreRight(rows: seq<Row>)
    requires AllCredited(rows)
    ensures CountsAreRight(rows)
  {
    forall i | 0 <= i < |Albums.ListAlbums(rows)|
      ensures Albums.CountIsRight(rows, Albums.ListAlbums(rows)[i])
    {
      Albums.SummariesAreRight(rows, i);
      Albums.CountIsRightExactlyWhen(rows, i);
    }
  }

  /** Main result: a library of rows that came through an ingest is partitioned by its album
      summaries, and each of them counts exactly the tracks its listing shows. */
  lemma IngestedAlbumsPartition(rows: seq<Row>)
    requires forall r :: r in rows ==> Ingested(r)
    ensures multiset(Albums.AllListings(rows, Albums.ListAlbums(rows))) == multiset(rows)
    ensures CountsAreRight(rows)
  {
    forall r | r in rows
      ensures r.track.albumArtist != ""
    {
      IngestedIsNotBlank(r);
    }
    Albums.PartitionExactlyWhen(rows);
    CreditedCountsAreRight(rows);
  }
}
