/** How server/internal/store/tracks.go turns a new track into a row and a row into what
    clients see. */
module Tracks {
  import opened Tables

  /** albumArtist "" means unset, trackNumber 0 untagged, artworkExt "" no artwork. */
  datatype NewTrack = NewTrack(
    userID: int,
    storageKey: string,
    mimeType: string,
    originalFilename: string,
    size: int,
    title: string,
    artist: string,
    album: string,
    albumArtist: string,
    trackNumber: int,
    artworkExt: string)

  const TWO_31: int := 0x8000_0000
  const TWO_32: int := 0x1_0000_0000

  /** int32(n) */
  function Int32(n: int): int {
    var low := n % TWO_32;
    if low < TWO_31 then low else low - TWO_32
  }

  function NullableTrackNumber(n: int): Option<int> {
    if n > 0 then Some(Int32(n)) else None
  }

  function NullableString(s: string): Option<string> {
    if s == "" then None else Some(s)
  }

  function InsertedRow(nt: NewTrack): Track {
    Track(nt.userID, nt.storageKey, nt.mimeType, nt.originalFilename, nt.size, nt.title, nt.artist, nt.album,
          if nt.albumArtist == "" then nt.artist else nt.albumArtist,
          NullableTrackNumber(nt.trackNumber), NullableString(nt.artworkExt))
  }

  /** The derived field of toTrack. */
  predicate HasArtwork(row: Track) {
    row.artworkExt.Some? && row.artworkExt.value != ""
  }

  /** Every column holds the field of its name. */
  lemma ColumnsAreTheFields(nt: NewTrack)
    ensures var row := InsertedRow(nt);
      && row.owner == nt.userID && row.storageKey == nt.storageKey
      && row.mimeType == nt.mimeType && row.originalFilename == nt.originalFilename && row.size == nt.size
      && row.title == nt.title && row.artist == nt.artist && row.album == nt.album
      && (nt.albumArtist != "" ==> row.albumArtist == nt.albumArtist)
      && (nt.albumArtist == "" ==> row.albumArtist == nt.artist)
      && (if nt.artworkExt == "" then row.artworkExt.None? else row.artworkExt == Some(nt.artworkExt))
  {
  }

  /** A positive track number is stored as given exactly when it fits 31 bits, and otherwise as the
      32-bit number congruent to it; artwork shows exactly when an extension was given; the album
      artist is blank only if the artist is. */
  lemma WhatIsStored(nt: NewTrack)
    ensures nt.trackNumber > 0 ==> (InsertedRow(nt).trackNumber == Some(nt.trackNumber) <==> nt.trackNumber < 0x8000_0000)
    ensures nt.trackNumber > 0 ==>
      && InsertedRow(nt).trackNumber.Some?
      && -0x8000_0000 <= InsertedRow(nt).trackNumber.value < 0x8000_0000
      && (nt.trackNumber - InsertedRow(nt).trackNumber.value) % 0x1_0000_0000 == 0
    ensures InsertedRow(nt).trackNumber == None <==> nt.trackNumber <= 0
    ensures HasArtwork(InsertedRow(nt)) <==> nt.artworkExt != ""
    ensures HasArtwork(InsertedRow(nt)) <==> InsertedRow(nt).artworkExt.Some?
    ensures InsertedRow(nt).albumArtist == "" <==> nt.albumArtist == "" && nt.artist == ""
  {
    if 0 <= nt.trackNumber < TWO_31 {
      assert nt.trackNumber % TWO_32 == nt.trackNumber;
    }
    assert nt.trackNumber == nt.trackNumber / TWO_32 * TWO_32 + nt.trackNumber % TWO_32;
  }

  /** The first number that does not fit comes back negative. */
  lemma TrackNumberWraps(nt: NewTrack)
    requires nt.trackNumber == 0x8000_0000
    ensures InsertedRow(nt).trackNumber == Some(-0x8000_0000)
  {
    assert TWO_31 % TWO_32 == TWO_31;
  }
}
