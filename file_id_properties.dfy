/**
 * Properties of the file-ID decoder that relate a decoded value to the bytes
 * it came from: how the trailing markers select the payload and subversion,
 * what the size-source decoder refuses, and which layout a photo location is
 * read in for each subversion.
 */
module FileIdProperties {
  import opened Results
  import opened FileIdTypes
  import opened BinaryReading
  import opened FileIdDecoding

  // ----- trailing markers -----

  /** A generation-2 identifier: the payload before the old marker, at subversion 0. */
  lemma OldMarkerDispatch(payload: seq<Byte>, marker: Byte)
    requires marker == PersistentIdVersionOld
    ensures ParseFileId(payload + [marker]) == PersistentIdV23(payload, 0)
  {
    assert (payload + [marker])[..|payload|] == payload;
  }

  /** A generation-3 identifier: the payload before the subversion byte and the current marker. */
  lemma CurrentMarkerDispatch(payload: seq<Byte>, subversion: Byte, marker: Byte)
    requires marker == PersistentIdVersion && marker != PersistentIdVersionOld
    ensures ParseFileId(payload + [subversion, marker]) == PersistentIdV23(payload, subversion)
  {
    var fileId := payload + [subversion, marker];
    assert fileId[..|fileId| - 2] == payload;
  }

  // ----- size sources -----

  /** A thumbnail source (tag 1) refuses an inner file type out of range, then a thumbnail type out of byte range. */
  lemma ThumbnailSourceErrors(data: seq<Byte>, pos: nat)
    requires Int32At(data, pos).Ok? && Int32At(data, pos).value.value == 1
    ensures Int32At(data, pos + 4).Ok? && !(0 <= Int32At(data, pos + 4).value.value < FileType.Size)
      ==> SizeSourceAt(data, pos) == Err(UnsupportedError)
    ensures (Int32At(data, pos + 8).Ok? && 0 <= Int32At(data, pos + 4).value.value < FileType.Size
      && !(0 <= Int32At(data, pos + 8).value.value <= 255))
      ==> SizeSourceAt(data, pos) == Err(InvalidFileIdError)
  {
  }

  /** Offset, from the tag, of the local id of a tag-5, tag-6/7 or tag-8 source. */
  function LocalIdOffset(tag: int): nat {
    if tag == 5 then 20 else 28
  }

  /** A full-legacy, dialog-photo-legacy or sticker-set-thumbnail-legacy source with a negative local id is refused. */
  lemma NegativeLocalIdRefused(data: seq<Byte>, pos: nat)
    requires Int32At(data, pos).Ok? && Int32At(data, pos).value.value in {5, 6, 7, 8}
    requires var at := pos + LocalIdOffset(Int32At(data, pos).value.value);
      Int32At(data, at).Ok? && Int32At(data, at).value.value < 0
    ensures SizeSourceAt(data, pos) == Err(InvalidFileIdError)
  {
    var at := pos + LocalIdOffset(Int32At(data, pos).value.value);
    assert at + 4 <= |data|;
  }

  // ----- photo locations by subversion -----

  /** From subversion 32 on, the size source after the id and access hash is the location's source, unchanged. */
  lemma PhotoLayoutFrom32(data: seq<Byte>, pos: nat, version: int)
    requires version >= 32
    ensures var r, s := PhotoLocationAt(data, pos, version), SizeSourceAt(data, pos + 16);
      && (r.Ok? <==> s.Ok?)
      && (r.Ok? ==> r.value.value.source == s.value.value && r.value.next == s.value.next)
  {
    var s := SizeSourceAt(data, pos + 16);
    if s.Ok? {
      assert LongAt(data, pos).Ok? && LongAt(data, pos + 8).Ok?;
    }
  }

  /**
   * Below subversion 22 the source is always a full-legacy one built from
   * the volume id, secret and local id that follow the access hash; no tag
   * is read and the local id is not range-checked.
   */
  lemma PhotoLayoutBefore22(data: seq<Byte>, pos: nat, version: int)
    requires version < 22
    ensures var r := PhotoLocationAt(data, pos, version);
      && (r.Ok? <==> pos + 36 <= |data|)
      && (r.Ok? ==> r.value.next == pos + 36 && r.value.value.source == FullLegacy(
            LongAt(data, pos + 16).value.value, LongAt(data, pos + 24).value.value, Int32At(data, pos + 32).value.value))
  {
  }

  /**
   * From subversion 22 to 31 a volume id, a tagged size source and a local id
   * follow the access hash, and the size source is converted by
   * `LegacySourceAt` with that volume id and local id.
   */
  lemma PhotoLayoutFrom22(data: seq<Byte>, pos: nat, version: int)
    requires 22 <= version < 32
    ensures var r, s := PhotoLocationAt(data, pos, version), SizeSourceAt(data, pos + 24);
      r.Ok? ==> (
        && s.Ok? && Int32At(data, s.value.next).Ok?
        && var c := LegacySourceAt(data, s.value.next + 4, s.value.value,
                                   LongAt(data, pos + 16).value.value, Int32At(data, s.value.next).value.value);
        && c.Ok? && r.value.value.source == c.value.value && r.value.next == c.value.next)
    ensures var r, s := PhotoLocationAt(data, pos, version), SizeSourceAt(data, pos + 24);
      (&& s.Ok? && Int32At(data, s.value.next).Ok?
       && LegacySourceAt(data, s.value.next + 4, s.value.value,
                         LongAt(data, pos + 16).value.value, Int32At(data, s.value.next).value.value).Ok?)
      ==> r.Ok?
  {
  }

  /**
   * Between subversions 22 and 31, a dialog-photo-legacy, sticker-set-thumbnail-legacy
   * or versioned sticker-set-thumbnail source is refused.
   */
  lemma PhotoLayoutFrom22Refuses(data: seq<Byte>, pos: nat, version: int)
    requires 22 <= version < 32
    requires var s := SizeSourceAt(data, pos + 24);
      && s.Ok? && Int32At(data, s.value.next).Ok?
      && (s.value.value.DialogPhotoLegacy? || s.value.value.StickerSetThumbnailLegacy?
          || s.value.value.StickerSetThumbnailVersion?)
    ensures PhotoLocationAt(data, pos, version) == Err(InvalidFileIdError)
  {
    assert LongAt(data, pos).Ok? && LongAt(data, pos + 8).Ok? && LongAt(data, pos + 16).Ok?;
  }

  /** What the conversion does to each kind of source. */
  lemma LegacyConversion(data: seq<Byte>, pos: nat, source: PhotoSizeSource, volumeId: Int64, localId: Int32)
    ensures var r := LegacySourceAt(data, pos, source, volumeId, localId);
      && (source.DialogPhoto? ==> r == Ok(Read(
            DialogPhotoLegacy(source.big, source.id, source.accessHash, volumeId, localId), pos)))
      && (source.StickerSetThumbnail? ==> r == Ok(Read(
            StickerSetThumbnailLegacy(source.id, source.accessHash, volumeId, localId), pos)))
      && (source.FullLegacy? || source.Thumbnail? ==> r == Ok(Read(source, pos)))
      && (source.Legacy? ==> (r.Ok? <==> pos + 12 <= |data|))
      && (source.Legacy? && r.Ok? ==> (
            && r.value.next == pos + 12
            && r.value.value == FullLegacy(volumeId, LongAt(data, pos).value.value, Int32At(data, pos + 8).value.value)))
  {
  }

  /** Id 1, access hash 2, volume id 3, tag 2 (dialog photo) with id 4 and access hash 5, local id 6. */
  function ExampleWords(): seq<Byte> {
    [1, 0, 2, 0, 3, 0, 2, 4, 0, 5, 0, 6]
  }

  /** The example words laid out as little-endian 32-bit words. */
  function DialogPhotoExample(): seq<Byte> {
    seq(48, i requires 0 <= i < 48 => if i % 4 == 0 then ExampleWords()[i / 4] else 0)
  }

  /** Word `k` of the example reads back as the `k`th example word. */
  lemma ExampleWordAt(k: nat)
    requires k < 12
    ensures Uint32Le(DialogPhotoExample()[4 * k..4 * k + 4]) == ExampleWords()[k]
  {
    var data := DialogPhotoExample();
    assert data[4 * k] == ExampleWords()[k];
    assert data[4 * k + 1] == data[4 * k + 2] == data[4 * k + 3] == 0;
  }

  /**
   * A worked example: at subversion 25, a photo location whose size source
   * is a small dialog photo (tag 2) comes out as a dialog-photo-legacy source
   * carrying the volume id and local id read around it.
   */
  lemma DialogPhotoAtSubversion25()
    ensures PhotoLocationAt(DialogPhotoExample(), 0, 25)
         == Ok(Read(Photo(1, 2, DialogPhotoLegacy(false, 4, 5, 3, 6)), 48))
  {
    var data := DialogPhotoExample();
    ExampleWordAt(0); ExampleWordAt(1); ExampleWordAt(2); ExampleWordAt(3);
    ExampleWordAt(4); ExampleWordAt(5); ExampleWordAt(6); ExampleWordAt(7);
    ExampleWordAt(8); ExampleWordAt(9); ExampleWordAt(10); ExampleWordAt(11);
    assert SizeSourceAt(data, 24) == Ok(Read(DialogPhoto(false, 4, 5), 44));
  }
}
