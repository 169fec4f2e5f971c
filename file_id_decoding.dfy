/**
 * What decoding a TDLib persistent file ID yields, stated as functions of the
 * byte buffer and the offset the decoder has reached. Each `...At` function
 * reads one record at an offset and returns it with the offset just past it;
 * `PersistentIdV23` and `ParseFileId` decode a whole identifier. The
 * imperative decoder in module `FileIdParse` is proved to compute exactly
 * these values.
 */
module FileIdDecoding {
  import opened Results
  import opened FileIdTypes
  import opened BinaryReading
  import FileType
  import TelegramRle
  import opened FileIdFlags

  // ----- photo size sources -----

  /** The tag a size source is stored under. */
  function SourceTag(s: PhotoSizeSource): int {
    match s
    case Legacy(_) => 0
    case Thumbnail(_, _) => 1
    case DialogPhoto(big, _, _) => if big then 3 else 2
    case StickerSetThumbnail(_, _) => 4
    case FullLegacy(_, _, _) => 5
    case DialogPhotoLegacy(big, _, _, _, _) => if big then 7 else 6
    case StickerSetThumbnailLegacy(_, _, _, _) => 8
    case StickerSetThumbnailVersion(_, _, _) => 9
  }

  /** The range checks the size-source decoder applies to the fields it reads. */
  predicate CheckedSource(s: PhotoSizeSource) {
    match s
    case Thumbnail(fileType, thumbnailType) => 0 <= fileType < FileType.Size && thumbnailType as int <= 255
    case FullLegacy(_, _, localId) => localId >= 0
    case DialogPhotoLegacy(_, _, _, _, localId) => localId >= 0
    case StickerSetThumbnailLegacy(_, _, _, localId) => localId >= 0
    case _ => true
  }

  /** The signed 32-bit word at `i`, known to lie within `data`. */
  function Int32Field(data: seq<Byte>, i: nat): Int32
    requires i + 4 <= |data|
  {
    Int32At(data, i).value.value
  }

  /** The signed 64-bit word at `i`, known to lie within `data`. */
  function LongField(data: seq<Byte>, i: nat): Int64
    requires i + 8 <= |data|
  {
    LongAt(data, i).value.value
  }

  /**
   * A size source at `pos`: a 32-bit tag, then the fields of the variant the
   * tag names.
   */
  function SizeSourceAt(data: seq<Byte>, pos: nat): (r: ReadResult<PhotoSizeSource>)
    ensures r.Ok? ==> Int32At(data, pos).Ok? && SourceTag(r.value.value) == Int32At(data, pos).value.value
    ensures r.Ok? ==> CheckedSource(r.value.value) && pos + 4 < r.value.next <= |data|
    ensures Int32At(data, pos).Ok? && !(0 <= Int32At(data, pos).value.value <= 9) ==> r == Err(UnsupportedError)
  {
    var tag :- Int32At(data, pos);
    var variant, p := tag.value, tag.next;
    if variant == 0 then
      var secret :- LongAt(data, p);
      Ok(Read(Legacy(secret.value), secret.next))
    else if variant == 1 then
      var fileType :- Int32At(data, p);
      if fileType.value < 0 || fileType.value >= FileType.Size then Err(UnsupportedError)
      else
        var thumbnailType :- Int32At(data, fileType.next);
        if thumbnailType.value < 0 || thumbnailType.value > 255 then Err(InvalidFileIdError)
        else Ok(Read(Thumbnail(fileType.value, thumbnailType.value as char), thumbnailType.next))
    else if variant == 2 || variant == 3 then
      var id :- LongAt(data, p);
      var accessHash :- LongAt(data, id.next);
      Ok(Read(DialogPhoto(variant == 3, id.value, accessHash.value), accessHash.next))
    else if variant == 4 then
      var id :- LongAt(data, p);
      var accessHash :- LongAt(data, id.next);
      Ok(Read(StickerSetThumbnail(id.value, accessHash.value), accessHash.next))
    else if variant == 5 then
      var volumeId :- LongAt(data, p);
      var secret :- LongAt(data, volumeId.next);
      var localId :- Int32At(data, secret.next);
      if localId.value < 0 then Err(InvalidFileIdError)
      else Ok(Read(FullLegacy(volumeId.value, secret.value, localId.value), localId.next))
    else if variant == 6 || variant == 7 then
      var id :- LongAt(data, p);
      var accessHash :- LongAt(data, id.next);
      var volumeId :- LongAt(data, accessHash.next);
      var localId :- Int32At(data, volumeId.next);
      if localId.value < 0 then Err(InvalidFileIdError)
      else Ok(Read(DialogPhotoLegacy(variant == 7, id.value, accessHash.value, volumeId.value, localId.value), localId.next))
    else if variant == 8 then
      var id :- LongAt(data, p);
      var accessHash :- LongAt(data, id.next);
      var volumeId :- LongAt(data, accessHash.next);
      var localId :- Int32At(data, volumeId.next);
      if localId.value < 0 then Err(InvalidFileIdError)
      else Ok(Read(StickerSetThumbnailLegacy(id.value, accessHash.value, volumeId.value, localId.value), localId.next))
    else if variant == 9 then
      var id :- LongAt(data, p);
      var accessHash :- LongAt(data, id.next);
      var version :- Int32At(data, accessHash.next);
      Ok(Read(StickerSetThumbnailVersion(id.value, accessHash.value, version.value), version.next))
    else
      Err(UnsupportedError)
  }

  /**
   * The layout of each size-source variant, by byte offset from `pos`: what
   * it decodes to, the offset just past it, the range checks that refuse it,
   * and a range error when the record is cut short.
   */
  lemma SizeSourceLayout(data: seq<Byte>, pos: nat)
    ensures pos + 4 > |data| ==> SizeSourceAt(data, pos) == Err(RangeError)
    ensures pos + 4 <= |data| && Int32Field(data, pos) == 0 ==>
      SizeSourceAt(data, pos) == if pos + 12 <= |data| then Ok(Read(Legacy(LongField(data, pos + 4)), pos + 12))
                                 else Err(RangeError)
    ensures pos + 4 <= |data| && Int32Field(data, pos) == 1 ==>
      SizeSourceAt(data, pos) == if pos + 8 > |data| then Err(RangeError)
           else if !(0 <= Int32Field(data, pos + 4) < FileType.Size) then Err(UnsupportedError)
           else if pos + 12 > |data| then Err(RangeError)
           else if !(0 <= Int32Field(data, pos + 8) <= 255) then Err(InvalidFileIdError)
           else Ok(Read(Thumbnail(Int32Field(data, pos + 4), Int32Field(data, pos + 8) as char), pos + 12))
    ensures pos + 4 <= |data| && (Int32Field(data, pos) == 2 || Int32Field(data, pos) == 3) ==>
      SizeSourceAt(data, pos) == if pos + 20 <= |data|
           then Ok(Read(DialogPhoto(Int32Field(data, pos) == 3, LongField(data, pos + 4), LongField(data, pos + 12)),
                        pos + 20))
           else Err(RangeError)
    ensures pos + 4 <= |data| && Int32Field(data, pos) == 4 ==>
      SizeSourceAt(data, pos) == if pos + 20 <= |data|
           then Ok(Read(StickerSetThumbnail(LongField(data, pos + 4), LongField(data, pos + 12)), pos + 20))
           else Err(RangeError)
    ensures pos + 4 <= |data| && Int32Field(data, pos) == 5 ==>
      SizeSourceAt(data, pos) == if pos + 24 > |data| then Err(RangeError)
           else if Int32Field(data, pos + 20) < 0 then Err(InvalidFileIdError)
           else Ok(Read(FullLegacy(LongField(data, pos + 4), LongField(data, pos + 12), Int32Field(data, pos + 20)),
                        pos + 24))
    ensures pos + 4 <= |data| && (Int32Field(data, pos) == 6 || Int32Field(data, pos) == 7) ==>
      SizeSourceAt(data, pos) == if pos + 32 > |data| then Err(RangeError)
           else if Int32Field(data, pos + 28) < 0 then Err(InvalidFileIdError)
           else Ok(Read(DialogPhotoLegacy(Int32Field(data, pos) == 7, LongField(data, pos + 4), LongField(data, pos + 12),
                                          LongField(data, pos + 20), Int32Field(data, pos + 28)), pos + 32))
    ensures pos + 4 <= |data| && Int32Field(data, pos) == 8 ==>
      SizeSourceAt(data, pos) == if pos + 32 > |data| then Err(RangeError)
           else if Int32Field(data, pos + 28) < 0 then Err(InvalidFileIdError)
           else Ok(Read(StickerSetThumbnailLegacy(LongField(data, pos + 4), LongField(data, pos + 12),
                                                  LongField(data, pos + 20), Int32Field(data, pos + 28)), pos + 32))
    ensures pos + 4 <= |data| && Int32Field(data, pos) == 9 ==>
      SizeSourceAt(data, pos) == if pos + 24 <= |data|
           then Ok(Read(StickerSetThumbnailVersion(LongField(data, pos + 4), LongField(data, pos + 12),
                                                   Int32Field(data, pos + 20)), pos + 24))
           else Err(RangeError)
  {
  }

  // ----- remote file locations -----

  /** A web location: the URL as a length-prefixed string at `pos`, then the access hash. */
  function WebLocationAt(data: seq<Byte>, pos: nat): (r: ReadResult<RemoteFileLocation>)
    ensures r.Ok? <==> BytesAt(data, pos).Ok? && LongAt(data, BytesAt(data, pos).value.next).Ok?
    ensures r.Ok? ==> pos < r.value.next <= |data|
    ensures r.Ok? ==>
      var url := BytesAt(data, pos).value;
      && r.value.value == Web(url.value, LongAt(data, url.next).value.value)
      && r.value.next == url.next + 8
  {
    var url :- BytesAt(data, pos);
    var accessHash :- LongAt(data, url.next);
    Ok(Read(Web(url.value, accessHash.value), accessHash.next))
  }

  /** A common location: the id and the access hash, two 64-bit words. */
  function CommonLocationAt(data: seq<Byte>, pos: nat): (r: ReadResult<RemoteFileLocation>)
    ensures r.Ok? <==> pos + 16 <= |data|
    ensures r.Ok? ==> r.value.next == pos + 16
    ensures r.Ok? ==> r.value.value == Common(LongAt(data, pos).value.value, LongAt(data, pos + 8).value.value)
  {
    var id :- LongAt(data, pos);
    var accessHash :- LongAt(data, id.next);
    Ok(Read(Common(id.value, accessHash.value), accessHash.next))
  }

  /**
   * The conversion a pre-32 photo location applies to the source it has
   * decoded, given the volume id and local id read beside it: plain sources
   * become their legacy forms, `legacy` becomes `fullLegacy` from a secret
   * and a local id read afresh, `fullLegacy` and `thumbnail` stay as they are
   * and every other source is refused.
   */
  function LegacySourceAt(data: seq<Byte>, pos: nat, source: PhotoSizeSource, volumeId: Int64, localId: Int32)
    : (r: ReadResult<PhotoSizeSource>)
    ensures r.Ok? ==> pos <= r.value.next <= |data| || (r.value.next == pos && pos > |data|)
    ensures r.Ok? ==> SourceTag(r.value.value) in {1, 5, 6, 7, 8}
    ensures (source.DialogPhotoLegacy? || source.StickerSetThumbnailLegacy? || source.StickerSetThumbnailVersion?)
      <==> r == Err(InvalidFileIdError)
  {
    match source
    case Legacy(_) =>
      var secret :- LongAt(data, pos);
      var freshLocalId :- Int32At(data, secret.next);
      Ok(Read(FullLegacy(volumeId, secret.value, freshLocalId.value), freshLocalId.next))
    case FullLegacy(_, _, _) => Ok(Read(source, pos))
    case Thumbnail(_, _) => Ok(Read(source, pos))
    case DialogPhoto(big, id, accessHash) =>
      Ok(Read(DialogPhotoLegacy(big, id, accessHash, volumeId, localId), pos))
    case StickerSetThumbnail(id, accessHash) =>
      Ok(Read(StickerSetThumbnailLegacy(id, accessHash, volumeId, localId), pos))
    case _ => Err(InvalidFileIdError)
  }

  /**
   * A photo location at `pos` in the layout of subversion `version`:
   * id and access hash, then from 32 on a size source; from 22 to 31 a volume
   * id, a size source and a local id; below 22 a volume id, a secret and a
   * local id.
   */
  function PhotoLocationAt(data: seq<Byte>, pos: nat, version: int): (r: ReadResult<RemoteFileLocation>)
    ensures r.Ok? ==> r.value.value.Photo?
    ensures r.Ok? ==>
      && pos + 16 <= |data|
      && r.value.value.id == LongAt(data, pos).value.value
      && r.value.value.accessHash == LongAt(data, pos + 8).value.value
  {
    var id :- LongAt(data, pos);
    var accessHash :- LongAt(data, id.next);
    if version >= 32 then
      var source :- SizeSourceAt(data, accessHash.next);
      Ok(Read(Photo(id.value, accessHash.value, source.value), source.next))
    else
      var volumeId :- LongAt(data, accessHash.next);
      if version >= 22 then
        var source :- SizeSourceAt(data, volumeId.next);
        var localId :- Int32At(data, source.next);
        var converted :- LegacySourceAt(data, localId.next, source.value, volumeId.value, localId.value);
        Ok(Read(Photo(id.value, accessHash.value, converted.value), converted.next))
      else
        var secret :- LongAt(data, volumeId.next);
        var localId :- Int32At(data, secret.next);
        var source := FullLegacy(volumeId.value, secret.value, localId.value);
        var converted :- LegacySourceAt(data, localId.next, source, volumeId.value, 0);
        Ok(Read(Photo(id.value, accessHash.value, converted.value), converted.next))
  }

  /** The consistency a photo location's size source must have with the outer file type. */
  predicate SourceMatchesFileType(source: PhotoSizeSource, fileType: int) {
    match source
    case Thumbnail(innerType, _) =>
      innerType == fileType
      && (fileType == FileType.Photo || fileType == FileType.Thumbnail || fileType == FileType.EncryptedThumbnail)
    case DialogPhoto(_, _, _) => fileType == FileType.ProfilePhoto
    case DialogPhotoLegacy(_, _, _, _, _) => fileType == FileType.ProfilePhoto
    case StickerSetThumbnail(_, _) => fileType == FileType.Thumbnail
    case StickerSetThumbnailLegacy(_, _, _, _) => fileType == FileType.Thumbnail
    case StickerSetThumbnailVersion(_, _, _) => fileType == FileType.Thumbnail
    case _ => true
  }

  /** The location at `pos`, chosen by the web flag and then by the file type. */
  function LocationAt(data: seq<Byte>, pos: nat, fileType: int, isWeb: bool, version: int)
    : (r: ReadResult<RemoteFileLocation>)
    ensures r.Ok? ==> (r.value.value.Web? <==> isWeb)
    ensures r.Ok? && !isWeb ==> (r.value.value.Photo? <==> FileType.IsPhotoType(fileType))
    ensures r.Ok? && r.value.value.Photo? ==> SourceMatchesFileType(r.value.value.source, fileType)
    ensures r.Ok? && r.value.value.Common? ==> FileType.IsCommonType(fileType) && !FileType.IsPhotoType(fileType)
    ensures !isWeb && !FileType.IsPhotoType(fileType) && !FileType.IsCommonType(fileType) ==> r == Err(UnsupportedError)
    ensures isWeb ==> r == WebLocationAt(data, pos)
    ensures !isWeb && !FileType.IsPhotoType(fileType) && FileType.IsCommonType(fileType) ==> r == CommonLocationAt(data, pos)
    ensures !isWeb && FileType.IsPhotoType(fileType) && PhotoLocationAt(data, pos, version).Err? ==>
      r == PhotoLocationAt(data, pos, version)
    ensures (!isWeb && FileType.IsPhotoType(fileType) && PhotoLocationAt(data, pos, version).Ok?
      && SourceMatchesFileType(PhotoLocationAt(data, pos, version).value.value.source, fileType))
      ==> r == PhotoLocationAt(data, pos, version)
    ensures (!isWeb && FileType.IsPhotoType(fileType) && PhotoLocationAt(data, pos, version).Ok?
      && !SourceMatchesFileType(PhotoLocationAt(data, pos, version).value.value.source, fileType))
      ==> r == Err(InvalidFileIdError)
  {
    if isWeb then WebLocationAt(data, pos)
    else if FileType.IsPhotoType(fileType) then
      var location :- PhotoLocationAt(data, pos, version);
      if SourceMatchesFileType(location.value.source, fileType) then Ok(location)
      else Err(InvalidFileIdError)
    else if FileType.IsCommonType(fileType) then CommonLocationAt(data, pos)
    else Err(UnsupportedError)
  }

  // ----- the whole identifier -----

  /** The optional file reference at `pos`; the one-byte reference "#" means "no valid reference". */
  function FileReferenceAt(data: seq<Byte>, pos: nat, present: bool): (r: ReadResult<Option<seq<Byte>>>)
    ensures !present ==> r == Ok(Read(None, pos))
    ensures r.Ok? ==> r.value.value != Some([0x23])
    ensures present ==> (r.Ok? <==> BytesAt(data, pos).Ok?)
    ensures present && r.Ok? ==> (
      && r.value.next == BytesAt(data, pos).value.next
      && (r.value.value == None <==> BytesAt(data, pos).value.value == [0x23])
      && (r.value.value.Some? ==> r.value.value.value == BytesAt(data, pos).value.value))
  {
    if !present then Ok(Read(None, pos))
    else
      var reference :- BytesAt(data, pos);
      if |reference.value| == 1 && reference.value[0] == 0x23 then Ok(Read(None, reference.next))
      else Ok(Read(Some(reference.value), reference.next))
  }

  /**
   * What every decoded identifier satisfies: a file type in range, no "#"
   * placeholder reference, and a location of the kind its type calls for
   * (a web location may carry any type).
   */
  predicate WellFormed(id: FullRemoteFileLocation) {
    && 0 <= id.fileType < FileType.Size
    && id.fileReference != Some([0x23])
    && (id.location.Photo? ==>
          FileType.IsPhotoType(id.fileType) && SourceMatchesFileType(id.location.source, id.fileType))
    && (id.location.Common? ==> FileType.IsCommonType(id.fileType) && !FileType.IsPhotoType(id.fileType))
  }

  /** The raw type word at the start of the RLE-decoded payload. */
  function RawTypeOf(binary: seq<Byte>): ReadResult<Int32> {
    Int32At(TelegramRle.RleDecode(binary), 0)
  }

  /** Decoding of a generation-2 or generation-3 payload (markers already removed) of subversion `version`. */
  function PersistentIdV23(binary: seq<Byte>, version: int): (r: Result<FullRemoteFileLocation, FileIdError>)
    ensures version < 0 || version > CurrentVersion ==> r == Err(UnsupportedError)
    ensures r.Ok? ==> WellFormed(r.value)
    ensures r.Ok? ==> RawTypeOf(binary).Ok? && r.value.fileType == FileTypeOf(RawTypeOf(binary).value.value)
    ensures r.Ok? ==> (r.value.location.Web? <==> HasFlag(RawTypeOf(binary).value.value, WebLocationFlag))
    ensures r.Ok? && !HasFlag(RawTypeOf(binary).value.value, FileReferenceFlag) ==> r.value.fileReference == None
    ensures (0 <= version <= CurrentVersion && RawTypeOf(binary).Ok?
      && !(0 <= FileTypeOf(RawTypeOf(binary).value.value) < FileType.Size)) ==> r == Err(UnsupportedError)
    ensures r.Ok? ==> var data := TelegramRle.RleDecode(binary);
      && Int32At(data, 4).Ok? && r.value.dcId == Int32At(data, 4).value.value
      && var reference := FileReferenceAt(data, 8, HasFlag(RawTypeOf(binary).value.value, FileReferenceFlag));
      && reference.Ok? && r.value.fileReference == reference.value.value
      && var location := LocationAt(data, reference.value.next, r.value.fileType,
                                    HasFlag(RawTypeOf(binary).value.value, WebLocationFlag), version);
      && location.Ok? && r.value.location == location.value.value
    ensures (&& 0 <= version <= CurrentVersion && RawTypeOf(binary).Ok?
             && var data, raw := TelegramRle.RleDecode(binary), RawTypeOf(binary).value.value;
             && 0 <= FileTypeOf(raw) < FileType.Size && Int32At(data, 4).Ok?
             && var reference := FileReferenceAt(data, 8, HasFlag(raw, FileReferenceFlag));
             && reference.Ok?
             && LocationAt(data, reference.value.next, FileTypeOf(raw), HasFlag(raw, WebLocationFlag), version).Ok?)
      ==> r.Ok?
  {
    if version < 0 || version > CurrentVersion then Err(UnsupportedError)
    else
      var data := TelegramRle.RleDecode(binary);
      var rawType :- Int32At(data, 0);
      var isWeb := HasFlag(rawType.value, WebLocationFlag);
      var hasFileReference := HasFlag(rawType.value, FileReferenceFlag);
      var fileType := FileTypeOf(rawType.value);
      if fileType < 0 || fileType >= FileType.Size then Err(UnsupportedError)
      else
        var dcId :- Int32At(data, rawType.next);
        var fileReference :- FileReferenceAt(data, dcId.next, hasFileReference);
        var location :- LocationAt(data, fileReference.next, fileType, isWeb, version);
        Ok(FullRemoteFileLocation(dcId.value, fileType, fileReference.value, location.value))
  }

  /** `binary.slice(0, -n)`: all but the last `n` bytes, or nothing. */
  function DropLast(binary: seq<Byte>, n: nat): (r: seq<Byte>)
    requires n > 0
    ensures |binary| >= n ==> r == binary[..|binary| - n]
    ensures |binary| < n ==> r == []
  {
    if |binary| >= n then binary[..|binary| - n] else []
  }

  /** Generation 2: the trailing marker is dropped and the subversion is 0. */
  function FromPersistentIdV2(binary: seq<Byte>): Result<FullRemoteFileLocation, FileIdError> {
    PersistentIdV23(DropLast(binary, 1), 0)
  }

  /**
   * Generation 3: the byte before the marker is the subversion and both are
   * dropped. With fewer than two bytes there is no subversion byte and the
   * remaining payload is empty, so the first field read fails.
   */
  function FromPersistentIdV3(binary: seq<Byte>): Result<FullRemoteFileLocation, FileIdError> {
    if |binary| < 2 then Err(RangeError)
    else PersistentIdV23(DropLast(binary, 2), binary[|binary| - 2])
  }

  /** Decoding of a raw file ID, dispatched on its trailing generation marker. */
  function ParseFileId(fileId: seq<Byte>): (r: Result<FullRemoteFileLocation, FileIdError>)
    ensures |fileId| == 0 ==> r == Err(UnsupportedError)
    ensures (|fileId| > 0 && fileId[|fileId| - 1] != PersistentIdVersionOld
      && fileId[|fileId| - 1] != PersistentIdVersion) ==> r == Err(UnsupportedError)
    ensures r.Ok? ==> WellFormed(r.value)
  {
    if |fileId| == 0 then Err(UnsupportedError)
    else
      var version := fileId[|fileId| - 1];
      if version == PersistentIdVersionOld then FromPersistentIdV2(fileId)
      else if version == PersistentIdVersion then FromPersistentIdV3(fileId)
      else Err(UnsupportedError)
  }
}
