/**
 * TDLib's `FileType` enumeration. The numeric code of each member, and the
 * number of members (`Size`), are fixed by the TDLib protocol; they are
 * declared here without values, so that nothing below depends on a
 * particular numbering.
 */
module FileType {
  const Thumbnail: int
  const ProfilePhoto: int
  const Photo: int
  const VoiceNote: int
  const Video: int
  const Document: int
  const Encrypted: int
  const Sticker: int
  const Audio: int
  const Animation: int
  const EncryptedThumbnail: int
  const Wallpaper: int
  const VideoNote: int
  const SecureRaw: int
  const Secure: int
  const Background: int
  const DocumentAsFile: int
  /** One past the largest valid file type code. */
  const Size: int

  /** The types whose remote location is keyed by a photo size source. */
  predicate IsPhotoType(t: int) {
    t == Photo || t == ProfilePhoto || t == Thumbnail || t == EncryptedThumbnail || t == Wallpaper
  }

  /** The types whose remote location is a plain (id, access hash) pair. */
  predicate IsCommonType(t: int) {
    || t == Video || t == VoiceNote || t == Document || t == Sticker || t == Audio
    || t == Animation || t == Encrypted || t == VideoNote || t == SecureRaw
    || t == Secure || t == Background || t == DocumentAsFile
  }
}

/**
 * The value types of a decoded TDLib persistent file ID, the error kinds of
 * the decoder, and the format constants of the identifier.
 */
module FileIdTypes {
  import opened Results

  type Int32 = x: int | -0x8000_0000 <= x < 0x8000_0000
  type Int64 = x: int | -0x8000_0000_0000_0000 <= x < 0x8000_0000_0000_0000
  /** An octet of a byte buffer. */
  type Byte = x: int | 0 <= x < 0x100
  /** A 32-bit pattern, as JavaScript's bitwise operators see a number. */
  type Uint32 = x: nat | x < 0x1_0000_0000

  /** Trailing marker byte of a generation-2 identifier. */
  const PersistentIdVersionOld: int
  /** Trailing marker byte of a generation-3 identifier (preceded by the subversion byte). */
  const PersistentIdVersion: int
  /** Largest subversion this decoder understands. */
  const CurrentVersion: int
  /** Bit of the raw type word saying that the location is a web location. */
  const WebLocationFlag: Uint32
  /** Bit of the raw type word saying that a file reference follows the DC id. */
  const FileReferenceFlag: Uint32

  /**
   * `UnsupportedError`: a generation, subversion, file type or size-source tag
   * that the decoder does not know. `InvalidFileIdError`: a known layout whose
   * contents violate an invariant. `RangeError`: the byte buffer ended before
   * a field did (what the binary reader throws).
   */
  datatype FileIdError = UnsupportedError | InvalidFileIdError | RangeError

  /** How the storage location of a photo is keyed. */
  datatype PhotoSizeSource =
    | Legacy(secret: Int64)
    | Thumbnail(fileType: Int32, thumbnailType: char)
    | DialogPhoto(big: bool, id: Int64, accessHash: Int64)
    | StickerSetThumbnail(id: Int64, accessHash: Int64)
    | FullLegacy(volumeId: Int64, secret: Int64, localId: Int32)
    | DialogPhotoLegacy(big: bool, id: Int64, accessHash: Int64, volumeId: Int64, localId: Int32)
    | StickerSetThumbnailLegacy(id: Int64, accessHash: Int64, volumeId: Int64, localId: Int32)
    | StickerSetThumbnailVersion(id: Int64, accessHash: Int64, version: Int32)

  /** The three kinds of remote file location. A web URL is kept as its raw bytes. */
  datatype RemoteFileLocation =
    | Web(url: seq<Byte>, accessHash: Int64)
    | Photo(id: Int64, accessHash: Int64, source: PhotoSizeSource)
    | Common(id: Int64, accessHash: Int64)

  /** A decoded file ID; `fileReference` is `None` where the source returns `null`. */
  datatype FullRemoteFileLocation = FullRemoteFileLocation(
    dcId: Int32,
    fileType: int,
    fileReference: Option<seq<Byte>>,
    location: RemoteFileLocation)
}
