/**
 * The file-ID decoder as it runs: each parser reads its fields from a shared
 * `BinaryReader` whose offset advances with every read. Each method is proved
 * to return what the corresponding function of module `FileIdDecoding`
 * describes and to leave the reader just past what it read.
 */
module FileIdParse {
  import opened Results
  import opened FileIdTypes
  import opened BinaryReading
  import opened FileIdFlags
  import opened FileIdDecoding
  import FileType
  import TelegramRle

  method ParseWebFileLocation(reader: BinaryReader) returns (r: Result<RemoteFileLocation, FileIdError>)
    modifies reader
    ensures Observe(r, reader.pos) == WebLocationAt(reader.data, old(reader.pos))
  {
    var url :- reader.String();
    var accessHash :- reader.Long();
    return Ok(Web(url, accessHash));
  }

  method ParsePhotoSizeSource(reader: BinaryReader) returns (r: Result<PhotoSizeSource, FileIdError>)
    modifies reader
    ensures Observe(r, reader.pos) == SizeSourceAt(reader.data, old(reader.pos))
  {
    var variant :- reader.Int32();
    if variant == 0 {
      var secret :- reader.Long();
      return Ok(Legacy(secret));
    } else if variant == 1 {
      var fileType :- reader.Int32();
      if fileType < 0 || fileType >= FileType.Size {
        return Err(UnsupportedError);
      }
      var thumbnailType :- reader.Int32();
      if thumbnailType < 0 || thumbnailType > 255 {
        return Err(InvalidFileIdError);
      }
      return Ok(Thumbnail(fileType, thumbnailType as char));
    } else if variant == 2 || variant == 3 {
      var id :- reader.Long();
      var accessHash :- reader.Long();
      return Ok(DialogPhoto(variant == 3, id, accessHash));
    } else if variant == 4 {
      var id :- reader.Long();
      var accessHash :- reader.Long();
      return Ok(StickerSetThumbnail(id, accessHash));
    } else if variant == 5 {
      var volumeId :- reader.Long();
      var secret :- reader.Long();
      var localId :- reader.Int32();
      if localId < 0 {
        return Err(InvalidFileIdError);
      }
      return Ok(FullLegacy(volumeId, secret, localId));
    } else if variant == 6 || variant == 7 {
      var id :- reader.Long();
      var accessHash :- reader.Long();
      var volumeId :- reader.Long();
      var localId :- reader.Int32();
      if localId < 0 {
        return Err(InvalidFileIdError);
      }
      return Ok(DialogPhotoLegacy(variant == 7, id, accessHash, volumeId, localId));
    } else if variant == 8 {
      var id :- reader.Long();
      var accessHash :- reader.Long();
      var volumeId :- reader.Long();
      var localId :- reader.Int32();
      if localId < 0 {
        return Err(InvalidFileIdError);
      }
      return Ok(StickerSetThumbnailLegacy(id, accessHash, volumeId, localId));
    } else if variant == 9 {
      var id :- reader.Long();
      var accessHash :- reader.Long();
      var version :- reader.Int32();
      return Ok(StickerSetThumbnailVersion(id, accessHash, version));
    } else {
      return Err(UnsupportedError);
    }
  }

  /** The `switch` that upgrades the size source of a photo location written before subversion 32. */
  method ConvertLegacySource(reader: BinaryReader, source: PhotoSizeSource, volumeId: Int64, localId: Int32)
    returns (r: Result<PhotoSizeSource, FileIdError>)
    modifies reader
    ensures Observe(r, reader.pos) == LegacySourceAt(reader.data, old(reader.pos), source, volumeId, localId)
  {
    match source {
      case Legacy(_) =>
        var secret :- reader.Long();
        var freshLocalId :- reader.Int32();
        return Ok(FullLegacy(volumeId, secret, freshLocalId));
      case FullLegacy(_, _, _) =>
        return Ok(source);
      case Thumbnail(_, _) =>
        return Ok(source);
      case DialogPhoto(big, id, accessHash) =>
        return Ok(DialogPhotoLegacy(big, id, accessHash, volumeId, localId));
      case StickerSetThumbnail(id, accessHash) =>
        return Ok(StickerSetThumbnailLegacy(id, accessHash, volumeId, localId));
      case _ =>
        return Err(InvalidFileIdError);
    }
  }

  method ParsePhotoFileLocation(reader: BinaryReader, version: int) returns (r: Result<RemoteFileLocation, FileIdError>)
    modifies reader
    ensures Observe(r, reader.pos) == PhotoLocationAt(reader.data, old(reader.pos), version)
  {
    var id :- reader.Long();
    var accessHash :- reader.Long();
    var source: PhotoSizeSource;

    if version >= 32 {
      source :- ParsePhotoSizeSource(reader);
    } else {
      var volumeId :- reader.Long();
      var localId: Int32 := 0;

      if version >= 22 {
        source :- ParsePhotoSizeSource(reader);
        localId :- reader.Int32();
      } else {
        var secret :- reader.Long();
        var fullLocalId :- reader.Int32();
        source := FullLegacy(volumeId, secret, fullLocalId);
      }

      source :- ConvertLegacySource(reader, source, volumeId, localId);
    }

    return Ok(Photo(id, accessHash, source));
  }

  method ParseCommonFileLocation(reader: BinaryReader) returns (r: Result<RemoteFileLocation, FileIdError>)
    modifies reader
    ensures Observe(r, reader.pos) == CommonLocationAt(reader.data, old(reader.pos))
  {
    var id :- reader.Long();
    var accessHash :- reader.Long();
    return Ok(Common(id, accessHash));
  }

  /** Decodes a payload whose version marker(s) have been removed; `version` is its subversion. */
  method FromPersistentIdV23(binary: seq<Byte>, version: int) returns (r: Result<FullRemoteFileLocation, FileIdError>)
    ensures r == PersistentIdV23(binary, version)
  {
    if version < 0 || version > CurrentVersion {
      return Err(UnsupportedError);
    }

    var data := TelegramRle.RleDecode(binary);
    var reader := new BinaryReader(data);

    var fileType :- reader.Int32();
    ghost var rawType := fileType;

    var isWeb := HasFlag(fileType, WebLocationFlag);
    var hasFileReference := HasFlag(fileType, FileReferenceFlag);

    fileType := ClearFlag(fileType, WebLocationFlag);
    fileType := ClearFlag(fileType, FileReferenceFlag);

    if fileType < 0 || fileType >= FileType.Size {
      return Err(UnsupportedError);
    }

    var dcId :- reader.Int32();

    var fileReference: Option<seq<Byte>> := None;
    if hasFileReference {
      var reference :- reader.Bytes();
      fileReference := Some(reference);
      if |reference| == 1 && reference[0] == 0x23 {
        fileReference := None;
      }
    }
    assert FileReferenceAt(data, 8, hasFileReference) == Ok(Read(fileReference, reader.pos));

    var location: RemoteFileLocation;
    if isWeb {
      location :- ParseWebFileLocation(reader);
    } else if FileType.IsPhotoType(fileType) {
      location :- ParsePhotoFileLocation(reader, version);
      if !SourceMatchesFileType(location.source, fileType) {
        return Err(InvalidFileIdError);
      }
    } else if FileType.IsCommonType(fileType) {
      location :- ParseCommonFileLocation(reader);
    } else {
      return Err(UnsupportedError);
    }

    return Ok(FullRemoteFileLocation(dcId, fileType, fileReference, location));
  }
}
