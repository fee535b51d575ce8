/** The size gate a media file passes before it is downloaded
    (`check_sizes` in operations.rs). All arithmetic is on `u32`, as in the
    source; overflow wraps as in a release build. */
module Quota {
  import opened Base
  import opened Errors

  const BYTES_PER_MB: nat := 1024 * 1024

  /** `mb * 1024 * 1024` computed in `u32`. */
  function MbToBytes(mb: U32): U32 {
    MulWrap(MulWrap(mb, 1024), 1024)
  }

  /** Below 4096 MB the conversion does not overflow. */
  lemma MbToBytesExact(mb: U32)
    requires mb < 4096
    ensures MbToBytes(mb) == mb * BYTES_PER_MB
  {
    assert mb * 1024 < 4096 * 1024;
    assert MulWrap(mb, 1024) == mb * 1024;
    assert (mb * 1024) * 1024 < 4096 * 1024 * 1024;
    assert (mb * 1024) * 1024 == mb * BYTES_PER_MB;
  }

  /** Rejects a file larger than its per-file cap; otherwise rejects it when
      it and the user's folder together exceed the per-user cap. Equality
      passes both checks. */
  function CheckSizes(kind: FileType, fileSize: U32, maxFileMb: U32, folderSize: U32, maxFolderMb: U32): (r: Result<(), Error>)
    ensures r.Err? ==> r.error == FileTooLarge(kind, maxFileMb) || r.error == FolderTooLarge(maxFolderMb)
    ensures r == Err(FileTooLarge(kind, maxFileMb)) <==> fileSize > MbToBytes(maxFileMb)
    ensures r == Err(FolderTooLarge(maxFolderMb))
            <==> fileSize <= MbToBytes(maxFileMb) && AddWrap(fileSize, folderSize) > MbToBytes(maxFolderMb)
  {
    var maxFolderSize := MbToBytes(maxFolderMb);
    var maxFileSize := MbToBytes(maxFileMb);
    if fileSize > maxFileSize then
      Err(FileTooLarge(kind, maxFileMb))
    else if AddWrap(fileSize, folderSize) > maxFolderSize then
      Err(FolderTooLarge(maxFolderMb))
    else
      Ok(())
  }

  /** When nothing overflows, the gate is the plain arithmetic comparison:
      the per-file cap decides first, then the folder total, each accepting
      equality. */
  lemma CheckSizesExact(kind: FileType, fileSize: U32, maxFileMb: U32, folderSize: U32, maxFolderMb: U32)
    requires maxFileMb < 4096 && maxFolderMb < 4096
    requires fileSize + folderSize < TWO_TO_THE_32
    ensures var r := CheckSizes(kind, fileSize, maxFileMb, folderSize, maxFolderMb);
            && (r == Err(FileTooLarge(kind, maxFileMb)) <==> fileSize > maxFileMb * BYTES_PER_MB)
            && (r == Err(FolderTooLarge(maxFolderMb))
                <==> fileSize <= maxFileMb * BYTES_PER_MB && fileSize + folderSize > maxFolderMb * BYTES_PER_MB)
            && (r.Ok? <==> fileSize <= maxFileMb * BYTES_PER_MB && fileSize + folderSize <= maxFolderMb * BYTES_PER_MB)
  {
    MbToBytesExact(maxFileMb);
    MbToBytesExact(maxFolderMb);
  }

  /** The folder total wraps: a folder already past the cap still admits a
      file whose size carries the sum past 2^32. */
  lemma CheckSizesSumWraps()
    ensures 1 + (TWO_TO_THE_32 - 1) > 4095 * BYTES_PER_MB
    ensures CheckSizes(Photo, 1, 5, TWO_TO_THE_32 - 1, 4095).Ok?
  {
  }

  /** A per-user cap of 4096 MB converts to 0 bytes, so a non-empty file
      within a 5 MB file cap is refused with the folder error unless the
      folder total itself wraps. */
  lemma CheckSizesCapWraps(kind: FileType, fileSize: U32, folderSize: U32)
    requires 0 < fileSize <= 5 * BYTES_PER_MB
    requires fileSize + folderSize < TWO_TO_THE_32
    ensures CheckSizes(kind, fileSize, 5, folderSize, 4096) == Err(FolderTooLarge(4096))
  {
    MbToBytesExact(5);
    assert MulWrap(4096, 1024) == 4194304;
    assert MbToBytes(4096) == Wrap(4194304 * 1024) == 0;
  }
}
