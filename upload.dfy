/** The image upload zone (calsnap/src/components/UploadZone.tsx): the
    type and size check a chosen file goes through, and the zone's state —
    whether a drag hovers over it, the error it shows, the preview it
    shows, and the files it has handed to `onFileSelect`. The file
    reader's data URL is a field of the file; the `isProcessing` property
    is a parameter of the handlers that read it. */
module Upload {
  import opened Wrappers

  /** 10 MB */
  const MaxFileSize: int := 10 * 1024 * 1024
  const AllowedTypes: seq<string> := ["image/jpeg", "image/png", "image/jpg", "image/webp"]

  const InvalidTypeError: string := "Invalid file type. Please upload a PNG, JPG, or WebP image."
  const TooLargeError: string := "File is too large. Maximum size is 10MB."

  datatype File = File(name: string, mimeType: string, size: nat, dataUrl: string)

  /** The error a file is refused with, if any. The type is checked first. */
  function CheckFile(mimeType: string, size: nat): (error: Option<string>)
    ensures error == Some(InvalidTypeError) <==> mimeType !in AllowedTypes
    ensures error == Some(TooLargeError) <==> mimeType in AllowedTypes && size > MaxFileSize
    ensures error.None? <==> mimeType in AllowedTypes && size <= MaxFileSize
  {
    if mimeType !in AllowedTypes then Some(InvalidTypeError)
    else if size > MaxFileSize then Some(TooLargeError)
    else None
  }

  /** The cap is inclusive: a PNG of exactly 10 MB passes and one byte more
      is refused; a wrong-type file reports the type error whatever its size. */
  lemma {:induction false} SizeBoundary(mimeType: string, size: nat)
    requires mimeType == "image/png"
    ensures CheckFile(mimeType, MaxFileSize) == None
    ensures CheckFile(mimeType, MaxFileSize + 1) == Some(TooLargeError)
    ensures CheckFile("image/gif", size) == Some(InvalidTypeError)
  {
    assert mimeType == AllowedTypes[1];
    assert "image/gif" != AllowedTypes[0] && "image/gif" != AllowedTypes[1];
    assert "image/gif" != AllowedTypes[2] && "image/gif" != AllowedTypes[3];
  }

  class UploadZone {
    var isDragging: bool
    var error: Option<string>
    var preview: Option<string>
    /** The files handed to `onFileSelect`, oldest first. */
    var selected: seq<File>

    constructor ()
      ensures !isDragging && error == None && preview == None && selected == []
    {
      isDragging := false;
      error := None;
      preview := None;
      selected := [];
    }

    /** `validateAndProcessFile`: the error is cleared, then set by the
      first check that fails; a file that passes both is previewed and
      handed on exactly once. */
    method ValidateAndProcessFile(file: File)
      modifies this
      ensures error == CheckFile(file.mimeType, file.size)
      ensures error.None? ==> preview == Some(file.dataUrl) && selected == old(selected) + [file]
      ensures error.Some? ==> preview == old(preview) && selected == old(selected)
      ensures isDragging == old(isDragging)
    {
      error := None;
      if file.mimeType !in AllowedTypes {
        error := Some(InvalidTypeError);
        return;
      }
      if file.size > MaxFileSize {
        error := Some(TooLargeError);
        return;
      }
      preview := Some(file.dataUrl);
      selected := selected + [file];
    }

    /** `handleDrop`: the hover ends; a drop while processing, or one that
      carries no file, changes nothing else; otherwise only the first
      dropped file is checked. */
    method HandleDrop(files: seq<File>, isProcessing: bool)
      modifies this
      ensures !isDragging
      ensures isProcessing || files == [] ==>
        error == old(error) && preview == old(preview) && selected == old(selected)
      ensures !isProcessing && files != [] ==>
        error == CheckFile(files[0].mimeType, files[0].size)
        && selected == old(selected) + (if error.None? then [files[0]] else [])
        && preview == if error.None? then Some(files[0].dataUrl) else old(preview)
    {
      isDragging := false;
      if isProcessing {
        return;
      }
      if files != [] {
        ValidateAndProcessFile(files[0]);
      }
    }

    /** `handleFileInput`: the first chosen file, if any, is checked. */
    method HandleFileInput(files: seq<File>)
      modifies this
      ensures files == [] ==> error == old(error) && preview == old(preview) && selected == old(selected)
      ensures files != [] ==>
        error == CheckFile(files[0].mimeType, files[0].size)
        && selected == old(selected) + (if error.None? then [files[0]] else [])
        && preview == if error.None? then Some(files[0].dataUrl) else old(preview)
      ensures isDragging == old(isDragging)
    {
      if files != [] {
        ValidateAndProcessFile(files[0]);
      }
    }

    /** `handleDragOver`: a hover shows only while not processing. */
    method DragOver(isProcessing: bool)
      modifies this
      ensures isDragging == (old(isDragging) || !isProcessing)
      ensures error == old(error) && preview == old(preview) && selected == old(selected)
    {
      if !isProcessing {
        isDragging := true;
      }
    }

    method DragLeave()
      modifies this
      ensures !isDragging
      ensures error == old(error) && preview == old(preview) && selected == old(selected)
    {
      isDragging := false;
    }

    /** `clearFile`: the preview and the error go; the parent is not told. */
    method ClearFile()
      modifies this
      ensures preview == None && error == None
      ensures isDragging == old(isDragging) && selected == old(selected)
    {
      preview := None;
      error := None;
    }
  }
}
