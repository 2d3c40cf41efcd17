/** The upload field of components/ui/file-upload.tsx: a picked or dropped
    file is checked against the accepted types, then against the size
    limit, and only a file that passes both becomes the selection and is
    reported to the parent through `onFileSelect`. The component's state
    and the calls it makes to the parent and to `alert` are fields. */
module FileUploads {
  import opened Optional
  import opened Strings

  /** What the browser's `File` tells the component. */
  datatype FileInfo = FileInfo(name: string, mimeType: string, size: int)

  const ImagePattern: string := "image/*"
  const ImagePrefix: string := "image/"
  const DefaultAcceptedTypes: seq<string> := [ImagePattern]
  /** The default limit, in megabytes. */
  const DefaultMaxSize: nat := 5
  const BytesPerMegabyte: nat := 1024 * 1024

  const InvalidTypeAlert: string := "Invalid file type. Please select a valid file."

  function SizeAlert(maxSize: nat): string {
    "File size must be less than " + NatToString(maxSize) + "MB."
  }

  /** One accepted pattern: the image wildcard admits every image type, any other
      pattern only the type it names. */
  predicate PatternAdmits(pattern: string, mimeType: string) {
    if pattern == ImagePattern then StartsWith(mimeType, ImagePrefix) else mimeType == pattern
  }

  /** `acceptedTypes.some(...)`, tried in order. */
  function TypeAccepted(accepted: seq<string>, mimeType: string): (r: bool)
    ensures r <==> exists i :: 0 <= i < |accepted| && PatternAdmits(accepted[i], mimeType)
  {
    if accepted == [] then false
    else if PatternAdmits(accepted[0], mimeType) then true
    else
      var r := TypeAccepted(accepted[1..], mimeType);
      assert forall i :: 1 <= i < |accepted| ==> accepted[i] == accepted[1..][i - 1];
      r
  }

  /** A file of exactly the limit is allowed; one byte more is not. */
  predicate SizeAccepted(maxSize: nat, size: int) {
    size <= maxSize * BytesPerMegabyte
  }

  datatype Verdict = Accepted | InvalidType | TooLarge

  /** The checks `handleFile` makes, the type first. */
  function Check(accepted: seq<string>, maxSize: nat, f: FileInfo): (r: Verdict)
    ensures r == InvalidType <==> !TypeAccepted(accepted, f.mimeType)
    ensures r == TooLarge <==> TypeAccepted(accepted, f.mimeType) && !SizeAccepted(maxSize, f.size)
    ensures r == Accepted <==> TypeAccepted(accepted, f.mimeType) && SizeAccepted(maxSize, f.size)
  {
    if !TypeAccepted(accepted, f.mimeType) then InvalidType
    else if !SizeAccepted(maxSize, f.size) then TooLarge
    else Accepted
  }

  predicate IsImage(f: FileInfo) {
    StartsWith(f.mimeType, ImagePrefix)
  }

  /** With the default props only images of at most 5 MB are taken. */
  lemma DefaultsAcceptSmallImages(f: FileInfo)
    ensures Check(DefaultAcceptedTypes, DefaultMaxSize, f) == Accepted
      <==> IsImage(f) && f.size <= 5 * 1024 * 1024
  {
    assert TypeAccepted(DefaultAcceptedTypes, f.mimeType) <==> PatternAdmits(ImagePattern, f.mimeType);
  }

  datatype DragKind = DragEnter | DragOver | DragLeave | OtherDrag

  class FileUpload {
    const acceptedTypes: seq<string>
    const maxSize: nat
    var dragActive: bool
    var selectedFile: Option<FileInfo>
    var preview: Option<string>
    /** Every call to `onFileSelect`, in order; None stands for `null`. */
    var reported: seq<Option<FileInfo>>
    /** Every message passed to `alert`, in order. */
    var alerts: seq<string>

    /** The selection is the file last reported to the parent, it passed
        both checks, and a preview is shown only for a selected image. */
    predicate Valid()
      reads this
    {
      && selectedFile == (if reported == [] then None else reported[|reported| - 1])
      && (selectedFile.Some? ==> Check(acceptedTypes, maxSize, selectedFile.value) == Accepted)
      && (preview.Some? ==> selectedFile.Some? && IsImage(selectedFile.value))
    }

    constructor(acceptedTypes: seq<string>, maxSize: nat)
      ensures Valid()
      ensures this.acceptedTypes == acceptedTypes && this.maxSize == maxSize
      ensures !dragActive && selectedFile == None && preview == None
      ensures reported == [] && alerts == []
    {
      this.acceptedTypes := acceptedTypes;
      this.maxSize := maxSize;
      dragActive := false;
      selectedFile := None;
      preview := None;
      reported := [];
      alerts := [];
    }

    /** `handleFile`: a file of the wrong type is refused with the type
        alert (whatever its size), a file over the limit with the size
        alert; either way nothing else changes. An accepted file is
        selected and reported once, and previewed from `dataUrl` (the
        reader's result) when it is an image. */
    method HandleFile(file: FileInfo, dataUrl: string)
      requires Valid()
      modifies this
      ensures Valid()
      ensures dragActive == old(dragActive)
      ensures Check(acceptedTypes, maxSize, file) == InvalidType ==>
        alerts == old(alerts) + [InvalidTypeAlert]
        && selectedFile == old(selectedFile) && preview == old(preview) && reported == old(reported)
      ensures Check(acceptedTypes, maxSize, file) == TooLarge ==>
        alerts == old(alerts) + [SizeAlert(maxSize)]
        && selectedFile == old(selectedFile) && preview == old(preview) && reported == old(reported)
      ensures Check(acceptedTypes, maxSize, file) == Accepted ==>
        alerts == old(alerts)
        && selectedFile == Some(file) && reported == old(reported) + [Some(file)]
        && preview == (if IsImage(file) then Some(dataUrl) else None)
    {
      if !TypeAccepted(acceptedTypes, file.mimeType) {
        alerts := alerts + [InvalidTypeAlert];
        return;
      }
      if file.size > maxSize * BytesPerMegabyte {
        alerts := alerts + [SizeAlert(maxSize)];
        return;
      }
      selectedFile := Some(file);
      reported := reported + [Some(file)];
      if StartsWith(file.mimeType, ImagePrefix) {
        preview := Some(dataUrl);
      } else {
        preview := None;
      }
    }

    /** `handleDrag`: entering or hovering lights the drop zone, leaving
        dims it, other events leave it as it is. */
    method HandleDrag(kind: DragKind)
      modifies this
      ensures dragActive == (if kind == DragEnter || kind == DragOver then true
                             else if kind == DragLeave then false else old(dragActive))
      ensures selectedFile == old(selectedFile) && preview == old(preview)
      ensures reported == old(reported) && alerts == old(alerts)
    {
      if kind == DragEnter || kind == DragOver {
        dragActive := true;
      } else if kind == DragLeave {
        dragActive := false;
      }
    }

    /** `handleDrop`: the zone dims and the first dropped file, if any,
        goes through `handleFile`. */
    method HandleDrop(files: seq<FileInfo>, dataUrl: string)
      requires Valid()
      modifies this
      ensures Valid()
      ensures !dragActive
      ensures files == [] ==>
        selectedFile == old(selectedFile) && preview == old(preview)
        && reported == old(reported) && alerts == old(alerts)
      ensures files != [] && Check(acceptedTypes, maxSize, files[0]) == InvalidType ==>
        alerts == old(alerts) + [InvalidTypeAlert]
        && selectedFile == old(selectedFile) && preview == old(preview) && reported == old(reported)
      ensures files != [] && Check(acceptedTypes, maxSize, files[0]) == TooLarge ==>
        alerts == old(alerts) + [SizeAlert(maxSize)]
        && selectedFile == old(selectedFile) && preview == old(preview) && reported == old(reported)
      ensures files != [] && Check(acceptedTypes, maxSize, files[0]) == Accepted ==>
        alerts == old(alerts)
        && selectedFile == Some(files[0]) && reported == old(reported) + [Some(files[0])]
        && preview == (if IsImage(files[0]) then Some(dataUrl) else None)
    {
      dragActive := false;
      if files != [] {
        HandleFile(files[0], dataUrl);
      }
    }

    /** `handleFileInput`: the first picked file, if any, goes through
        `handleFile`. */
    method HandleFileInput(files: seq<FileInfo>, dataUrl: string)
      requires Valid()
      modifies this
      ensures Valid()
      ensures dragActive == old(dragActive)
      ensures files == [] ==>
        selectedFile == old(selectedFile) && preview == old(preview)
        && reported == old(reported) && alerts == old(alerts)
      ensures files != [] && Check(acceptedTypes, maxSize, files[0]) == InvalidType ==>
        alerts == old(alerts) + [InvalidTypeAlert]
        && selectedFile == old(selectedFile) && preview == old(preview) && reported == old(reported)
      ensures files != [] && Check(acceptedTypes, maxSize, files[0]) == TooLarge ==>
        alerts == old(alerts) + [SizeAlert(maxSize)]
        && selectedFile == old(selectedFile) && preview == old(preview) && reported == old(reported)
      ensures files != [] && Check(acceptedTypes, maxSize, files[0]) == Accepted ==>
        alerts == old(alerts)
        && selectedFile == Some(files[0]) && reported == old(reported) + [Some(files[0])]
        && preview == (if IsImage(files[0]) then Some(dataUrl) else None)
    {
      if files != [] {
        HandleFile(files[0], dataUrl);
      }
    }

    /** `removeFile`: the selection and preview are cleared and the parent
        is told there is no file. */
    method RemoveFile()
      requires Valid()
      modifies this
      ensures Valid()
      ensures selectedFile == None && preview == None
      ensures reported == old(reported) + [None]
      ensures alerts == old(alerts) && dragActive == old(dragActive)
    {
      selectedFile := None;
      preview := None;
      reported := reported + [None];
    }
  }
}
