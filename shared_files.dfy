/** The shared files panel (frontend/src/components/common/SharedFiles.tsx): uploading
    the files the user picked one after another with a progress bar, the icon shown for
    each file and how its size is written. Each upload is a request to
    `Files.UploadFile`; which one fails, if any, is a parameter. */
module SharedFiles {
  import opened Wrappers
  import opened Strings
  import opened Domain
  import Files

  /** The first upload that throws: its position in the selection, and what the error
      carries (`err.response?.data?.detail`, `err.message`). */
  datatype UploadFailure = UploadFailure(index: nat, detail: Option<string>, message: string)

  /** `detail || message || 'Unknown error'`. */
  function FailureText(f: UploadFailure): (r: string)
    ensures r != []
    ensures f.detail.Some? && f.detail.value != [] ==> r == f.detail.value
    ensures (f.detail.None? || f.detail.value == []) && f.message != [] ==> r == f.message
  {
    if f.detail.Some? && f.detail.value != [] then f.detail.value
    else if f.message != [] then f.message
    else "Unknown error"
  }

  /** The progress shown after the `i`th of `n` uploads: `((i + 1) / n) * 100`. */
  function Progress(i: nat, n: nat): real
    requires n > 0
  {
    (i + 1) as real / n as real * 100.0
  }

  /** The bar only moves forward, and it is full after the last upload. */
  lemma ProgressLaws(i: nat, j: nat, n: nat)
    requires i < j < n
    ensures 0.0 < Progress(i, n) < Progress(j, n) <= 100.0
    ensures Progress(n - 1, n) == 100.0
  {
    var m := n as real;
    ProgressFull(n);
    ShareLess(0.0, (i + 1) as real, m);
    ShareLess((i + 1) as real, (j + 1) as real, m);
    if j < n - 1 {
      ShareLess((j + 1) as real, m, m);
    }
  }

  /** After the last of `n` uploads the bar is at 100. */
  lemma ProgressFull(n: nat)
    requires n > 0
    ensures Progress(n - 1, n) == 100.0
  {
    assert (n - 1 + 1) as real / n as real == 1.0;
  }

  /** Dividing by the same positive number keeps the order, and so does scaling by 100. */
  lemma ShareLess(a: real, b: real, m: real)
    requires a < b && m > 0.0
    ensures a / m * 100.0 < b / m * 100.0
  {
    assert (b - a) / m > 0.0;
    assert b / m - a / m == (b - a) / m;
  }

  /** How many uploads go through: all of them, or those before the one that fails. */
  function UploadCount(n: nat, failure: Option<UploadFailure>): (k: nat)
    ensures k <= n
    ensures failure.Some? && failure.value.index < n ==> k == failure.value.index
    ensures failure.None? || failure.value.index >= n ==> k == n
  {
    if failure.Some? && failure.value.index < n then failure.value.index else n
  }

  class FilesPanel {
    var isUploading: bool
    var uploadProgress: real

    constructor()
      ensures !isUploading && uploadProgress == 0.0
    {
      isUploading := false;
      uploadProgress := 0.0;
    }

    /** `handleFileSelect`: nothing for no selection or an empty one. Otherwise the files
        are uploaded in order until one fails; after each upload that goes through, the
        bar shows its share (`shown`). A failure stops the loop and is alerted. Either
        way the panel ends not uploading, with the bar back at 0. */
    method HandleFileSelect(selected: Option<seq<Files.Upload>>, failure: Option<UploadFailure>)
      returns (uploaded: seq<Files.Upload>, shown: seq<real>, alert: Option<string>)
      modifies this
      ensures selected.None? || selected.value == [] ==>
        uploaded == [] && shown == [] && alert.None?
        && isUploading == old(isUploading) && uploadProgress == old(uploadProgress)
      ensures selected.Some? && selected.value != [] ==>
        var n := |selected.value|;
        var k := UploadCount(n, failure);
        uploaded == selected.value[..k]
        && |shown| == k && (forall i :: 0 <= i < k ==> shown[i] == Progress(i, n))
        && (alert.Some? <==> k < n)
        && (k < n ==> alert == Some("Failed to upload file: " + FailureText(failure.value)))
        && !isUploading && uploadProgress == 0.0
    {
      if selected.None? || |selected.value| == 0 {
        return [], [], None;
      }
      var files := selected.value;
      var n := |files|;
      isUploading := true;
      uploadProgress := 0.0;
      uploaded, shown, alert := [], [], None;
      var i := 0;
      while i < n
        invariant 0 <= i <= n && i <= UploadCount(n, failure)
        invariant uploaded == files[..i]
        invariant |shown| == i && forall j :: 0 <= j < i ==> shown[j] == Progress(j, n)
        invariant alert.None?
      {
        if failure.Some? && failure.value.index == i {
          alert := Some("Failed to upload file: " + FailureText(failure.value));
          break;
        }
        uploaded := uploaded + [files[i]];
        uploadProgress := (i + 1) as real / n as real * 100.0;
        shown := shown + [uploadProgress];
        i := i + 1;
      }
      isUploading := false;
      uploadProgress := 0.0;
    }
  }

  /** The icon of a file, by its lower-cased extension. */
  datatype Icon = PdfIcon | PictureIcon | DocumentIcon | OtherIcon

  function Glyph(icon: Icon): string {
    match icon
    case PdfIcon => "\U{1F4C4}"
    case PictureIcon => "\U{1F5BC}\U{FE0F}"
    case DocumentIcon => "\U{1F4DD}"
    case OtherIcon => "\U{1F4CE}"
  }

  const PictureExtensions := [".png", ".jpg", ".jpeg", ".gif", ".svg"]

  /** `getFileIcon`. */
  function FileIcon(extension: string): (r: Icon)
    ensures r == PdfIcon <==> ToLower(extension) == ".pdf"
    ensures r == PictureIcon <==> ToLower(extension) in PictureExtensions
    ensures r == DocumentIcon <==> ToLower(extension) in [".docx", ".doc"]
  {
    var ext := ToLower(extension);
    if ext == ".pdf" then PdfIcon
    else if ext in PictureExtensions then PictureIcon
    else if ext in [".docx", ".doc"] then DocumentIcon
    else OtherIcon
  }

  /** The icon agrees with the type the backend gives the file: a drawing gets the PDF
      icon, a document the document icon, and an image either the picture icon or, when
      its extension is not a picture one, the paper clip. */
  lemma IconAgreesWithFileType(extension: string)
    ensures Files.GetFileType(extension) == Drawing <==> FileIcon(extension) == PdfIcon
    ensures Files.GetFileType(extension) == Document <==> FileIcon(extension) == DocumentIcon
    ensures Files.GetFileType(extension) == Image <==> FileIcon(extension) in {PictureIcon, OtherIcon}
  {
  }

  /** How `formatFileSize` writes a size: whole bytes, or kilobytes or megabytes as the
      number `toFixed(1)` then rounds. */
  datatype SizeLabel = Bytes(count: int) | Kilobytes(kb: real) | Megabytes(mb: real)

  function FormatFileSize(bytes: int): (r: SizeLabel)
    ensures r.Bytes? <==> bytes < 1024
    ensures r.Bytes? ==> r.count == bytes
    ensures r.Kilobytes? ==> 1.0 <= r.kb < 1024.0 && r.kb * 1024.0 == bytes as real
    ensures r.Megabytes? ==> 1.0 <= r.mb && r.mb * 1048576.0 == bytes as real
  {
    if bytes < 1024 then Bytes(bytes)
    else if bytes < 1024 * 1024 then Kilobytes(bytes as real / 1024.0)
    else Megabytes(bytes as real / (1024.0 * 1024.0))
  }

  /** The unit written after the number. */
  function Unit(size: SizeLabel): string {
    match size
    case Bytes(_) => " B"
    case Kilobytes(_) => " KB"
    case Megabytes(_) => " MB"
  }

  /** Bigger files never get a smaller unit. */
  lemma UnitMonotone(a: int, b: int)
    requires a <= b
    ensures FormatFileSize(b).Bytes? ==> FormatFileSize(a).Bytes?
    ensures FormatFileSize(a).Megabytes? ==> FormatFileSize(b).Megabytes?
  {
  }
}
