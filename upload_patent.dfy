/** The inventor's page for sending an existing patent to review
    (frontend/src/pages/inventor/UploadPatent.tsx): picking the PDF, which may fill in the
    title, and the three requests of the submission (create the PATENT_REVIEW disclosure,
    upload the file, link it as the disclosure's patent file) with their progress steps.
    How far the requests get is a parameter. */
module UploadPatent {
  import opened Wrappers
  import opened Strings

  /** The browser's `File`: its name, MIME type and size in bytes. */
  datatype PickedFile = PickedFile(name: string, mimeType: string, size: int)

  const MaxPdfBytes := 50 * 1024 * 1024

  /** `name.replace(/\.pdf$/i, '')`: one trailing ".pdf", in any case, removed. */
  function WithoutPdfExtension(name: string): (r: string)
    ensures |r| <= |name| && r == name[..|r|]
    ensures EndsWith(ToLower(name), ".pdf") ==> |r| == |name| - 4
    ensures !EndsWith(ToLower(name), ".pdf") ==> r == name
  {
    if EndsWith(ToLower(name), ".pdf") then name[..|name| - 4] else name
  }

  /** Lower-casing works character by character, so the last four characters decide. */
  lemma ToLowerSuffix(a: string, b: string)
    ensures ToLower(a + b) == ToLower(a) + ToLower(b)
    ensures |ToLower(a)| == |a|
  {
  }

  /** A name ending in ".pdf" or ".PDF" loses exactly that ending. */
  lemma WithoutPdfExtensionOf(stem: string)
    ensures WithoutPdfExtension(stem + ".pdf") == stem
    ensures WithoutPdfExtension(stem + ".PDF") == stem
  {
    ToLowerSuffix(stem, ".pdf");
    ToLowerSuffix(stem, ".PDF");
    assert ToLower(".PDF") == ".pdf";
    assert ToLower(".pdf") == ".pdf";
    var n := stem + ".pdf";
    assert ToLower(n)[|ToLower(n)| - 4..] == ".pdf";
    assert n[..|n| - 4] == stem;
    var m := stem + ".PDF";
    assert ToLower(m)[|ToLower(m)| - 4..] == ".pdf";
    assert m[..|m| - 4] == stem;
  }

  /** What `disclosureService.create` is sent; the type is PATENT_REVIEW and the
      content empty. */
  datatype CreateRequest = CreateRequest(title: string, assignedLawyerId: Option<int>, patentNumber: Option<string>)

  /** `selectedLawyer || undefined`: no lawyer, and the id 0, are sent as absent. */
  function LawyerField(selected: Option<int>): (r: Option<int>)
    ensures r.Some? <==> selected.Some? && selected.value != 0
    ensures r.Some? ==> r == selected
  {
    if selected.Some? && selected.value != 0 then selected else None
  }

  /** `patentNumber.trim() || undefined`. */
  function PatentNumberField(patentNumber: string): (r: Option<string>)
    ensures r.None? <==> IsBlank(patentNumber)
    ensures r.Some? ==> r.value == JsTrim(patentNumber)
  {
    var t := JsTrim(patentNumber);
    if t != [] then Some(t) else None
  }

  /** How far the submission gets: all three requests go through (with the new
      disclosure's id and file's id), or the request in `step` (0 create, 1 upload,
      2 link) throws with an optional `detail`. */
  datatype Run = Succeeds(disclosureId: int, fileId: int) | FailsAt(step: nat, detail: Option<string>)

  /** The progress values set, in order, until the run stops. */
  function ProgressSteps(run: Run): (r: seq<int>)
    ensures 1 <= |r| <= 4 && r == [10, 30, 70, 100][..|r|]
    ensures run.Succeeds? <==> |r| == 4
    ensures run.FailsAt? ==> |r| == (if run.step <= 2 then run.step + 1 else 3)
  {
    match run
    case Succeeds(_, _) => [10, 30, 70, 100]
    case FailsAt(step, _) => if step == 0 then [10] else if step == 1 then [10, 30] else [10, 30, 70]
  }

  /** The route shown once the patent is in. */
  function DisclosurePath(id: int): string {
    "/inventor/disclosure/" + IntToString(id)
  }

  class UploadForm {
    var title: string
    var patentNumber: string
    var selectedLawyer: Option<int>
    var selectedFile: Option<PickedFile>
    var isSubmitting: bool
    var error: string
    var uploadProgress: int

    constructor()
      ensures title == [] && patentNumber == [] && selectedLawyer.None? && selectedFile.None?
      ensures !isSubmitting && error == [] && uploadProgress == 0
    {
      title := [];
      patentNumber := [];
      selectedLawyer := None;
      selectedFile := None;
      isSubmitting := false;
      error := [];
      uploadProgress := 0;
    }

    /** `handleFileSelect`: nothing without a file; a file that is not a PDF, or larger
        than 50 MiB, is refused with an error and not kept. Otherwise it is kept, the
        error cleared, and an empty title is filled with the name without ".pdf". */
    method HandleFileSelect(file: Option<PickedFile>)
      modifies this
      ensures file.None? ==> title == old(title) && selectedFile == old(selectedFile) && error == old(error)
      ensures file.Some? && file.value.mimeType != "application/pdf" ==>
        error == "Please select a PDF file" && selectedFile == old(selectedFile) && title == old(title)
      ensures file.Some? && file.value.mimeType == "application/pdf" && file.value.size > MaxPdfBytes ==>
        error == "File size must be less than 50MB" && selectedFile == old(selectedFile) && title == old(title)
      ensures file.Some? && file.value.mimeType == "application/pdf" && file.value.size <= MaxPdfBytes ==>
        selectedFile == file && error == []
        && title == (if old(title) == [] then WithoutPdfExtension(file.value.name) else old(title))
      ensures patentNumber == old(patentNumber) && selectedLawyer == old(selectedLawyer)
      ensures isSubmitting == old(isSubmitting) && uploadProgress == old(uploadProgress)
    {
      if file.None? {
        return;
      }
      var f := file.value;
      if f.mimeType != "application/pdf" {
        error := "Please select a PDF file";
        return;
      }
      if f.size > MaxPdfBytes {
        error := "File size must be less than 50MB";
        return;
      }
      selectedFile := file;
      error := [];
      if title == [] {
        title := WithoutPdfExtension(f.name);
      }
    }

    /** `handleSubmit`: a blank title is reported first, a missing file second, and
        neither sends anything. Otherwise the disclosure is created with the trimmed
        title (and the lawyer and patent number when given), progress moves through 10,
        30, 70 and 100 as the requests go through, and the page moves to the new
        disclosure. If a request throws, the progress goes back to 0 and the error shows
        the detail, or "Failed to upload patent". The form is not submitting afterwards. */
    method HandleSubmit(run: Run) returns (request: Option<CreateRequest>, shown: seq<int>, navigateTo: Option<string>)
      modifies this
      ensures IsBlank(old(title)) ==>
        error == "Please enter a title" && request.None? && shown == [] && navigateTo.None?
        && uploadProgress == old(uploadProgress) && isSubmitting == old(isSubmitting)
      ensures !IsBlank(old(title)) && old(selectedFile).None? ==>
        error == "Please select a patent PDF file" && request.None? && shown == [] && navigateTo.None?
        && uploadProgress == old(uploadProgress) && isSubmitting == old(isSubmitting)
      ensures !IsBlank(old(title)) && old(selectedFile).Some? ==>
        request == Some(CreateRequest(JsTrim(old(title)), LawyerField(old(selectedLawyer)), PatentNumberField(old(patentNumber))))
        && shown == ProgressSteps(run) && !isSubmitting
        && (run.Succeeds? ==>
              navigateTo == Some(DisclosurePath(run.disclosureId)) && error == [] && uploadProgress == 100)
        && (run.FailsAt? ==>
              navigateTo.None? && uploadProgress == 0
              && error == (if run.detail.Some? && run.detail.value != [] then run.detail.value else "Failed to upload patent"))
      ensures title == old(title) && patentNumber == old(patentNumber)
      ensures selectedLawyer == old(selectedLawyer) && selectedFile == old(selectedFile)
    {
      shown, navigateTo := [], None;
      if JsTrim(title) == [] {
        error := "Please enter a title";
        return None, [], None;
      }
      if selectedFile.None? {
        error := "Please select a patent PDF file";
        return None, [], None;
      }
      isSubmitting := true;
      error := [];
      request := Some(CreateRequest(JsTrim(title), LawyerField(selectedLawyer), PatentNumberField(patentNumber)));
      shown := ProgressSteps(run);
      uploadProgress := shown[|shown| - 1];
      match run {
        case Succeeds(disclosureId, _) =>
          navigateTo := Some(DisclosurePath(disclosureId));
        case FailsAt(_, detail) =>
          error := if detail.Some? && detail.value != [] then detail.value else "Failed to upload patent";
          uploadProgress := 0;
      }
      isSubmitting := false;
    }
  }
}
