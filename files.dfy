/** The file endpoints of backend/app/api/v1/endpoints/files.py: the type classifier, the
    upload checks, listing, download, delete and the inline preview. The bytes, the disk
    and the random name are outside the model: an upload is its name and size, the random
    part of the stored name is an input, and whether the stored file is on disk is an
    input of the endpoints that read it. */
module Files {
  import opened Wrappers
  import opened Strings
  import opened Domain
  import opened Database
  import Config

  /** `get_file_type`: on the lower-cased extension, ".pdf" is a drawing, ".png", ".jpg"
      and ".jpeg" images, ".docx" and ".doc" documents, and anything else an image. */
  function GetFileType(extension: string): (r: FileType)
    ensures r == Drawing <==> ToLower(extension) == ".pdf"
    ensures r == Document <==> ToLower(extension) in [".docx", ".doc"]
    ensures r == Image <==> ToLower(extension) !in [".pdf", ".docx", ".doc"]
  {
    var ext := ToLower(extension);
    if ext == ".pdf" then Drawing
    else if ext in [".png", ".jpg", ".jpeg"] then Image
    else if ext in [".docx", ".doc"] then Document
    else Image
  }

  /** The classification ignores case. */
  lemma FileTypeIgnoresCase(extension: string)
    ensures GetFileType(ToLower(extension)) == GetFileType(extension)
  {
    ToLowerIdempotent(extension);
  }

  predicate AllDots(s: string) {
    forall i :: 0 <= i < |s| ==> s[i] == '.'
  }

  /** `os.path.splitext` (POSIX): the extension runs from the last '.' of the last path
      component, unless everything before that dot in the component is dots (a hidden
      file such as ".env" has no extension). */
  function SplitExt(p: string): (r: (string, string))
    ensures r.0 + r.1 == p
    ensures r.1 == [] || (r.1[0] == '.' && '.' !in r.1[1..] && '/' !in r.1)
  {
    var sep := RFind(p, '/');
    var dot := RFind(p, '.');
    if dot > sep && !AllDots(p[sep + 1..dot]) then
      ExtensionFree(p, sep, dot);
      (p[..dot], p[dot..])
    else (p, [])
  }

  /** What follows the last '.', when it comes after the last '/', holds neither. */
  lemma ExtensionFree(p: string, sep: int, dot: int)
    requires sep == RFind(p, '/') && dot == RFind(p, '.') && dot > sep
    ensures p[..dot] + p[dot..] == p
    ensures p[dot..][0] == '.' && '.' !in p[dot..][1..] && '/' !in p[dot..]
  {
    assert p[dot..][1..] == p[dot + 1..];
    forall i | dot <= i < |p| ensures p[i] != '/' {
      if sep >= 0 {
        assert p[i] == p[sep + 1..][i - sep - 1];
      } else {
        assert p[i] in p;
      }
    }
  }

  /** A stem that ends in a character other than '.' or '/', followed by a dot and a
      dot-free, slash-free tail, splits back into the two. */
  lemma SplitExtOf(stem: string, ext: string)
    requires stem != [] && stem[|stem| - 1] != '.' && stem[|stem| - 1] != '/'
    requires ext != [] && ext[0] == '.' && '.' !in ext[1..] && '/' !in ext
    ensures SplitExt(stem + ext) == (stem, ext)
  {
    var p := stem + ext;
    var n := |stem|;
    assert p[n] == '.';
    assert p[n + 1..] == ext[1..];
    RFindAt(p, '.', n);
    var sep := RFind(p, '/');
    assert forall i :: n <= i < |p| ==> p[i] == ext[i - n];
    assert sep != n - 1;
    assert p[sep + 1..n][n - 1 - (sep + 1)] == stem[n - 1];
    assert p[..n] == stem && p[n..] == ext;
  }

  /** What a multipart upload gives the endpoint: the file's name and its length. */
  datatype Upload = Upload(filename: string, size: nat)

  function Extension(filename: string): string {
    SplitExt(filename).1
  }

  /** The checks of `upload_file`, in order: the disclosure exists (404); an inventor must
      own it, while a lawyer or an admin passes whatever the assignment (403); the
      extension is in the configured list, compared as written, so case counts (400);
      the size is at most the configured limit (400). */
  function UploadCheck(ds: seq<Disclosure>, user: User, disclosureId: int, file: Upload, setting: string, maxMb: int): (r: Outcome<()>)
    ensures FindDisclosure(ds, disclosureId).None? ==> r == Fail(NotFound, "Disclosure not found")
    ensures FindDisclosure(ds, disclosureId).Some? && user.role == Inventor && FindDisclosure(ds, disclosureId).value.inventorId != user.id
      ==> r == Fail(Forbidden, "Access denied")
    ensures r.Ok? <==> (FindDisclosure(ds, disclosureId).Some?
                        && (user.role == Inventor ==> FindDisclosure(ds, disclosureId).value.inventorId == user.id)
                        && Extension(file.filename) in Config.AllowedExtensionsList(setting)
                        && file.size <= Config.MaxFileSizeBytes(maxMb))
    ensures r.Fail? && r.status == BadRequest ==>
      r.detail == (if Extension(file.filename) !in Config.AllowedExtensionsList(setting)
                   then "File type not allowed. Allowed: " + setting
                   else "File too large. Max size: " + IntToString(maxMb) + "MB")
  {
    match FindDisclosure(ds, disclosureId)
    case None => Fail(NotFound, "Disclosure not found")
    case Some(d) =>
      if user.role == Inventor && d.inventorId != user.id then Fail(Forbidden, "Access denied")
      else if Extension(file.filename) !in Config.AllowedExtensionsList(setting) then
        Fail(BadRequest, "File type not allowed. Allowed: " + setting)
      else if file.size > Config.MaxFileSizeBytes(maxMb) then
        Fail(BadRequest, "File too large. Max size: " + IntToString(maxMb) + "MB")
      else Ok(())
  }

  /** With the default setting, "name.pdf" passes the extension check and "name.PDF" does
      not, although both are classified as drawings (`PdfAnyCase`). */
  lemma UploadExtensionCaseSensitive(stem: string)
    requires stem != [] && stem[|stem| - 1] != '.' && stem[|stem| - 1] != '/'
    ensures Extension(stem + ".pdf") in Config.AllowedExtensionsList(Config.DefaultAllowedExtensions)
    ensures Extension(stem + ".PDF") !in Config.AllowedExtensionsList(Config.DefaultAllowedExtensions)
  {
    SplitExtOf(stem, ".pdf");
    SplitExtOf(stem, ".PDF");
    Config.DefaultExtensions();
    Config.DefaultExcludes();
  }

  /** ".PDF" is a drawing just as ".pdf" is. */
  lemma PdfAnyCase()
    ensures GetFileType(".PDF") == GetFileType(".pdf") == Drawing
  {
    assert ToLower(".PDF") == ".pdf" by {
      assert LowerChar('P') == 'p' && LowerChar('D') == 'd' && LowerChar('F') == 'f';
    }
  }

  /** The row `upload_file` inserts; the stored name is the random part and the extension. */
  function UploadedRow(disclosureId: int, file: Upload, uuid: string): (f: FileRow)
    ensures f.disclosureId == disclosureId && f.originalFilename == file.filename && f.size == file.size
    ensures f.extension == Extension(file.filename) && f.fileType == GetFileType(f.extension)
    ensures f.storageKey == uuid + f.extension && f.bucket == "local"
  {
    var ext := Extension(file.filename);
    FileRow(0, disclosureId, GetFileType(ext), file.filename, ext, file.size, uuid + ext, "local")
  }

  /** `upload_file`: the checks, then the row. Writing the bytes to disk is not modelled. */
  method UploadFile(db: Db, user: User, disclosureId: int, file: Upload, setting: string, maxMb: int, uuid: string)
    returns (r: Outcome<FileRow>)
    requires db.Valid()
    modifies db
    ensures db.Valid()
    ensures r.Fail? <==> UploadCheck(old(db.disclosures), user, disclosureId, file, setting, maxMb).Fail?
    ensures r.Fail? ==> (db.Snapshot() == old(db.Snapshot())
                         && r.status == UploadCheck(old(db.disclosures), user, disclosureId, file, setting, maxMb).status
                         && r.detail == UploadCheck(old(db.disclosures), user, disclosureId, file, setting, maxMb).detail)
    ensures r.Ok? ==>
      r.value == UploadedRow(disclosureId, file, uuid).(id := old(db.nextId))
      && db.Snapshot() == old(db.Snapshot()).(files := old(db.files) + [r.value], nextId := old(db.nextId) + 1)
  {
    var check := UploadCheck(db.disclosures, user, disclosureId, file, setting, maxMb);
    if check.Fail? {
      return check.Forward();
    }
    var f := db.AddFile(UploadedRow(disclosureId, file, uuid));
    return Ok(f);
  }

  function OnDisclosure(id: int): FileRow -> bool {
    (f: FileRow) => f.disclosureId == id
  }

  /** `get_disclosure_files`: the access check, then the disclosure's files in table order. */
  function GetDisclosureFiles(t: Tables, user: User, disclosureId: int): (r: Outcome<seq<FileRow>>)
    ensures r.Fail? <==> CheckAccess(user, FindDisclosure(t.disclosures, disclosureId)).Fail?
    ensures r.Fail? ==> r.status == CheckAccess(user, FindDisclosure(t.disclosures, disclosureId)).status
                        && r.detail == CheckAccess(user, FindDisclosure(t.disclosures, disclosureId)).detail
    ensures r.Ok? ==> forall f :: f in r.value <==> f in t.files && f.disclosureId == disclosureId
  {
    match CheckAccess(user, FindDisclosure(t.disclosures, disclosureId))
    case Fail(status, detail) => Fail(status, detail)
    case Ok(_) =>
      var rows := Where(t.files, OnDisclosure(disclosureId));
      assert forall f :: f in rows <==> f in t.files && f.disclosureId == disclosureId by {
        forall f ensures f in rows <==> f in t.files && f.disclosureId == disclosureId {
          WhereMembers(t.files, OnDisclosure(disclosureId), f);
        }
      }
      Ok(rows)
  }

  /** A stored file sent back: the row, the media type, and whether it is shown inline. */
  datatype Served = Served(file: FileRow, mediaType: string, inline: bool)

  /** `download_file`: 404 for the row, the access rule on its disclosure (not tested for
      existence), 404 when the stored file is not on disk; always sent as an attachment
      of type "application/octet-stream". */
  function DownloadFile(t: Tables, user: User, fileId: int, onDisk: bool): (r: Outcome<Served>)
    ensures IndexOf(t.files, FileId, fileId).None? ==> r == Fail(NotFound, "File not found")
    ensures IndexOf(t.files, FileId, fileId).Some? ==>
      var f := t.files[IndexOf(t.files, FileId, fileId).value];
      var gate := CheckLinkedAccess(user, FindDisclosure(t.disclosures, f.disclosureId));
      (gate.Fail? ==> r.Fail? && r.status == gate.status && r.detail == gate.detail)
      && (gate.Ok? && !onDisk ==> r == Fail(NotFound, "File not found on server"))
      && (gate.Ok? && onDisk ==> r == Ok(Served(f, "application/octet-stream", false)))
  {
    match IndexOf(t.files, FileId, fileId)
    case None => Fail(NotFound, "File not found")
    case Some(k) =>
      match CheckLinkedAccess(user, FindDisclosure(t.disclosures, t.files[k].disclosureId))
      case Fail(status, detail) => Fail(status, detail)
      case Ok(_) =>
        if !onDisk then Fail(NotFound, "File not found on server")
        else Ok(Served(t.files[k], "application/octet-stream", false))
  }

  /** The permission of `delete_file`: an admin, or the disclosure's inventor; an assigned
      lawyer may not. The disclosure is not tested for existence, so for anyone but an
      admin a missing one raises. */
  function DeleteGate(user: User, found: Option<Disclosure>): (r: Outcome<()>)
    ensures r.Ok? <==> user.role == Admin || (found.Some? && found.value.inventorId == user.id)
    ensures r.Fail? ==> r == (if found.None? then Fail(ServerError, "Internal Server Error") else Fail(Forbidden, "Access denied"))
  {
    if user.role == Admin then Ok(())
    else if found.None? then Fail(ServerError, "Internal Server Error")
    else if found.value.inventorId != user.id then Fail(Forbidden, "Access denied")
    else Ok(())
  }

  /** `delete_file`: 404, the permission, then the row goes (with the stored file, not
      modelled). */
  method DeleteFile(db: Db, user: User, fileId: int) returns (r: Outcome<()>)
    requires db.Valid()
    modifies db
    ensures db.Valid()
    ensures r.Fail? ==> db.Snapshot() == old(db.Snapshot())
    ensures IndexOf(old(db.files), FileId, fileId).None? ==> r == Fail(NotFound, "File not found")
    ensures IndexOf(old(db.files), FileId, fileId).Some? ==>
      var f := old(db.files)[IndexOf(old(db.files), FileId, fileId).value];
      var gate := DeleteGate(user, FindDisclosure(old(db.disclosures), f.disclosureId));
      (r.Ok? <==> gate.Ok?)
      && (r.Fail? ==> r.status == gate.status && r.detail == gate.detail)
      && (r.Ok? ==> db.Snapshot() == old(db.Snapshot()).(files := Where(old(db.files), Except(FileId, fileId))))
  {
    var found := IndexOf(db.files, FileId, fileId);
    if found.None? {
      return Fail(NotFound, "File not found");
    }
    var gate := DeleteGate(user, FindDisclosure(db.disclosures, db.files[found.value].disclosureId));
    if gate.Fail? {
      return gate.Forward();
    }
    db.DeleteFile(fileId);
    return Ok(());
  }

  /** `preview_file`: no authentication at all; 404 for the row or a file missing on
      disk; shown inline, as "application/pdf" exactly when the extension is ".pdf" in any
      case. */
  function PreviewFile(t: Tables, fileId: int, onDisk: bool): (r: Outcome<Served>)
    ensures IndexOf(t.files, FileId, fileId).None? ==> r == Fail(NotFound, "File not found")
    ensures IndexOf(t.files, FileId, fileId).Some? && !onDisk ==> r == Fail(NotFound, "File not found on server")
    ensures r.Ok? <==> IndexOf(t.files, FileId, fileId).Some? && onDisk
    ensures r.Ok? ==> r.value.file == t.files[IndexOf(t.files, FileId, fileId).value] && r.value.inline
    ensures r.Ok? ==> (r.value.mediaType == "application/pdf" <==> ToLower(r.value.file.extension) == ".pdf")
    ensures r.Ok? ==> r.value.mediaType in ["application/pdf", "application/octet-stream"]
  {
    match IndexOf(t.files, FileId, fileId)
    case None => Fail(NotFound, "File not found")
    case Some(k) =>
      if !onDisk then Fail(NotFound, "File not found on server")
      else
        var f := t.files[k];
        Ok(Served(f, if ToLower(f.extension) == ".pdf" then "application/pdf" else "application/octet-stream", true))
  }
}
