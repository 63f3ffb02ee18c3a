/** The two derived settings of backend/app/core/config.py: the allowed upload extensions
    and the upload size limit in bytes. */
module Config {
  import opened Strings

  /** The default of `ALLOWED_FILE_EXTENSIONS`. */
  const DefaultAllowedExtensions: string := ".pdf,.png,.jpg,.jpeg,.docx"

  /** The default of `MAX_FILE_SIZE_MB`. */
  const DefaultMaxFileSizeMb: int := 10

  function StripAll(pieces: seq<string>): (r: seq<string>)
    ensures |r| == |pieces|
    ensures forall i :: 0 <= i < |r| ==> r[i] == PyStrip(pieces[i])
  {
    if pieces == [] then [] else [PyStrip(pieces[0])] + StripAll(pieces[1..])
  }

  /** `allowed_extensions_list`: the setting split on ',' with each piece stripped. */
  function AllowedExtensionsList(setting: string): seq<string> {
    StripAll(Split(setting, ','))
  }

  /** One entry per comma-separated piece, none of which contains a comma. */
  lemma AllowedExtensionsShape(setting: string)
    ensures |AllowedExtensionsList(setting)| == Count(setting, ',') + 1
    ensures forall i :: 0 <= i < |AllowedExtensionsList(setting)| ==>
      AllowedExtensionsList(setting)[i] == PyStrip(Split(setting, ',')[i])
      && ',' !in AllowedExtensionsList(setting)[i]
  {
    SplitCount(setting, ',');
    SplitPieces(setting, ',');
    var pieces := Split(setting, ',');
    forall i | 0 <= i < |pieces| ensures ',' !in PyStrip(pieces[i]) {
      StripKeepsOut(pieces[i], ',');
    }
  }

  /** Stripping never brings in a character the string did not have. */
  lemma StripKeepsOut(s: string, c: char)
    requires c !in s
    ensures c !in PyStrip(s)
  {
    var t := PyStrip(s);
    var k := LeadCount(s, IsPySpace);
    forall j | 0 <= j < |t| ensures t[j] != c {
      assert t[j] == s[k + j];
    }
  }

  /** An extension written as a dot and lower-case letters. */
  predicate PlainExtension(e: string) {
    |e| >= 2 && e[0] == '.' && forall j :: 1 <= j < |e| ==> 'a' <= e[j] <= 'z'
  }

  /** Plain extensions joined with ',' come back as written. */
  lemma ExtensionsOfJoin(names: seq<string>)
    requires names != [] && forall i :: 0 <= i < |names| ==> PlainExtension(names[i])
    ensures AllowedExtensionsList(Join(names, [','])) == names
  {
    forall i | 0 <= i < |names| ensures ',' !in names[i] {
      PlainNoComma(names[i]);
    }
    SplitJoin(names, ',');
    StripAllUnpadded(names);
  }

  lemma PlainNoComma(e: string)
    requires PlainExtension(e)
    ensures ',' !in e
  {
    assert forall j :: 0 <= j < |e| ==> e[j] != ',';
  }

  lemma {:induction false} StripAllUnpadded(names: seq<string>)
    requires forall i :: 0 <= i < |names| ==> PlainExtension(names[i])
    ensures StripAll(names) == names
  {
    if names != [] {
      assert |names[0]| >= 2 && 'a' <= names[0][|names[0]| - 1] <= 'z';
      StripUnpadded(names[0]);
      StripAllUnpadded(names[1..]);
    }
  }

  /** With the default setting the list is exactly five extensions. */
  lemma DefaultExtensions()
    ensures AllowedExtensionsList(DefaultAllowedExtensions) == [".pdf", ".png", ".jpg", ".jpeg", ".docx"]
  {
    var names := [".pdf", ".png", ".jpg", ".jpeg", ".docx"];
    DefaultJoined();
    DefaultPlain();
    ExtensionsOfJoin(names);
  }

  lemma DefaultJoined()
    ensures Join([".pdf", ".png", ".jpg", ".jpeg", ".docx"], [',']) == DefaultAllowedExtensions
  {
    JoinFive(".pdf", ".png", ".jpg", ".jpeg", ".docx", [',']);
  }

  lemma JoinFive(a: string, b: string, c: string, d: string, e: string, sep: string)
    ensures Join([a, b, c, d, e], sep) == a + sep + b + sep + c + sep + d + sep + e
  {
    JoinCons(d, [e], sep);
    assert [c, d, e] == [c] + [d, e];
    JoinCons(c, [d, e], sep);
    assert [b, c, d, e] == [b] + [c, d, e];
    JoinCons(b, [c, d, e], sep);
    assert [a, b, c, d, e] == [a] + [b, c, d, e];
    JoinCons(a, [b, c, d, e], sep);
  }

  lemma DefaultPlain()
    ensures forall i :: 0 <= i < 5 ==> PlainExtension([".pdf", ".png", ".jpg", ".jpeg", ".docx"][i])
  {
  }

  /** Neither ".doc" nor an upper-case ".PDF" is allowed by default: the membership test
      on the list is exact. */
  lemma DefaultExcludes()
    ensures ".doc" !in AllowedExtensionsList(DefaultAllowedExtensions)
    ensures ".PDF" !in AllowedExtensionsList(DefaultAllowedExtensions)
  {
    DefaultExtensions();
    NotListed();
  }

  lemma NotListed()
    ensures ".doc" !in [".pdf", ".png", ".jpg", ".jpeg", ".docx"]
    ensures ".PDF" !in [".pdf", ".png", ".jpg", ".jpeg", ".docx"]
  {
  }

  /** `max_file_size_bytes`: the limit in mebibytes times 1024 * 1024. */
  function MaxFileSizeBytes(mb: int): (r: int)
    ensures r % 1048576 == 0 && r / 1048576 == mb
  {
    mb * 1024 * 1024
  }

  lemma DefaultMaxFileSize()
    ensures MaxFileSizeBytes(DefaultMaxFileSizeMb) == 10485760
  {
  }
}
