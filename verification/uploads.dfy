/** Upload admission: the per-category settings table, the checks made before a file is saved, the saved name and the thumbnail step. */
module Uploads {
  import opened Wrappers
  import opened Strings
  import opened Http

  /** Where a category's files go and which content types it accepts. */
  datatype UploadSetting = UploadSetting(directory: string, allowedTypes: seq<string>)

  /** The `useType` categories. */
  const Settings: map<string, UploadSetting> := map[
    "profile" := UploadSetting("uploads/profile", ["image/jpeg", "image/png"]),
    "document" := UploadSetting("uploads/document", ["application/pdf"])
  ]

  /** The multipart `file` part: its original name and its declared content type. */
  datatype FilePart = FilePart(filename: string, contentType: string)

  /** Which decoder `createThumbnail` picks from the saved name's extension, if any. */
  datatype Thumbnail = NoThumbnail | FromJpeg | FromPng

  /**
   * Either the request is refused, or the file is saved as `directory/savedName` and
   * `thumbnail` says how `createThumbnail` proceeds with it. Whether the chosen decoder then
   * succeeds depends on the file's bytes, which are not modelled.
   */
  datatype Admission =
    | Refused(status: int, message: string)
    | Admitted(directory: string, savedName: string, contentType: string, thumbnail: Thumbnail)

  /** The scan over a category's allowed types, stopping at the first equal one. */
  function Allowed(types: seq<string>, contentType: string): (ok: bool)
    ensures ok <==> contentType in types
  {
    if types == [] then false
    else if types[0] == contentType then true
    else
      assert forall t :: t in types <==> t == types[0] || t in types[1..];
      Allowed(types[1..], contentType)
  }

  /** `uploadHandler` calls `createThumbnail` only for image content types. */
  predicate Thumbnailed(contentType: string)
  {
    HasPrefix(contentType, "image/")
  }

  /** The saved name: the upload time in nanoseconds, in decimal, then the original extension. */
  function SavedName(stamp: nat, filename: string): (name: string)
    ensures HasPrefix(name, Decimal(stamp))
    ensures Ext(name) == Ext(filename)
    ensures |name| == |Decimal(stamp)| + |Ext(filename)|
  {
    var digits := Decimal(stamp);
    ExtIgnoresPlainPrefix(digits, Ext(filename));
    assert (digits + Ext(filename))[..|digits|] == digits;
    digits + Ext(filename)
  }

  /**
   * What happens after the file is saved: no thumbnail for a non-image content type;
   * otherwise `createThumbnail` picks the JPEG decoder for a lower-cased extension `.jpg` or
   * `.jpeg`, the PNG decoder for `.png`, and returns early for anything else.
   */
  function ThumbnailFor(contentType: string, savedName: string): Thumbnail
  {
    if !Thumbnailed(contentType) then NoThumbnail
    else
      var ext := Lower(Ext(savedName));
      if ext == ".jpg" || ext == ".jpeg" then FromJpeg
      else if ext == ".png" then FromPng
      else NoThumbnail
  }

  /** An image's decoder follows the lower-cased extension alone; a non-image gets none. */
  lemma DecoderFollowsExtension(contentType: string, savedName: string)
    ensures !HasPrefix(contentType, "image/") ==> ThumbnailFor(contentType, savedName) == NoThumbnail
    ensures HasPrefix(contentType, "image/") ==>
      (ThumbnailFor(contentType, savedName) == FromJpeg <==> Lower(Ext(savedName)) in {".jpg", ".jpeg"}) &&
      (ThumbnailFor(contentType, savedName) == FromPng <==> Lower(Ext(savedName)) == ".png")
  {
  }

  /** Of the admitted content types, the two image types are thumbnail candidates and PDF is not. */
  lemma OnlyImageTypesAreCandidates()
    ensures Thumbnailed("image/jpeg") && Thumbnailed("image/png")
    ensures !Thumbnailed("application/pdf")
  {
    assert "image/jpeg"[..6] == "image/";
    assert "image/png"[..6] == "image/";
    assert "application/pdf"[..6][0] != "image/"[0];
  }

  /** The saved name picks the same decoder as the original name would. */
  lemma SavedNameKeepsDecoder(contentType: string, stamp: nat, filename: string)
    ensures ThumbnailFor(contentType, SavedName(stamp, filename)) == ThumbnailFor(contentType, filename)
  {
    assert Ext(SavedName(stamp, filename)) == Ext(filename);
  }

  /** A name whose final element has no `.` gets no thumbnail, whatever its content type. */
  lemma NamesWithoutExtensionGetNone(contentType: string, stamp: nat, filename: string)
    requires DotlessLastElement(filename)
    ensures ThumbnailFor(contentType, SavedName(stamp, filename)) == NoThumbnail
  {
    SavedNameKeepsDecoder(contentType, stamp, filename);
    assert Lower(Ext(filename)) == [];
  }

  /**
   * For an image, only the original name's extension matters, and only up to letter case:
   * `x.JPG` and `y.tar.jpeg` get the JPEG decoder, `z.Png` the PNG one, `w.gif` none.
   */
  lemma ExtensionPicksDecoder(contentType: string, stamp: nat, base: string, ext: string)
    requires Thumbnailed(contentType)
    requires ext != [] && ext[0] == '.' && forall i :: 0 < i < |ext| ==> ext[i] != '.' && ext[i] != '/'
    ensures Lower(ext) in {".jpg", ".jpeg"} ==> ThumbnailFor(contentType, SavedName(stamp, base + ext)) == FromJpeg
    ensures Lower(ext) == ".png" ==> ThumbnailFor(contentType, SavedName(stamp, base + ext)) == FromPng
    ensures Lower(ext) !in {".jpg", ".jpeg", ".png"} ==> ThumbnailFor(contentType, SavedName(stamp, base + ext)) == NoThumbnail
  {
    ExtOfExtension(base, ext);
    var name := SavedName(stamp, base + ext);
    assert Ext(name) == ext;
    DecoderFollowsExtension(contentType, name);
  }

  /** Upper- and mixed-case spellings of the three extensions lower to them. */
  lemma UpperCaseExtensionsMatch()
    ensures Lower(".JPG") == ".jpg" && Lower(".Jpeg") == ".jpeg" && Lower(".PNG") == ".png"
    ensures Lower(".GIF") !in {".jpg", ".jpeg", ".png"}
  {
    assert Lower(".GIF")[1] == 'g';
  }

  /** The saving step: the file's new name and the decoder its thumbnail would use. */
  function Save(directory: string, file: FilePart, stamp: nat): (a: Admission)
    ensures a.Admitted? && a.directory == directory && a.contentType == file.contentType
    ensures a.savedName == SavedName(stamp, file.filename) && HasPrefix(a.savedName, Decimal(stamp)) && Ext(a.savedName) == Ext(file.filename)
    ensures !Thumbnailed(file.contentType) ==> a.thumbnail == NoThumbnail
    ensures Thumbnailed(file.contentType) ==>
      (a.thumbnail == FromJpeg <==> Lower(Ext(file.filename)) in {".jpg", ".jpeg"}) &&
      (a.thumbnail == FromPng <==> Lower(Ext(file.filename)) == ".png")
  {
    var savedName := SavedName(stamp, file.filename);
    DecoderFollowsExtension(file.contentType, savedName);
    Admitted(directory, savedName, file.contentType, ThumbnailFor(file.contentType, savedName))
  }

  /**
   * The checks `uploadHandler` makes before saving, in order: category, file present,
   * content type. `None` lets the upload through; otherwise the refusal.
   */
  function Screen(useType: string, file: Option<FilePart>): (refusal: Option<Admission>)
    ensures refusal.None? <==>
      file.Some? &&
      ((useType == "profile" && (file.value.contentType == "image/jpeg" || file.value.contentType == "image/png"))
       || (useType == "document" && file.value.contentType == "application/pdf"))
    ensures useType != "profile" && useType != "document" ==> refusal == Some(Refused(StatusBadRequest, "Invalid useType"))
    ensures (useType == "profile" || useType == "document") && file.None? ==> refusal == Some(Refused(StatusBadRequest, "File missing"))
    ensures (useType == "profile" || useType == "document") && file.Some? && refusal.Some? ==>
      refusal == Some(Refused(StatusBadRequest, "Unsupported file type"))
  {
    if useType !in Settings then Some(Refused(StatusBadRequest, "Invalid useType"))
    else if file.None? then Some(Refused(StatusBadRequest, "File missing"))
    else if !Allowed(Settings[useType].allowedTypes, file.value.contentType) then Some(Refused(StatusBadRequest, "Unsupported file type"))
    else None
  }

  /** An upload: refused by the checks, or saved under its category's directory. */
  function Admit(useType: string, file: Option<FilePart>, stamp: nat): (a: Admission)
    ensures a.Admitted? <==>
      file.Some? &&
      ((useType == "profile" && (file.value.contentType == "image/jpeg" || file.value.contentType == "image/png"))
       || (useType == "document" && file.value.contentType == "application/pdf"))
    ensures useType != "profile" && useType != "document" ==> a == Refused(StatusBadRequest, "Invalid useType")
    ensures (useType == "profile" || useType == "document") && file.None? ==> a == Refused(StatusBadRequest, "File missing")
    ensures (useType == "profile" || useType == "document") && file.Some? && !a.Admitted? ==>
      a == Refused(StatusBadRequest, "Unsupported file type")
    ensures a.Admitted? ==>
      a.directory == "uploads/" + useType && a.contentType == file.value.contentType &&
      a.savedName == SavedName(stamp, file.value.filename) && HasPrefix(a.savedName, Decimal(stamp)) && Ext(a.savedName) == Ext(file.value.filename)
    ensures a.Admitted? && useType == "document" ==> a.thumbnail == NoThumbnail
    ensures a.Admitted? && useType == "profile" ==>
      (a.thumbnail == FromJpeg <==> Lower(Ext(file.value.filename)) in {".jpg", ".jpeg"}) &&
      (a.thumbnail == FromPng <==> Lower(Ext(file.value.filename)) == ".png")
  {
    match Screen(useType, file)
    case Some(refusal) => refusal
    case None =>
      OnlyImageTypesAreCandidates();
      assert Thumbnailed(file.value.contentType) <==> useType == "profile";
      assert Settings[useType].directory == "uploads/" + useType;
      Save(Settings[useType].directory, file.value, stamp)
  }

  /** The settings table: exactly two categories, each with its own directory and allowed types. */
  lemma UploadCategories()
    ensures Settings.Keys == {"profile", "document"}
    ensures forall u :: u in Settings ==> Settings[u].directory == "uploads/" + u
    ensures Settings["profile"].allowedTypes == ["image/jpeg", "image/png"]
    ensures Settings["document"].allowedTypes == ["application/pdf"]
  {
  }
}
