/** The source panel's handlers: file validation before a file is read,
    text submission through the input sanitiser, removal of one cubemap
    face, and switching the source type. The panel's own React state
    (the text field and the collected cubemap images) sits next to the
    store state. */
module SourcePanel {
  import opened Common
  import opened Text
  import opened Kinds
  import AppStore
  import Locales
  import Sanitize

  /** Ten mebibytes. */
  const MaxFileSize: int := 10 * 1024 * 1024

  const AllowedImageTypes: seq<string> := ["image/jpeg", "image/png", "image/webp", "image/gif"]
  const AllowedModelTypes: seq<string> := [".glb", ".gltf"]

  const MaxTextLength: nat := 50

  /** What the handlers read of a dropped `File`. */
  datatype FileInfo = FileInfo(name: string, mimeType: string, size: int)

  /** The panel's local state. */
  datatype Panel = Panel(textInput: string, cubemapImages: seq<string>)

  // ------------------------------------------------------------ validateFile

  /** One entry of the allowed list: an entry starting with a dot is an
      extension matched against the end of the lower-cased name, any other
      entry is compared with the MIME type. */
  predicate EntryAccepts(entry: string, f: FileInfo) {
    if StartsWith(entry, ".") then EndsWith(Lower(f.name), entry) else f.mimeType == entry
  }

  /** `allowedTypes.some(...)`. */
  function SomeAccepts(allowed: seq<string>, f: FileInfo): (b: bool)
    ensures b <==> exists k :: 0 <= k < |allowed| && EntryAccepts(allowed[k], f)
    decreases |allowed|
  {
    if |allowed| == 0 then false
    else if EntryAccepts(allowed[0], f) then true
    else
      var b := SomeAccepts(allowed[1..], f);
      assert b ==> exists k :: 0 <= k < |allowed| && EntryAccepts(allowed[k], f) by {
        if b {
          var k :| 0 <= k < |allowed[1..]| && EntryAccepts(allowed[1..][k], f);
          assert allowed[k + 1] == allowed[1..][k];
        }
      }
      assert (exists k :: 0 <= k < |allowed| && EntryAccepts(allowed[k], f)) ==> b by {
        if exists k :: 0 <= k < |allowed| && EntryAccepts(allowed[k], f) {
          var k :| 0 <= k < |allowed| && EntryAccepts(allowed[k], f);
          assert k != 0;
          assert allowed[1..][k - 1] == allowed[k];
        }
      }
      b
  }

  /** `validateFile(file, allowedTypes)`: `None` when the file passes,
      otherwise the key of the message it reports. */
  function FileError(f: FileInfo, allowed: seq<string>): (r: Option<string>)
    ensures f.size > MaxFileSize ==> r == Some("fileTooLarge")
    ensures f.size <= MaxFileSize ==>
      (r.None? <==> exists k :: 0 <= k < |allowed| && EntryAccepts(allowed[k], f))
    ensures f.size <= MaxFileSize && r.Some? ==> r == Some("unsupportedFileType")
  {
    if f.size > MaxFileSize then Some("fileTooLarge")
    else if !SomeAccepts(allowed, f) then Some("unsupportedFileType")
    else None
  }

  /** The handler: reports the failure through the store's error field and
      says whether the file may be read. */
  function ValidateFile(st: AppStore.State, i: Locales.Context, f: FileInfo, allowed: seq<string>): (r: (bool, AppStore.State))
    ensures r.0 <==> FileError(f, allowed).None?
    ensures r.0 ==> r.1 == st
    ensures !r.0 ==> r.1 == AppStore.SetError(st, Some(Locales.Msg(i, FileError(f, allowed).value)))
  {
    match FileError(f, allowed)
    case None => (true, st)
    case Some(key) => (false, AppStore.SetError(st, Some(Locales.Msg(i, key))))
  }

  /** Images are accepted by declared MIME type alone, and the size limit
      is inclusive. */
  lemma ImageFiles(f: FileInfo)
    ensures FileError(f, AllowedImageTypes).None? <==> f.size <= MaxFileSize && f.mimeType in AllowedImageTypes
  {
    forall k | 0 <= k < |AllowedImageTypes| ensures !StartsWith(AllowedImageTypes[k], ".") {
      assert AllowedImageTypes[k][0] == 'i';
    }
    if f.size <= MaxFileSize && f.mimeType in AllowedImageTypes {
      var k :| 0 <= k < |AllowedImageTypes| && AllowedImageTypes[k] == f.mimeType;
      assert EntryAccepts(AllowedImageTypes[k], f);
    }
  }

  /** Models are accepted by the lower-cased name's extension alone,
      whatever MIME type the browser reports. */
  lemma ModelFiles(f: FileInfo)
    ensures FileError(f, AllowedModelTypes).None? <==>
      f.size <= MaxFileSize && (EndsWith(Lower(f.name), ".glb") || EndsWith(Lower(f.name), ".gltf"))
  {
    assert StartsWith(AllowedModelTypes[0], ".") && StartsWith(AllowedModelTypes[1], ".");
    assert EntryAccepts(AllowedModelTypes[0], f) <==> EndsWith(Lower(f.name), ".glb");
    assert EntryAccepts(AllowedModelTypes[1], f) <==> EndsWith(Lower(f.name), ".gltf");
  }

  // ------------------------------------------------------------ text submit

  /** `handleTextSubmit()`: the sanitised text becomes the source data when
      its JavaScript length is 1 to 50 code units; a longer one reports
      `textTooLong`; an empty one does nothing. */
  function SubmitText(st: AppStore.State, i: Locales.Context, p: Panel): (r: AppStore.State)
    ensures var s := Sanitize.SanitizeInput(p.textInput);
            && (0 < Utf16Length(s) <= MaxTextLength ==> r == AppStore.SetSourceData(st, AppStore.Str(s)))
            && (Utf16Length(s) > MaxTextLength ==> r == AppStore.SetError(st, Some(Locales.Msg(i, "textTooLong"))))
            && (s == "" ==> r == st)
  {
    var s := Sanitize.SanitizeInput(p.textInput);
    var n := Utf16Length(s);
    if n > 0 && n <= MaxTextLength then AppStore.SetSourceData(st, AppStore.Str(s))
    else if n > MaxTextLength then AppStore.SetError(st, Some(Locales.Msg(i, "textTooLong")))
    else st
  }

  /** Whatever text submission stores as source data is non-empty, at most
      50 UTF-16 code units (so at most 50 characters), and free of the
      characters the sanitiser removes; any other submission leaves the
      source data alone. */
  lemma SubmittedTextIsClean(st: AppStore.State, i: Locales.Context, p: Panel)
    ensures var r := SubmitText(st, i, p);
            r.sourceData != st.sourceData ==>
              && r.sourceData.Str?
              && 0 < |r.sourceData.s| <= Utf16Length(r.sourceData.s) <= MaxTextLength
              && Sanitize.Avoids(r.sourceData.s, Sanitize.SqlQuotes + Sanitize.ShellChars)
              && Sanitize.NoDoubleDot(r.sourceData.s)
  {
    Sanitize.SanitizeInputGuarantees(p.textInput);
  }

  // ------------------------------------------------------------ cubemap faces

  /** `images.filter((_, i) => i !== index)`, walking from position `from`. */
  function DropIndex(images: seq<string>, index: int, from: int): (r: seq<string>)
    ensures |r| <= |images|
    decreases |images|
  {
    if |images| == 0 then []
    else if from == index then DropIndex(images[1..], index, from + 1)
    else [images[0]] + DropIndex(images[1..], index, from + 1)
  }

  /** The filter drops exactly the image at the index, keeping the order of
      the rest; an index outside the list drops nothing. */
  lemma {:induction false} DropIndexIsSplice(images: seq<string>, index: int, from: int)
    ensures from <= index < from + |images| ==>
      DropIndex(images, index, from) == images[..index - from] + images[index - from + 1..]
    ensures !(from <= index < from + |images|) ==> DropIndex(images, index, from) == images
    decreases |images|
  {
    if |images| > 0 {
      DropIndexIsSplice(images[1..], index, from + 1);
      if from == index {
        assert images[..0] + images[1..] == images[1..];
      } else if from < index < from + |images| {
        assert images[..index - from] == [images[0]] + images[1..][..index - from - 1];
        assert images[index - from + 1..] == images[1..][index - from..];
      } else {
        assert [images[0]] + images[1..] == images;
      }
    }
  }

  /** `removeCubemapImage(index)`: drops one face; with fewer than six
      faces left the source data is cleared. */
  function RemoveCubemapImage(st: AppStore.State, p: Panel, index: int): (r: (Panel, AppStore.State))
    ensures r.0.textInput == p.textInput
    ensures |r.0.cubemapImages| < 6 ==> r.1 == AppStore.SetSourceData(st, AppStore.NoData)
    ensures |r.0.cubemapImages| >= 6 ==> r.1 == st
    ensures 0 <= index < |p.cubemapImages| ==>
      r.0.cubemapImages == p.cubemapImages[..index] + p.cubemapImages[index + 1..]
    ensures !(0 <= index < |p.cubemapImages|) ==> r.0.cubemapImages == p.cubemapImages
  {
    var images := DropIndex(p.cubemapImages, index, 0);
    DropIndexIsSplice(p.cubemapImages, index, 0);
    var panel := p.(cubemapImages := images);
    (panel, if |images| < 6 then AppStore.SetSourceData(st, AppStore.NoData) else st)
  }

  /** A full set of six faces loses its source data whenever a face is
      actually removed. */
  lemma RemovingAFaceClearsSix(st: AppStore.State, p: Panel, index: int)
    requires |p.cubemapImages| == 6 && 0 <= index < 6
    ensures var r := RemoveCubemapImage(st, p, index);
            |r.0.cubemapImages| == 5 && r.1.sourceData == AppStore.NoData
  {
  }

  // ------------------------------------------------------------ type change

  /** `handleTypeChange(type)`: the new type with no data, and the panel's
      text and cubemap list emptied. */
  function ChangeType(st: AppStore.State, p: Panel, t: SourceType): (r: (Panel, AppStore.State))
    ensures r.0 == Panel("", [])
    ensures r.1.sourceType == t && r.1.sourceData == AppStore.NoData
    ensures AppStore.OnlyChanged(st, r.1, {AppStore.FSourceType, AppStore.FSourceData})
  {
    (Panel("", []), AppStore.SetSourceData(AppStore.SetSourceType(st, t), AppStore.NoData))
  }

  /** After a type change the scene sees no data, so it takes the default
      path until new data arrives, and changing type again changes only the
      type. */
  lemma ChangeTypeResets(st: AppStore.State, p: Panel, t: SourceType, u: SourceType)
    ensures var r := ChangeType(st, p, t);
            ChangeType(r.1, r.0, u) == (Panel("", []), r.1.(sourceType := u))
  {
  }
}
