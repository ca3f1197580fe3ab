/**
 * The preview of a file about to be sent in a chat: the icon and border
 * colour chosen from its MIME type, the type label under its name, and the
 * thumbnail, which is a data-URL image for images and the icon otherwise.
 *
 * Reading the file is not modelled: the data URL it yields is a parameter.
 */
module FilePreview {
  import opened Wrappers
  import opened Strings

  datatype Glyph = ImageGlyph | FileTextGlyph | FileGlyph

  /** An icon: its glyph and its text-colour class. */
  datatype Icon = Icon(glyph: Glyph, colorClass: string)

  /** `getFileIcon`: images first, then PDF documents, then text, then anything else. */
  function FileIcon(fileType: string): (r: Icon)
    ensures StartsWith(fileType, "image/") ==> r == Icon(ImageGlyph, "text-blue-500")
    ensures !StartsWith(fileType, "image/") && fileType == "application/pdf" ==> r == Icon(FileTextGlyph, "text-red-500")
    ensures !StartsWith(fileType, "image/") && fileType != "application/pdf" && StartsWith(fileType, "text/") ==>
      r == Icon(FileTextGlyph, "text-green-500")
    ensures r.glyph == FileGlyph <==>
      !StartsWith(fileType, "image/") && fileType != "application/pdf" && !StartsWith(fileType, "text/")
    ensures r.glyph == FileGlyph ==> r.colorClass == "text-gray-500"
  {
    if StartsWith(fileType, "image/") then Icon(ImageGlyph, "text-blue-500")
    else if fileType == "application/pdf" then Icon(FileTextGlyph, "text-red-500")
    else if StartsWith(fileType, "text/") then Icon(FileTextGlyph, "text-green-500")
    else Icon(FileGlyph, "text-gray-500")
  }

  /** `getBorderColor`: the same tests, in the same order, as the icon. */
  function BorderClass(fileType: string): (r: string)
    ensures r in {"border-blue-200", "border-red-200", "border-green-200", "border-gray-200"}
  {
    if StartsWith(fileType, "image/") then "border-blue-200"
    else if fileType == "application/pdf" then "border-red-200"
    else if StartsWith(fileType, "text/") then "border-green-200"
    else "border-gray-200"
  }

  /** The border and the icon of a file are always of the same colour family. */
  lemma BorderMatchesIcon(fileType: string)
    ensures exists family :: (family in {"blue", "red", "green", "gray"} &&
      FileIcon(fileType).colorClass == "text-" + family + "-500" &&
      BorderClass(fileType) == "border-" + family + "-200")
  {
    var family;
    if StartsWith(fileType, "image/") {
      family := "blue";
      assert "text-" + family + "-500" == "text-blue-500";
      assert "border-" + family + "-200" == "border-blue-200";
    } else if fileType == "application/pdf" {
      family := "red";
      assert "text-" + family + "-500" == "text-red-500";
      assert "border-" + family + "-200" == "border-red-200";
    } else if StartsWith(fileType, "text/") {
      family := "green";
      assert "text-" + family + "-500" == "text-green-500";
      assert "border-" + family + "-200" == "border-green-200";
    } else {
      family := "gray";
      assert "text-" + family + "-500" == "text-gray-500";
      assert "border-" + family + "-200" == "border-gray-200";
    }
  }

  /** `toUpperCase` on one character, for the ASCII letters. */
  function UpperChar(c: char): (r: char)
    ensures !('a' <= r <= 'z')
    ensures 'a' <= c <= 'z' ==> 'A' <= r <= 'Z' && r as int == c as int - 32
    ensures !('a' <= c <= 'z') ==> r == c
  {
    if 'a' <= c <= 'z' then (c as int - 32) as char else c
  }

  /** `toUpperCase` for ASCII: no lower-case letter remains, and nothing else changes. */
  function Upper(s: string): (r: string)
    ensures |r| == |s|
    ensures forall k :: 0 <= k < |r| ==> !('a' <= r[k] <= 'z')
    ensures forall k :: 0 <= k < |s| && 'a' <= s[k] <= 'z' ==> r[k] as int == s[k] as int - 32
    ensures forall k :: 0 <= k < |s| && !('a' <= s[k] <= 'z') ==> r[k] == s[k]
  {
    seq(|s|, k requires 0 <= k < |s| => UpperChar(s[k]))
  }

  /**
   * The type label: the part of the MIME type between the first `/` and the
   * next one, upper-cased; "FILE" when there is no `/` or that part is empty.
   */
  function SubtypeLabel(fileType: string): (r: string)
    ensures '/' !in fileType ==> r == "FILE"
    ensures '/' in fileType <==> |SplitOn(fileType, '/')| >= 2
    ensures |SplitOn(fileType, '/')| >= 2 && SplitOn(fileType, '/')[1] == "" ==> r == "FILE"
    ensures |SplitOn(fileType, '/')| >= 2 && SplitOn(fileType, '/')[1] != "" ==> r == Upper(SplitOn(fileType, '/')[1])
    ensures r != ""
  {
    var parts := SplitOn(fileType, '/');
    SplitSingle(fileType, '/');
    if |parts| >= 2 && parts[1] != "" then Upper(parts[1]) else "FILE"
  }

  /** For a `type/subtype` pair the label is the upper-cased subtype, or "FILE" when it is empty. */
  lemma LabelOfMimeType(top: string, sub: string)
    requires '/' !in top && '/' !in sub
    ensures SubtypeLabel(top + "/" + sub) == if sub == "" then "FILE" else Upper(sub)
  {
    SplitJoin([top, sub], '/');
    assert Join([top, sub], '/') == top + "/" + sub by {
      assert [top, sub][1..] == [sub];
    }
    assert (top + "/" + sub)[|top|] == '/';
  }

  /** What the preview component holds: the data URL, once read, and whether it is still loading. */
  datatype PreviewState = PreviewState(preview: Option<string>, loading: bool)

  /** The state when the preview is first shown: no data URL yet, loading. */
  const Initial := PreviewState(None, true)

  /**
   * The effect run for a newly set file, from the state `prev` the component
   * holds: an image starts a data-URL read and leaves the state as it was
   * (neither the old data URL nor the loading flag is reset); any other file
   * stops loading at once and keeps the old data URL. The flag says whether a
   * read was started.
   */
  function StartPreview(prev: PreviewState, fileType: string): (r: (PreviewState, bool))
    ensures r.1 <==> StartsWith(fileType, "image/")
    ensures r.1 ==> r.0 == prev
    ensures !r.1 ==> !r.0.loading && r.0.preview == prev.preview
  {
    if StartsWith(fileType, "image/") then (prev, true)
    else (PreviewState(prev.preview, false), false)
  }

  /** The read of an image finished with a data URL. */
  function ReadFinished(dataUrl: string): (r: PreviewState)
    ensures !r.loading && r.preview == Some(dataUrl)
  {
    PreviewState(Some(dataUrl), false)
  }

  datatype Thumbnail = Spinner | ImageThumb(src: string) | IconThumb(icon: Icon)

  /** The thumbnail: a spinner while loading, the data URL for an image that has one, the icon otherwise. */
  function ThumbnailOf(state: PreviewState, fileType: string): (r: Thumbnail)
    ensures state.loading <==> r.Spinner?
    ensures r.ImageThumb? ==> StartsWith(fileType, "image/") && state.preview == Some(r.src) && r.src != ""
    ensures !state.loading && StartsWith(fileType, "image/") && state.preview.Some? && state.preview.value != "" ==>
      r == ImageThumb(state.preview.value)
    ensures !state.loading && !(StartsWith(fileType, "image/") && state.preview.Some? && state.preview.value != "") ==>
      r == IconThumb(FileIcon(fileType))
  {
    if state.loading then Spinner
    else if StartsWith(fileType, "image/") && !Falsy(state.preview) then ImageThumb(state.preview.value)
    else IconThumb(FileIcon(fileType))
  }

  /** A file that is not an image shows its icon as soon as it is set, whatever was shown before. */
  lemma NonImageShowsIcon(prev: PreviewState, fileType: string)
    requires !StartsWith(fileType, "image/")
    ensures ThumbnailOf(StartPreview(prev, fileType).0, fileType) == IconThumb(FileIcon(fileType))
  {
  }

  /** The first file, when an image, shows a spinner until its read finishes, and then its data URL. */
  lemma ImageShowsPreview(fileType: string, dataUrl: string)
    requires StartsWith(fileType, "image/") && dataUrl != ""
    ensures ThumbnailOf(StartPreview(Initial, fileType).0, fileType) == Spinner
    ensures ThumbnailOf(ReadFinished(dataUrl), fileType) == ImageThumb(dataUrl)
  {
  }

  /**
   * A later image, until its own read finishes, shows the earlier image's
   * data URL when an image was read before, and its icon when the earlier
   * file was not an image: never a spinner.
   */
  lemma LaterImageShowsOldState(fileType: string, oldUrl: string, otherType: string)
    requires StartsWith(fileType, "image/") && !StartsWith(otherType, "image/") && oldUrl != ""
    ensures ThumbnailOf(StartPreview(ReadFinished(oldUrl), fileType).0, fileType) == ImageThumb(oldUrl)
    ensures ThumbnailOf(StartPreview(StartPreview(Initial, otherType).0, fileType).0, fileType) == IconThumb(FileIcon(fileType))
  {
  }
}
