/**
 * Storing a chat attachment with the media host: choosing the host's
 * resource type from the MIME type (a `type/subtype` pair, section 5.1 of
 * RFC 2045), splitting the file name at its last dot, building the upload
 * options, and rewriting the delivery URL the host returns so that it names
 * the resource type and ends with the file's extension.
 *
 * The upload itself is not modelled: its outcome (a delivery URL or an error
 * message) is a parameter.
 */
module Cloudinary {
  import opened Wrappers
  import opened Strings

  /** The host's resource types; `Auto` exists but is never chosen. */
  datatype ResourceType = Image | Video | Raw | Auto

  function TypeName(t: ResourceType): (s: string)
    ensures s != "" && '/' !in s
  {
    match t
    case Image => "image"
    case Video => "video"
    case Raw => "raw"
    case Auto => "auto"
  }

  /** `getResourceType`: images and videos by MIME prefix, everything else raw. */
  function ResourceTypeOf(mimeType: string): (r: ResourceType)
    ensures r != Auto
    ensures r == Image <==> StartsWith(mimeType, "image/")
    ensures r == Video <==> !StartsWith(mimeType, "image/") && StartsWith(mimeType, "video/")
  {
    if StartsWith(mimeType, "image/") then Image
    else if StartsWith(mimeType, "video/") then Video
    else Raw
  }

  /** `s.lastIndexOf(c)`, with `None` for -1. */
  function LastIndexOf(s: string, c: char): (r: Option<nat>)
    ensures r.Some? ==> r.value < |s| && s[r.value] == c && c !in s[r.value + 1..]
    ensures r.None? <==> c !in s
  {
    if |s| == 0 then None
    else if s[|s| - 1] == c then
      assert s[|s|..] == [];
      Some(|s| - 1)
    else
      var r := LastIndexOf(s[..|s| - 1], c);
      assert s == s[..|s| - 1] + [s[|s| - 1]];
      if r.Some? then
        assert s[r.value + 1..] == s[..|s| - 1][r.value + 1..] + [s[|s| - 1]];
        r
      else r
  }

  /**
   * The file name without its extension, and the extension with its dot:
   * together they are the whole name; the extension is empty exactly when the
   * name has no dot, and otherwise starts with the last dot of the name.
   */
  function SplitFileName(name: string): (r: (string, string))
    ensures r.0 + r.1 == name
    ensures r.1 == "" <==> '.' !in name
    ensures r.1 != "" ==> r.1[0] == '.' && '.' !in r.1[1..]
  {
    match LastIndexOf(name, '.')
    case None => (name, "")
    case Some(i) =>
      assert name[..i] + name[i..] == name;
      assert name[i..][1..] == name[i + 1..];
      (name[..i], name[i..])
  }

  /** The uploaded file, as the multipart parser describes it. */
  datatype UploadedFile = UploadedFile(originalName: string, mimeType: string)

  /** The options given to the host with the file. */
  datatype UploadOptions = UploadOptions(
    resourceType: ResourceType,
    folder: string,
    publicId: string,
    useFilename: bool,
    uniqueFilename: bool,
    attachment: bool,
    originalFilename: string,
    mimeType: string)

  /**
   * The options of an attachment: in the chat-attachments folder, as a
   * download, under its name without the extension, keeping the original
   * name and MIME type as context.
   */
  function OptionsFor(file: UploadedFile): (r: UploadOptions)
    ensures r.resourceType == ResourceTypeOf(file.mimeType) && r.resourceType != Auto
    ensures r.folder == "chat-attachments" && r.useFilename && r.uniqueFilename && r.attachment
    ensures r.publicId + SplitFileName(file.originalName).1 == file.originalName
    ensures r.originalFilename == file.originalName && r.mimeType == file.mimeType
  {
    UploadOptions(ResourceTypeOf(file.mimeType), "chat-attachments", SplitFileName(file.originalName).0,
                  true, true, true, file.originalName, file.mimeType)
  }

  /** `parts.findIndex(p => p === x)`, with `None` for -1. */
  function FirstIndexOf(parts: seq<string>, x: string): (r: Option<nat>)
    ensures r.Some? ==> r.value < |parts| && parts[r.value] == x && forall j :: 0 <= j < r.value ==> parts[j] != x
    ensures r.None? <==> x !in parts
  {
    if |parts| == 0 then None
    else if parts[0] == x then Some(0)
    else
      match FirstIndexOf(parts[1..], x)
      case None => None
      case Some(i) => Some(i + 1)
  }

  /** The URL with the type name inserted as a path segment before its first `upload` segment. */
  function Inserted(url: string, t: ResourceType, i: nat): string
    requires i < |SplitOn(url, '/')|
  {
    var parts := SplitOn(url, '/');
    Join(parts[..i] + [TypeName(t)] + parts[i..], '/')
  }

  /**
   * The delivery URL the service hands back: unchanged for images and for
   * URLs without an `upload` segment; otherwise with the type inserted and
   * then, unless it already ends with it, the extension appended.
   */
  function Rewrite(url: string, t: ResourceType, ext: string): (r: string)
    ensures t == Image || "upload" !in SplitOn(url, '/') ==> r == url
    ensures t != Image && "upload" in SplitOn(url, '/') ==>
      var i := FirstIndexOf(SplitOn(url, '/'), "upload").value;
      (r == Inserted(url, t, i) || r == Inserted(url, t, i) + ext) && EndsWith(r, ext)
    ensures t != Image && "upload" in SplitOn(url, '/') && EndsWith(Inserted(url, t, FirstIndexOf(SplitOn(url, '/'), "upload").value), ext) ==>
      r == Inserted(url, t, FirstIndexOf(SplitOn(url, '/'), "upload").value)
  {
    if t == Image then url
    else
      match FirstIndexOf(SplitOn(url, '/'), "upload")
      case None => url
      case Some(i) =>
        var u := Inserted(url, t, i);
        if !EndsWith(u, ext) && ext != "" then
          assert (u + ext)[|u + ext| - |ext|..] == ext;
          u + ext
        else u
  }

  /** Splicing a separator-free piece into separator-free pieces keeps them separator-free. */
  lemma SpliceSeparatorFree(parts: seq<string>, i: nat, piece: string, sep: char)
    requires i <= |parts| && sep !in piece
    requires forall k :: 0 <= k < |parts| ==> sep !in parts[k]
    ensures forall k :: 0 <= k < |parts[..i] + [piece] + parts[i..]| ==> sep !in (parts[..i] + [piece] + parts[i..])[k]
  {
    var spliced := parts[..i] + [piece] + parts[i..];
    forall k | 0 <= k < |spliced| ensures sep !in spliced[k] {
      if k < i {
        assert spliced[k] == parts[k];
      } else if k > i {
        assert spliced[k] == parts[k - 1];
      }
    }
  }

  /**
   * The inserted URL splits into exactly the original path segments, in
   * order, with one more segment, the type name, just before the first
   * `upload` segment.
   */
  lemma InsertedSegments(url: string, t: ResourceType)
    requires "upload" in SplitOn(url, '/')
    ensures
      var parts := SplitOn(url, '/');
      var i := FirstIndexOf(parts, "upload").value;
      SplitOn(Inserted(url, t, i), '/') == parts[..i] + [TypeName(t)] + parts[i..]
      && |SplitOn(Inserted(url, t, i), '/')| == |parts| + 1
      && SplitOn(Inserted(url, t, i), '/')[i + 1] == "upload"
      && Join(SplitOn(Inserted(url, t, i), '/')[..i] + SplitOn(Inserted(url, t, i), '/')[i + 1..], '/') == url
  {
    var parts := SplitOn(url, '/');
    var i := FirstIndexOf(parts, "upload").value;
    var spliced := parts[..i] + [TypeName(t)] + parts[i..];
    assert Inserted(url, t, i) == Join(spliced, '/');
    SpliceSeparatorFree(parts, i, TypeName(t), '/');
    SplitJoin(spliced, '/');
    SpliceShape(parts, i, TypeName(t));
    JoinSplit(url, '/');
  }

  /** Splicing one piece in at `i` adds one position, shifts the rest by one, and is undone by dropping position `i`. */
  lemma SpliceShape(parts: seq<string>, i: nat, piece: string)
    requires i < |parts|
    ensures |parts[..i] + [piece] + parts[i..]| == |parts| + 1
    ensures (parts[..i] + [piece] + parts[i..])[i + 1] == parts[i]
    ensures (parts[..i] + [piece] + parts[i..])[..i] + (parts[..i] + [piece] + parts[i..])[i + 1..] == parts
  {
    var spliced := parts[..i] + [piece] + parts[i..];
    assert spliced[..i] == parts[..i];
    assert spliced[i + 1..] == parts[i..];
    assert parts[..i] + parts[i..] == parts;
  }

  /**
   * `uploadFile`: the options are built from the file, the host answers with
   * a delivery URL or an error, and for non-image files the URL is rewritten
   * by splicing the type into its path segments.
   */
  method UploadFile(file: UploadedFile, hostAnswer: Result<string, string>)
    returns (options: UploadOptions, outcome: Result<string, string>)
    ensures options == OptionsFor(file)
    ensures hostAnswer.Err? ==> outcome == hostAnswer
    ensures hostAnswer.Ok? ==>
      outcome == Ok(Rewrite(hostAnswer.value, ResourceTypeOf(file.mimeType), SplitFileName(file.originalName).1))
  {
    var resourceType := ResourceTypeOf(file.mimeType);
    var (_, fileExt) := SplitFileName(file.originalName);
    options := UploadOptions(resourceType, "chat-attachments", SplitFileName(file.originalName).0,
                             true, true, true, file.originalName, file.mimeType);
    if hostAnswer.Err? {
      return options, hostAnswer;
    }
    var secureUrl := hostAnswer.value;
    if resourceType != Image {
      var urlParts := SplitOn(secureUrl, '/');
      var uploadIndex := 0;
      while uploadIndex < |urlParts| && urlParts[uploadIndex] != "upload"
        invariant 0 <= uploadIndex <= |urlParts|
        invariant forall j :: 0 <= j < uploadIndex ==> urlParts[j] != "upload"
      {
        uploadIndex := uploadIndex + 1;
      }
      if uploadIndex < |urlParts| {
        assert FirstIndexOf(urlParts, "upload") == Some(uploadIndex);
        urlParts := urlParts[..uploadIndex] + [TypeName(resourceType)] + urlParts[uploadIndex..];
        secureUrl := Join(urlParts, '/');
        if !EndsWith(secureUrl, fileExt) && fileExt != "" {
          secureUrl := secureUrl + fileExt;
        }
      }
    }
    outcome := Ok(secureUrl);
  }
}
