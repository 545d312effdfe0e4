/** Fetching a file from the server (fetch_file): guard and normalise the path, refuse
    missing and oversized files, pick a content type from the extension, and return the
    contents as text, as base64, or as a base64 data URL. */
module FileTransfer {

  import opened Common
  import Text
  import Base64
  import Utf8

  /** What the filesystem reports for a regular file: its size, its modification time, and
      its bytes or the message of the error reading them raised. */
  datatype FileStat = FileStat(size: nat, mtime: real, contents: Result<seq<byte>, string>)

  /** The filesystem: the regular file at a normalised path, if there is one. */
  type FileSystem = string -> Option<FileStat>

  datatype FetchBody =
    /** An image asked for in base64: the data URL and the encoding it wraps. */
    | DataUrl(dataUrl: string, encoded: string)
    /** Any other file asked for in base64. */
    | Encoded(encoded: string)
    /** A text or JSON file that decoded as UTF-8. */
    | TextContent(content: string)
    /** A file returned in base64 because it is not text, or not valid UTF-8 ("is_binary"). */
    | Binary(encoded: string)

  /** A successful fetch, without the formatted size and time strings. */
  datatype Fetched = Fetched(path: string, size: nat, name: string, contentType: string, mtime: real, body: FetchBody)

  /** A failed fetch: the code, the message, and the path and size when they are reported. */
  datatype FetchError = FetchError(code: ErrorCode, message: string, path: Option<string>, size: Option<nat>)

  /** The content type for a lower-cased extension. */
  function ContentType(ext: string): (ct: string)
    ensures "image/" <= ct <==> ext in [".jpg", ".jpeg", ".png", ".gif"]
    ensures IsTextual(ct) <==> ext in [".html", ".htm", ".json", ".txt"]
    ensures ext !in [".jpg", ".jpeg", ".png", ".gif", ".html", ".htm", ".json", ".txt"] ==> ct == "application/octet-stream"
  {
    if ext in [".jpg", ".jpeg"] then "image/jpeg"
    else if ext == ".png" then assert "image/png"[0] == 'i'; "image/png"
    else if ext == ".gif" then "image/gif"
    else if ext in [".html", ".htm"] then "text/html"
    else if ext == ".json" then "application/json"
    else if ext == ".txt" then "text/plain"
    else
      assert "application/octet-stream"[0] == 'a' && "application/octet-stream"[12] == 'o';
      "application/octet-stream"
  }

  /** A content type the tool tries to return as text. */
  predicate IsTextual(ct: string) {
    "text/" <= ct || "application/json" <= ct
  }

  /** The body for a file's bytes: base64 exactly when asked for, a data URL exactly for
      images, text exactly for text types that are valid UTF-8, and binary otherwise. */
  function Body(bytes: seq<byte>, contentType: string, encodeBase64: bool): (b: FetchBody)
    ensures b.DataUrl? <==> encodeBase64 && "image/" <= contentType
    ensures b.Encoded? <==> encodeBase64 && !("image/" <= contentType)
    ensures b.TextContent? <==> !encodeBase64 && IsTextual(contentType) && Utf8.Decode(bytes).Some?
    ensures b.Binary? <==> !encodeBase64 && !(IsTextual(contentType) && Utf8.Decode(bytes).Some?)
    ensures b.DataUrl? ==> b.dataUrl == "data:" + contentType + ";base64," + b.encoded
  {
    if encodeBase64 then
      var encoded := Base64.Encode(bytes);
      if "image/" <= contentType then DataUrl("data:" + contentType + ";base64," + encoded, encoded)
      else Encoded(encoded)
    else if IsTextual(contentType) && Utf8.Decode(bytes).Some? then TextContent(Utf8.Decode(bytes).value)
    else Binary(Base64.Encode(bytes))
  }

  /** fetch_file. `normalize` stands for expanding "~" and making the path absolute. */
  function FetchFile(filePath: string, encodeBase64: bool, maxSize: int, normalize: string -> string, fs: FileSystem)
    : (r: Result<Fetched, FetchError>)
    ensures filePath == "" ==> r == Err(FetchError(MissingParameter, "Missing required parameter: file_path", None, None))
    ensures filePath != "" ==>
      var path := normalize(filePath);
      && (fs(path).None? ==> r == Err(FetchError(FileNotFound, "File not found: " + path, None, None)))
      && (fs(path).Some? && fs(path).value.size > maxSize ==>
            r == Err(FetchError(FileTooLarge,
              "File too large: " + Text.NatToString(fs(path).value.size) + " bytes (max " + Text.IntToString(maxSize) + " bytes)",
              Some(path), Some(fs(path).value.size))))
      && (fs(path).Some? && fs(path).value.size <= maxSize && fs(path).value.contents.Err? ==>
            r == Err(FetchError(ReadError, "Error fetching file: " + fs(path).value.contents.error, Some(path), None)))
      && (r.Ok? <==> fs(path).Some? && fs(path).value.size <= maxSize && fs(path).value.contents.Ok?)
      && (r.Ok? ==>
            var name := Text.Basename(path);
            && r.value.path == path && r.value.name == name
            && r.value.size == fs(path).value.size && r.value.size <= maxSize && r.value.mtime == fs(path).value.mtime
            && r.value.contentType == ContentType(Text.Lower(Text.Extension(name))))
  {
    if filePath == "" then Err(FetchError(MissingParameter, "Missing required parameter: file_path", None, None))
    else
      var path := normalize(filePath);
      match fs(path)
      case None => Err(FetchError(FileNotFound, "File not found: " + path, None, None))
      case Some(stat) =>
        if stat.size > maxSize then
          Err(FetchError(FileTooLarge,
            "File too large: " + Text.NatToString(stat.size) + " bytes (max " + Text.IntToString(maxSize) + " bytes)",
            Some(path), Some(stat.size)))
        else
          var name := Text.Basename(path);
          var contentType := ContentType(Text.Lower(Text.Extension(name)));
          match stat.contents
          case Err(e) => Err(FetchError(ReadError, "Error fetching file: " + e, Some(path), None))
          case Ok(bytes) => Ok(Fetched(path, stat.size, name, contentType, stat.mtime, Body(bytes, contentType, encodeBase64)))
  }

  /** The bytes a caller gets back from a body: base64-decoded, or UTF-8-encoded text. */
  function Recovered(body: FetchBody): Option<seq<byte>> {
    match body
    case DataUrl(_, encoded) => Base64.Decode(encoded)
    case Encoded(encoded) => Base64.Decode(encoded)
    case TextContent(content) => Some(Utf8.Encode(content))
    case Binary(encoded) => Base64.Decode(encoded)
  }

  /** Every body gives back exactly the bytes it was made from. */
  lemma BodyRoundTrip(bytes: seq<byte>, contentType: string, encodeBase64: bool)
    ensures Recovered(Body(bytes, contentType, encodeBase64)) == Some(bytes)
  {
    Base64.DecodeEncode(bytes);
    if !encodeBase64 && IsTextual(contentType) && Utf8.Decode(bytes).Some? {
      Utf8.EncodeDecode(bytes, Utf8.Decode(bytes).value);
    }
  }

  /** A successful fetch returns the file's contents: decoding the body gives back the bytes
      that were read. */
  lemma FetchRoundTrip(filePath: string, encodeBase64: bool, maxSize: int, normalize: string -> string, fs: FileSystem)
    requires FetchFile(filePath, encodeBase64, maxSize, normalize, fs).Ok?
    ensures var stat := fs(normalize(filePath));
      stat.Some? && stat.value.contents.Ok? &&
      Recovered(FetchFile(filePath, encodeBase64, maxSize, normalize, fs).value.body) == Some(stat.value.contents.value)
  {
    var path := normalize(filePath);
    var r := FetchFile(filePath, encodeBase64, maxSize, normalize, fs);
    var ct := ContentType(Text.Lower(Text.Extension(Text.Basename(path))));
    assert r.value.body == Body(fs(path).value.contents.value, ct, encodeBase64);
    BodyRoundTrip(fs(path).value.contents.value, ct, encodeBase64);
  }
}
