/**
 * The decisions the browser client makes around one upload: the pre-flight
 * checks, the progress percentage, how an XHR outcome settles the upload
 * promise, and the icon and media-preview classifiers.
 */
module Client {
  import opened Wrappers
  import opened Text

  /** The client-side size limit: 10 MiB. */
  const MaxFileSize: nat := 10 * 1024 * 1024
  /** The token the client sends (a placeholder, as the server's is). */
  const JwtToken: string := "YOUR_JWT_TOKEN"

  const NoFileSelectedMessage: string := "No file selected"
  const InvalidResponseMessage: string := "Invalid server response"
  const UploadFailedMessage: string := "Upload failed"
  const StatusFailurePrefix: string := "Upload failed with status "
  const NetworkErrorMessage: string := "Network error during upload"
  const AbortedMessage: string := "Upload aborted"

  /** A selected file as the browser describes it: `name`, `type`, `size`. */
  datatype FileInfo = FileInfo(name: string, mimeType: string, size: nat)

  /** The `Authorization` header every upload request carries. */
  function AuthorizationHeader(): (h: string)
    ensures h == "Bearer YOUR_JWT_TOKEN"
  {
    "Bearer " + JwtToken
  }

  // ---------------------------------------------------------------------
  // Pre-flight checks

  /** The size error, with the limit written in MB: `${MAX_FILE_SIZE / (1024 * 1024)}MB`. */
  function SizeLimitMessage(): (m: string)
    ensures m == "File size exceeds the limit of 10MB"
  {
    "File size exceeds the limit of " + DecimalString(MaxFileSize / (1024 * 1024)) + "MB"
  }

  /** The error `uploadFile` throws before sending anything, if any. */
  function PreCheck(file: Option<FileInfo>): (failure: Option<string>)
    ensures failure == Some(NoFileSelectedMessage) <==> file.None?
    ensures failure == Some(SizeLimitMessage()) <==> file.Some? && file.value.size > MaxFileSize
    ensures failure == None <==> file.Some? && file.value.size <= MaxFileSize
  {
    if file.None? then Some(NoFileSelectedMessage)
    else if file.value.size > MaxFileSize then Some(SizeLimitMessage())
    else None
  }

  // ---------------------------------------------------------------------
  // Progress

  /** An upload progress event. */
  datatype ProgressEvent = ProgressEvent(lengthComputable: bool, loaded: nat, total: nat)

  /**
   * `Math.round(loaded / total * 100)` in integers: the nearest whole
   * percentage, halves rounded up.
   */
  function Percent(loaded: nat, total: nat): (p: nat)
    requires total > 0
    ensures 2 * total * p <= 200 * loaded + total < 2 * total * (p + 1)
    ensures loaded <= total ==> p <= 100
  {
    QuotientBounds(200 * loaded + total, 2 * total);
    if loaded <= total then
      QuotientBelow(200 * loaded + total, 2 * total, 101);
      (200 * loaded + total) / (2 * total)
    else
      (200 * loaded + total) / (2 * total)
  }

  lemma QuotientBounds(n: nat, d: nat)
    requires d > 0
    ensures d * (n / d) <= n < d * (n / d + 1)
  {
  }

  lemma QuotientBelow(n: nat, d: nat, k: nat)
    requires d > 0 && n < d * k
    ensures n / d < k
  {
    QuotientBounds(n, d);
    if n / d >= k {
      MulMonotone(d, k, n / d);
    }
  }

  lemma MulMonotone(c: nat, a: nat, b: nat)
    requires a <= b
    ensures c * a <= c * b
  {
  }

  /** The percentage never goes down as more bytes are sent. */
  lemma PercentMonotonic(loaded1: nat, loaded2: nat, total: nat)
    requires total > 0 && loaded1 <= loaded2
    ensures Percent(loaded1, total) <= Percent(loaded2, total)
  {
    var p1, p2 := Percent(loaded1, total), Percent(loaded2, total);
    if p1 > p2 {
      MulMonotone(2 * total, p2 + 1, p1);
      MulMonotone(200, loaded1, loaded2);
    }
  }

  /** Nothing sent is 0%, everything sent is 100%. */
  lemma PercentEnds(total: nat)
    requires total > 0
    ensures Percent(0, total) == 0 && Percent(total, total) == 100
  {
    var z, f := Percent(0, total), Percent(total, total);
    if z > 0 { MulMonotone(2 * total, 1, z); }
    if f < 100 { MulMonotone(2 * total, f + 1, 100); }
  }

  /** The value the progress bar is set to, if the event updates it at all. */
  function ProgressValue(ev: ProgressEvent): (value: Option<nat>)
    requires ev.lengthComputable ==> ev.total > 0
    ensures value.Some? <==> ev.lengthComputable
    ensures value.Some? ==> value.value == Percent(ev.loaded, ev.total)
    ensures value.Some? && ev.loaded <= ev.total ==> value.value <= 100
  {
    if ev.lengthComputable then Some(Percent(ev.loaded, ev.total)) else None
  }

  /** The progress text `${percentComplete}%`. */
  function PercentText(p: nat): string {
    DecimalString(p) + "%"
  }

  /** The progress text is the numeral of the percentage followed by "%". */
  lemma PercentTextShape(p: nat)
    ensures var t := PercentText(p);
      |t| >= 2 && t[|t| - 1] == '%' && IsNumeral(t[..|t| - 1]) && DecimalValue(t[..|t| - 1]) == p
  {
    var t := PercentText(p);
    assert t[..|t| - 1] == DecimalString(p);
  }

  /** The text the bar starts from. */
  lemma PercentTextZero()
    ensures PercentText(0) == "0%"
  {
    assert DecimalString(0) == "0";
  }

  // ---------------------------------------------------------------------
  // Settling the upload promise

  /** A parsed JSON object, with its string-valued members. */
  type JsonObject = map<string, string>

  /** What `JSON.parse(xhr.responseText)` gives: an object, or an exception. */
  datatype ResponseText = NotJson | Json(obj: JsonObject)

  /** How the request ends: a `load` with a status, an `error`, or an `abort`. */
  datatype XhrEvent = Load(status: nat, body: ResponseText) | TransportError | Aborted

  /** The upload promise resolved with the parsed body, or rejected with an error message. */
  datatype Settled = Resolved(data: JsonObject) | Rejected(message: string)

  predicate IsSuccessStatus(status: nat) {
    200 <= status < 300
  }

  /** `errorResponse.error` is truthy: present and not the empty string. */
  predicate HasErrorMessage(obj: JsonObject) {
    "error" in obj && obj["error"] != ""
  }

  /**
   * `Upload failed with status ${xhr.status}`: the prefix, then the numeral of
   * the status (which `NumeralUnique` shows is the only one).
   */
  function StatusFailureMessage(status: nat): (m: string)
    ensures StartsWith(m, StatusFailurePrefix)
    ensures IsNumeral(m[|StatusFailurePrefix|..]) && DecimalValue(m[|StatusFailurePrefix|..]) == status
  {
    var m := StatusFailurePrefix + DecimalString(status);
    assert m[|StatusFailurePrefix|..] == DecimalString(status);
    m
  }

  /** The settlement the `load`, `error` and `abort` listeners give the upload promise. */
  function Settle(ev: XhrEvent): (s: Settled)
    ensures s.Resolved? <==> ev.Load? && IsSuccessStatus(ev.status) && ev.body.Json?
    ensures s.Resolved? ==> s.data == ev.body.obj
    ensures ev.Load? && IsSuccessStatus(ev.status) && ev.body.NotJson? ==> s == Rejected(InvalidResponseMessage)
    ensures ev.Load? && !IsSuccessStatus(ev.status) && ev.body.Json? ==>
              s == Rejected(if HasErrorMessage(ev.body.obj) then ev.body.obj["error"] else UploadFailedMessage)
    ensures ev.Load? && !IsSuccessStatus(ev.status) && ev.body.NotJson? ==> s == Rejected(StatusFailureMessage(ev.status))
    ensures ev.TransportError? ==> s == Rejected(NetworkErrorMessage)
    ensures ev.Aborted? ==> s == Rejected(AbortedMessage)
    ensures s.Rejected? ==> s.message != []
  {
    match ev
    case Load(status, body) =>
      if IsSuccessStatus(status) then
        (match body
         case Json(obj) => Resolved(obj)
         case NotJson => Rejected(InvalidResponseMessage))
      else
        (match body
         case Json(obj) => Rejected(if HasErrorMessage(obj) then obj["error"] else UploadFailedMessage)
         case NotJson => Rejected(StatusFailureMessage(status)))
    case TransportError => Rejected(NetworkErrorMessage)
    case Aborted => Rejected(AbortedMessage)
  }

  // ---------------------------------------------------------------------
  // Classifiers

  /** The icons `getFileTypeIcon` chooses from. */
  datatype Icon = ImageIcon | PdfIcon | TextIcon | GenericIcon

  /**
   * `getFileTypeIcon`: the first of an "image/" prefix, exactly
   * "application/pdf", a "text/" prefix; otherwise the generic icon. The three
   * tests exclude each other, so each icon is chosen exactly when its own test holds.
   */
  function FileTypeIcon(fileType: string): (icon: Icon)
    ensures icon == ImageIcon <==> StartsWith(fileType, "image/")
    ensures icon == PdfIcon <==> fileType == "application/pdf"
    ensures icon == TextIcon <==> StartsWith(fileType, "text/")
  {
    PrefixesExclusive(fileType);
    if StartsWith(fileType, "image/") then ImageIcon
    else if fileType == "application/pdf" then PdfIcon
    else if StartsWith(fileType, "text/") then TextIcon
    else GenericIcon
  }

  /** No MIME type has two of the prefixes the classifiers test, and "application/pdf" has none. */
  lemma PrefixesExclusive(t: string)
    ensures !(StartsWith(t, "image/") && StartsWith(t, "text/"))
    ensures !(StartsWith(t, "image/") && StartsWith(t, "video/"))
    ensures !(StartsWith(t, "image/") && StartsWith(t, "audio/"))
    ensures !(StartsWith(t, "video/") && StartsWith(t, "audio/"))
    ensures t == "application/pdf" ==> !StartsWith(t, "image/") && !StartsWith(t, "text/")
  {
    if |t| > 0 {
      assert StartsWith(t, "image/") ==> t[0] == 'i';
      assert StartsWith(t, "text/") ==> t[0] == 't';
      assert StartsWith(t, "video/") ==> t[0] == 'v';
      assert StartsWith(t, "audio/") ==> t[0] == 'a';
      assert "application/pdf"[1] == 'p';
      assert StartsWith(t, "audio/") ==> t[1] == 'u';
    }
  }

  /** The kinds of element shown for an uploaded file. */
  datatype Media = ImageMedia | VideoMedia | AudioMedia | NoMedia

  /** The media preview: image, video or audio by prefix of the returned type, otherwise none. */
  function MediaPreview(fileType: string): (media: Media)
    ensures media == ImageMedia <==> StartsWith(fileType, "image/")
    ensures media == VideoMedia <==> StartsWith(fileType, "video/")
    ensures media == AudioMedia <==> StartsWith(fileType, "audio/")
  {
    PrefixesExclusive(fileType);
    if StartsWith(fileType, "image/") then ImageMedia
    else if StartsWith(fileType, "video/") then VideoMedia
    else if StartsWith(fileType, "audio/") then AudioMedia
    else NoMedia
  }

  /** The local preview shown when the upload starts. */
  datatype Preview = ImagePreview(name: string) | IconPreview(icon: Icon, name: string)

  /**
   * An image file is previewed from its own data (read asynchronously); any
   * other file shows its type's icon and its name, never the image icon.
   */
  function LocalPreview(file: FileInfo): (p: Preview)
    ensures p.ImagePreview? <==> StartsWith(file.mimeType, "image/")
    ensures p.name == file.name
    ensures p.IconPreview? ==> p.icon == FileTypeIcon(file.mimeType) && p.icon != ImageIcon
  {
    if StartsWith(file.mimeType, "image/") then ImagePreview(file.name)
    else IconPreview(FileTypeIcon(file.mimeType), file.name)
  }

  // ---------------------------------------------------------------------
  // Finishing the upload

  /**
   * Why an upload failed: an error with a message, or the TypeError the
   * engine raises when a resolved body has no `fileType` (its text is the
   * engine's own).
   */
  datatype Failure = Message(text: string) | TypeError

  datatype Finished = Succeeded(data: JsonObject, media: Media) | Failed(reason: Failure)

  /** What `uploadFile` ends with once the request has settled. */
  function Finish(ev: XhrEvent): (f: Finished)
    ensures f.Succeeded? <==> Settle(ev).Resolved? && "fileType" in Settle(ev).data
    ensures f.Succeeded? ==> f.data == ev.body.obj && f.media == MediaPreview(f.data["fileType"])
    ensures Settle(ev).Rejected? ==> f == Failed(Message(Settle(ev).message))
    ensures Settle(ev).Resolved? && "fileType" !in Settle(ev).data ==> f == Failed(TypeError)
  {
    match Settle(ev)
    case Rejected(message) => Failed(Message(message))
    case Resolved(data) =>
      if "fileType" in data then Succeeded(data, MediaPreview(data["fileType"])) else Failed(TypeError)
  }
}
