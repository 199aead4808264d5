/**
 * The `/upload` route of the server: bearer-token check, the multipart
 * parser's size limit, the file-present and MIME allow-list checks, the
 * folder and storage-key derivation, and the shaping of each response. The
 * storage call itself is an input (`StoreResult`); whether it was made, and
 * with which key, is recorded in the outcome as `put`.
 */
module Server {
  import opened Wrappers
  import opened Text
  import NodePath

  const BearerPrefix: string := "Bearer "
  /** The single token the placeholder check accepts. */
  const ExpectedToken: string := "YOUR_JWT_TOKEN"
  /** The multipart parser's `fileSize` limit: 10 MiB. */
  const MaxUploadBytes: nat := 10 * 1024 * 1024
  const AllowedTypes: seq<string> := ["image/jpeg", "image/png", "application/pdf", "text/plain"]

  const NoTokenMessage: string := "Unauthorized: No token provided"
  const InvalidTokenMessage: string := "Unauthorized: Invalid token"
  const NoFileMessage: string := "No file uploaded"
  const TypeNotAllowedMessage: string := "File type not allowed"
  const StoreFailedMessage: string := "Upload to S3 failed"
  const InternalErrorMessage: string := "Internal server error"
  /** The message of the parser's own error for a file over its size limit. */
  const FileTooLargeMessage: string := "File too large"

  datatype Response =
    | Unauthorized(error: string)
    | BadRequest(error: string)
    | ServerError(error: string, details: string)
    | Ok(url: string, key: string, fileType: string, originalName: string)

  /** The HTTP status each response is sent with (`res.json` alone sends 200). */
  function StatusCode(r: Response): (code: nat)
    ensures code == 200 <==> r.Ok?
    ensures 200 <= code < 300 <==> r.Ok?
    ensures code == 401 <==> r.Unauthorized?
    ensures code == 400 <==> r.BadRequest?
    ensures code == 500 <==> r.ServerError?
  {
    match r
    case Unauthorized(_) => 401
    case BadRequest(_) => 400
    case ServerError(_, _) => 500
    case Ok(_, _, _, _) => 200
  }

  /** The file part the parser hands to the route as `req.file`. */
  datatype UploadedFile = UploadedFile(mimetype: string, originalName: string, size: nat)

  /** The request body, as the body parsers see it. */
  datatype Body =
    | NoFile                        // no file part: an empty body, a JSON body, a form without "file"
    | FilePart(file: UploadedFile)  // one file in the form field "file"
    | BadMultipart(message: string) // a multipart body the parser rejects (such as an unexpected field)
    | BadJson(message: string)      // a JSON body the global JSON parser rejects

  datatype Request = Request(authorization: Option<string>, body: Body)

  /** The result of the storage put call, when it is made. */
  datatype StoreResult = Stored | StoreFailed(message: string)

  /** The arguments of the one storage put call (the bucket and the bytes are left abstract). */
  datatype PutObject = PutObject(key: string, contentType: string)

  /** The response, and the storage call made on the way to it, if any. */
  datatype Outcome = Outcome(response: Response, put: Option<PutObject>)

  // ---------------------------------------------------------------------
  // Authentication

  /** The headers the check admits: "Bearer YOUR_JWT_TOKEN", alone or followed by a space and anything. */
  predicate AdmittedHeader(h: string) {
    var p := BearerPrefix + ExpectedToken;
    StartsWith(h, p) && (|h| == |p| || h[|p|] == ' ')
  }

  /** `authHeader.split(' ')[1]` of a header that starts with "Bearer ". */
  function BearerToken(h: string): (token: string)
    requires StartsWith(h, BearerPrefix)
    ensures ' ' !in token
    ensures StartsWith(h[|BearerPrefix|..], token)
    ensures |h| == |BearerPrefix| + |token| || h[|BearerPrefix| + |token|] == ' '
  {
    BearerSplit(h);
    Split(h, ' ')[1]
  }

  lemma BearerSplit(h: string)
    requires StartsWith(h, BearerPrefix)
    ensures Split(h, ' ') == ["Bearer"] + Split(h[|BearerPrefix|..], ' ')
  {
    assert h == "Bearer" + [' '] + h[|BearerPrefix|..];
    SplitAfterField("Bearer", ' ', h[|BearerPrefix|..]);
  }

  /** The token equals the expected one exactly when the whole header is admitted. */
  lemma BearerTokenMatches(h: string)
    requires StartsWith(h, BearerPrefix)
    ensures BearerToken(h) == ExpectedToken <==> AdmittedHeader(h)
  {
    var t := h[|BearerPrefix|..];
    BearerSplit(h);
    assert BearerToken(h) == Split(t, ' ')[0];
    FirstField(t, ' ', ExpectedToken);
    var p := BearerPrefix + ExpectedToken;
    if StartsWith(t, ExpectedToken) {
      assert h[..|p|] == h[..|BearerPrefix|] + t[..|ExpectedToken|];
    }
    if StartsWith(h, p) {
      assert t[..|ExpectedToken|] == h[|BearerPrefix|..|p|];
    }
  }

  /**
   * The authentication middleware: `None` lets the request through, otherwise
   * the 401 response it sends.
   */
  function Authenticate(authHeader: Option<string>): (rejection: Option<Response>)
    ensures rejection == None <==> authHeader.Some? && AdmittedHeader(authHeader.value)
    ensures rejection == Some(Unauthorized(NoTokenMessage))
            <==> authHeader.None? || !StartsWith(authHeader.value, BearerPrefix)
    ensures rejection == Some(Unauthorized(InvalidTokenMessage))
            <==> authHeader.Some? && StartsWith(authHeader.value, BearerPrefix) && !AdmittedHeader(authHeader.value)
  {
    if authHeader.None? || !StartsWith(authHeader.value, BearerPrefix) then
      assert authHeader.Some? ==> !AdmittedHeader(authHeader.value);
      Some(Unauthorized(NoTokenMessage))
    else
      BearerTokenMatches(authHeader.value);
      if BearerToken(authHeader.value) == ExpectedToken then None
      else Some(Unauthorized(InvalidTokenMessage))
  }

  // ---------------------------------------------------------------------
  // Validation and naming

  predicate IsAllowedType(mimetype: string) {
    mimetype in AllowedTypes
  }

  /** The folder a file is stored under, chosen from its MIME type. */
  function Folder(mimetype: string): (folder: string)
    ensures folder == "images" <==> StartsWith(mimetype, "image/")
    ensures folder == "documents" <==> mimetype == "application/pdf"
    ensures folder == "misc" <==> !StartsWith(mimetype, "image/") && mimetype != "application/pdf"
  {
    assert !StartsWith("application/pdf", "image/") by { assert "application/pdf"[0] != 'i'; }
    if StartsWith(mimetype, "image/") then "images"
    else if mimetype == "application/pdf" then "documents"
    else "misc"
  }

  /** Of the admitted types, jpeg and png go to images, pdf to documents and plain text to misc. */
  lemma FolderOfAllowedType(mimetype: string)
    requires IsAllowedType(mimetype)
    ensures Folder(mimetype) == "images" <==> mimetype == "image/jpeg" || mimetype == "image/png"
    ensures Folder(mimetype) == "documents" <==> mimetype == "application/pdf"
    ensures Folder(mimetype) == "misc" <==> mimetype == "text/plain"
  {
    assert StartsWith("image/jpeg", "image/");
    assert StartsWith("image/png", "image/");
    assert !StartsWith("text/plain", "image/") by { assert "text/plain"[0] != 'i'; }
  }

  /** `${folder}/${id}${ext}` */
  function StorageKey(folder: string, id: string, ext: string): (key: string)
    ensures StartsWith(key, folder + "/")
    ensures EndsWith(key, ext)
  {
    folder + "/" + id + ext
  }

  predicate IsHexDigit(c: char) {
    '0' <= c <= '9' || 'a' <= c <= 'f'
  }

  /** The text form of a UUID: 36 characters, hyphens at 8, 13, 18 and 23, lower-case hex elsewhere. */
  predicate IsUuidText(id: string) {
    && |id| == 36
    && forall i :: 0 <= i < |id| ==>
         if i == 8 || i == 13 || i == 18 || i == 23 then id[i] == '-' else IsHexDigit(id[i])
  }

  /**
   * A key determines its folder, its identifier and its extension, so two
   * different identifiers never give the same key.
   */
  lemma StorageKeyInjective(f1: string, id1: string, e1: string, f2: string, id2: string, e2: string)
    requires '/' !in f1 && '/' !in f2
    requires IsUuidText(id1) && IsUuidText(id2)
    requires StorageKey(f1, id1, e1) == StorageKey(f2, id2, e2)
    ensures f1 == f2 && id1 == id2 && e1 == e2
  {
    var r1, r2 := "/" + id1 + e1, "/" + id2 + e2;
    assert StorageKey(f1, id1, e1) == f1 + r1;
    assert StorageKey(f2, id2, e2) == f2 + r2;
    SplitAtSeparator(f1, r1, f2, r2, '/');
    assert r1[1..37] == id1 && r2[1..37] == id2;
    assert r1[37..] == e1 && r2[37..] == e2;
  }

  // ---------------------------------------------------------------------
  // The pipeline

  /** The error middleware registered last: any error passed on becomes a 500. */
  function CatchAll(message: string): (r: Response)
    ensures StatusCode(r) == 500
    ensures r.error == InternalErrorMessage && r.details == message
  {
    ServerError(InternalErrorMessage, message)
  }

  /** The parser for the "file" field: an oversized or malformed part is an error passed on. */
  function ParseUpload(body: Body): (parsed: Result<Option<UploadedFile>, string>)
    requires !body.BadJson?
    ensures parsed.Success? && parsed.value.Some? ==> parsed.value.value.size <= MaxUploadBytes
    ensures parsed.Success? <==> body.NoFile? || (body.FilePart? && body.file.size <= MaxUploadBytes)
    ensures parsed.Success? ==> parsed.value == (if body.FilePart? then Some(body.file) else None)
    ensures body.FilePart? && body.file.size > MaxUploadBytes ==> parsed == Failure(FileTooLargeMessage)
    ensures body.BadMultipart? ==> parsed == Failure(body.message)
  {
    match body
    case NoFile => Success(None)
    case FilePart(file) => if file.size > MaxUploadBytes then Failure(FileTooLargeMessage) else Success(Some(file))
    case BadMultipart(message) => Failure(message)
  }

  /** The route handler proper, after authentication and parsing. */
  function HandleUpload(file: Option<UploadedFile>, id: string, cdn: string, store: StoreResult): (o: Outcome)
    ensures o.put.Some? <==> file.Some? && IsAllowedType(file.value.mimetype)
    ensures file.None? ==> o.response == BadRequest(NoFileMessage)
    ensures file.Some? && !IsAllowedType(file.value.mimetype) ==> o.response == BadRequest(TypeNotAllowedMessage)
    ensures o.put.Some? ==>
              var f := file.value;
              o.put.value == PutObject(StorageKey(Folder(f.mimetype), id, NodePath.ExtName(f.originalName)), f.mimetype)
    ensures o.put.Some? && store.Stored? ==>
              o.response == Ok(cdn + "/" + o.put.value.key, o.put.value.key, file.value.mimetype, file.value.originalName)
    ensures o.put.Some? && store.StoreFailed? ==> o.response == ServerError(StoreFailedMessage, store.message)
  {
    if file.None? then Outcome(BadRequest(NoFileMessage), None)
    else
      var f := file.value;
      if !IsAllowedType(f.mimetype) then Outcome(BadRequest(TypeNotAllowedMessage), None)
      else
        var key := StorageKey(Folder(f.mimetype), id, NodePath.ExtName(f.originalName));
        var put := PutObject(key, f.mimetype);
        match store
        case Stored => Outcome(Ok(cdn + "/" + key, key, f.mimetype, f.originalName), Some(put))
        case StoreFailed(message) => Outcome(ServerError(StoreFailedMessage, message), Some(put))
  }

  /**
   * One POST /upload: the global JSON parser, then authentication, then the
   * multipart parser, then the handler; the first step that fails answers.
   */
  function Handle(req: Request, id: string, cdn: string, store: StoreResult): (o: Outcome)
    // storage is called exactly for an admitted header, a file within the limit and an allowed type
    ensures o.put.Some? <==>
              && req.authorization.Some? && AdmittedHeader(req.authorization.value)
              && req.body.FilePart? && req.body.file.size <= MaxUploadBytes
              && IsAllowedType(req.body.file.mimetype)
    // and the response says whether it was
    ensures o.put.Some? <==> o.response.Ok? || (o.response.ServerError? && o.response.error == StoreFailedMessage)
    // a rejected header answers 401 and nothing later runs
    ensures !req.body.BadJson? && Authenticate(req.authorization).Some? ==>
              o == Outcome(Authenticate(req.authorization).value, None)
    ensures o.response.Unauthorized? ==> o.put.None? && !(req.authorization.Some? && AdmittedHeader(req.authorization.value))
    // a body the JSON parser rejects answers 500 before authentication
    ensures req.body.BadJson? ==> o == Outcome(ServerError(InternalErrorMessage, req.body.message), None)
    // past authentication, a part the multipart parser rejects, or a file over its limit, answers 500
    ensures req.authorization.Some? && AdmittedHeader(req.authorization.value) && req.body.BadMultipart? ==>
              o == Outcome(ServerError(InternalErrorMessage, req.body.message), None)
    ensures req.authorization.Some? && AdmittedHeader(req.authorization.value)
            && req.body.FilePart? && req.body.file.size > MaxUploadBytes ==>
              o == Outcome(ServerError(InternalErrorMessage, FileTooLargeMessage), None)
    // past authentication and parsing, the handler answers: no file part, or a disallowed type, is a 400
    ensures !req.body.BadJson? && Authenticate(req.authorization).None? && ParseUpload(req.body).Success? ==>
              o == HandleUpload(ParseUpload(req.body).value, id, cdn, store)
    ensures req.authorization.Some? && AdmittedHeader(req.authorization.value) && req.body.NoFile? ==>
              o == Outcome(BadRequest(NoFileMessage), None)
    ensures req.authorization.Some? && AdmittedHeader(req.authorization.value)
            && req.body.FilePart? && req.body.file.size <= MaxUploadBytes && !IsAllowedType(req.body.file.mimetype) ==>
              o == Outcome(BadRequest(TypeNotAllowedMessage), None)
    // the one storage call, made or failed, is for the key derived from the file
    ensures o.put.Some? ==>
              o.put.value == PutObject(StorageKey(Folder(req.body.file.mimetype), id, NodePath.ExtName(req.body.file.originalName)),
                                       req.body.file.mimetype)
    // so an oversized file never reaches the handler
    ensures req.body.FilePart? && req.body.file.size > MaxUploadBytes ==> o.put.None? && StatusCode(o.response) in {401, 500}
    ensures o.response.Ok? ==>
              && req.body.FilePart?
              && o.response.url == cdn + "/" + o.response.key
              && o.response.key == StorageKey(Folder(req.body.file.mimetype), id, NodePath.ExtName(req.body.file.originalName))
              && o.response.fileType == req.body.file.mimetype
              && o.response.originalName == req.body.file.originalName
              && store.Stored?
    ensures o.response.ServerError? && o.response.error == StoreFailedMessage ==>
              store.StoreFailed? && o.response.details == store.message
  {
    if req.body.BadJson? then Outcome(CatchAll(req.body.message), None)
    else
      match Authenticate(req.authorization)
      case Some(rejection) => Outcome(rejection, None)
      case None =>
        match ParseUpload(req.body)
        case Failure(message) => Outcome(CatchAll(message), None)
        case Success(file) => HandleUpload(file, id, cdn, store)
  }

  lemma ExpectedHeaderAdmitted(header: string)
    requires header == "Bearer YOUR_JWT_TOKEN"
    ensures Authenticate(Some(header)) == None
  {
    assert header == BearerPrefix + ExpectedToken;
  }

  /**
   * A 2 KB "photo.png" of type image/png with the right token is stored under
   * images/<id>.png and served from <cdn>/images/<id>.png.
   */
  lemma PhotoExample(header: string, file: UploadedFile, id: string, cdn: string)
    requires header == "Bearer YOUR_JWT_TOKEN"
    requires file == UploadedFile("image/png", "photo.png", 2048)
    ensures var r := Handle(Request(Some(header), FilePart(file)), id, cdn, Stored).response;
            && r.Ok?
            && r.key == "images/" + id + ".png"
            && r.url == cdn + "/" + r.key
            && r.fileType == "image/png" && r.originalName == "photo.png"
  {
    var req := Request(Some(header), FilePart(file));
    ExpectedHeaderAdmitted(header);
    assert ParseUpload(req.body) == Success(Some(file));
    assert Handle(req, id, cdn, Stored) == HandleUpload(Some(file), id, cdn, Stored);
    assert IsAllowedType(file.mimetype);
    assert Folder(file.mimetype) == "images" by { assert StartsWith(file.mimetype, "image/"); }
    NodePath.ExtNameOfPhoto();
    ImageKeyText(id);
  }

  lemma ImageKeyText(id: string)
    ensures StorageKey("images", id, ".png") == "images/" + id + ".png"
  {
    assert "images" + "/" == "images/";
  }
}
