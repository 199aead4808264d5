/**
 * How the client and the server fit together: the header the client sends
 * is the one the server admits, the two size limits agree, the client's
 * classifiers agree with the server's folders on the admitted types, and
 * for every upload the client reports exactly what the server answered.
 */
module EndToEnd {
  import opened Wrappers
  import opened Text
  import Server
  import Client

  /** The JSON body sent with each response (the upload time is left out). */
  function ResponseBody(r: Server.Response): (body: Client.JsonObject)
    ensures "error" in body <==> !r.Ok?
    ensures !r.Ok? ==> body["error"] == r.error
    ensures "details" in body <==> r.ServerError?
    ensures r.Ok? ==> body.Keys == {"url", "key", "fileType", "originalName"}
    ensures r.Ok? ==> body["url"] == r.url && body["key"] == r.key
                      && body["fileType"] == r.fileType && body["originalName"] == r.originalName
  {
    match r
    case Unauthorized(e) => map["error" := e]
    case BadRequest(e) => map["error" := e]
    case ServerError(e, d) => map["error" := e, "details" := d]
    case Ok(url, key, t, n) => map["url" := url, "key" := key, "fileType" := t, "originalName" := n]
  }

  /** The part the server receives for a file the client appends as form field "file". */
  function Part(file: Client.FileInfo): Server.UploadedFile {
    Server.UploadedFile(file.mimeType, file.name, file.size)
  }

  /** The client's fixed header passes the server's check. */
  lemma ClientHeaderAdmitted()
    ensures Server.Authenticate(Some(Client.AuthorizationHeader())) == None
  {
    assert Client.AuthorizationHeader() == Server.BearerPrefix + Server.ExpectedToken;
  }

  /** The client lets a file through exactly when the server's parser accepts its size. */
  lemma SizeLimitsAgree(file: Client.FileInfo)
    ensures Client.PreCheck(Some(file)) == None <==> Server.ParseUpload(Server.FilePart(Part(file))).Success?
  {
  }

  /** On the four admitted types, the client's icon and media preview agree with the server's folder. */
  lemma ClassifiersAgreeWithFolder(mimetype: string)
    requires Server.IsAllowedType(mimetype)
    ensures Client.FileTypeIcon(mimetype) == Client.ImageIcon <==> Server.Folder(mimetype) == "images"
    ensures Client.FileTypeIcon(mimetype) == Client.PdfIcon <==> Server.Folder(mimetype) == "documents"
    ensures Client.FileTypeIcon(mimetype) == Client.TextIcon <==> Server.Folder(mimetype) == "misc"
    ensures Client.MediaPreview(mimetype) == Client.ImageMedia <==> Server.Folder(mimetype) == "images"
    ensures Client.MediaPreview(mimetype) != Client.ImageMedia ==> Client.MediaPreview(mimetype) == Client.NoMedia
  {
    Server.FolderOfAllowedType(mimetype);
    Client.PrefixesExclusive(mimetype);
    assert StartsWith("text/plain", "text/");
    assert "image/jpeg"[0] == 'i' && "image/png"[0] == 'i';
    assert !StartsWith("image/jpeg", "video/") && !StartsWith("image/png", "video/");
    assert !StartsWith("application/pdf", "video/") && !StartsWith("text/plain", "video/");
    assert !StartsWith("application/pdf", "audio/") by { assert "application/pdf"[1] == 'p'; }
    assert !StartsWith("text/plain", "audio/") by { assert "text/plain"[0] == 't'; }
  }

  /**
   * The client turns any server response with a non-empty error into a
   * failure with that message, and a success into the returned body with the
   * media preview chosen from the stored type.
   */
  lemma ClientReadsResponse(r: Server.Response)
    requires !r.Ok? ==> r.error != []
    ensures var f := Client.Finish(Client.Load(Server.StatusCode(r), Client.Json(ResponseBody(r))));
            && (f.Succeeded? <==> r.Ok?)
            && (r.Ok? ==> f.data == ResponseBody(r) && f.media == Client.MediaPreview(r.fileType))
            && (!r.Ok? ==> f == Client.Failed(Client.Message(r.error)))
  {
  }

  /** Every response the server sends names its error, if it has one. */
  lemma ServerErrorsNamed(req: Server.Request, id: string, cdn: string, store: Server.StoreResult)
    ensures var r := Server.Handle(req, id, cdn, store).response;
            !r.Ok? ==> r.error != []
  {
  }

  /**
   * For any file the client sends, the upload succeeds on the client exactly
   * when the server answered 200, and otherwise the client shows the server's
   * error message.
   */
  lemma ClientReportsServerOutcome(file: Client.FileInfo, id: string, cdn: string, store: Server.StoreResult)
    requires Client.PreCheck(Some(file)) == None
    ensures var o := Server.Handle(Server.Request(Some(Client.AuthorizationHeader()), Server.FilePart(Part(file))), id, cdn, store);
            var f := Client.Finish(Client.Load(Server.StatusCode(o.response), Client.Json(ResponseBody(o.response))));
            && (f.Succeeded? <==> o.put.Some? && store.Stored?)
            && (f.Succeeded? ==> f.media == Client.MediaPreview(file.mimeType))
            && (!f.Succeeded? ==> f == Client.Failed(Client.Message(o.response.error)))
  {
    var req := Server.Request(Some(Client.AuthorizationHeader()), Server.FilePart(Part(file)));
    var o := Server.Handle(req, id, cdn, store);
    ClientHeaderAdmitted();
    ServerErrorsNamed(req, id, cdn, store);
    ClientReadsResponse(o.response);
  }
}
