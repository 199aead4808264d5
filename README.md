# s3-file-uploader: a Dafny model of the upload decisions

The uploader is a thin proxy. A browser page lets the user choose or drop
one file, checks its size, and sends it with a bearer token to a `POST
/upload` route. The server checks the token and the file's type. It then
stores the file in an S3 bucket under a key named after the type (for
example `images/<uuid>.png`) and answers with the file's CDN URL. This
project models the decision rules on both sides, and the page state that
the client's event handlers change, and proves properties of them.

- `wrappers.dfy` (`Wrappers`): `Option` and `Result`.
- `text.dfy` (`Text`): JavaScript's `startsWith`, `split` on one character
  (with `Join` as its inverse), and the decimal text of a number.
- `nodepath.dfy` (`NodePath`): Node's POSIX `path.extname`.
- `server.dfy` (`Server`): the route as a pure function `Handle` from a
  request, a generated id, the CDN base URL and the storage call's result
  to an `Outcome`. The outcome holds the response, either 401, 400 or 500
  with its messages or 200 with `url`, `key`, `fileType` and `originalName`.
  It also holds the storage call made on the way, if any (`put`: its key
  and content type), so "never stored on rejection" can be stated. The
  global JSON parser and the multipart parser are modelled at their
  boundary, in the order in which the route chains them: JSON parser,
  authentication, multipart parser, handler.
- `client.dfy` (`Client`): the pre-flight checks, the progress percentage,
  how each XHR outcome settles the upload promise, and the icon,
  local-preview and media-preview classifiers.
- `page.dfy` (`Page`): a class `UploadPage` whose fields are the DOM state
  the handlers change: the chosen file, the label, the button's `disabled`,
  alerts, the progress bar and text, the bar's classes, the preview, the
  result area, the requests sent, and how many are in flight. The methods
  are `Change`, `Drop`, `Click` (up to sending the request), `Progress` and
  `Complete` (after the request settles). `Valid()` is preserved by all
  of them: the button is disabled only while no file is chosen or an upload
  is running, and a shown progress bar agrees with its text.
- `endtoend.dfy` (`EndToEnd`): lemmas that join client and server.

Some behaviours of the source that the model makes explicit:

- The button ends enabled after every upload, even a successful one. The
  success branch clears the file and disables the button, but `finally`
  then enables it, so the next click only alerts (`Page.UploadPage.Complete`,
  `Page.SuccessThenClickAgain`).
- The client's size error is thrown before `uploadFile`'s `try`. So for a
  file over 10 MiB the result area is not updated, the click handler
  swallows the error, and no message is shown (`Page.UploadPage.Click`).
- The token is the second space-separated field of the header. So
  `Bearer YOUR_JWT_TOKEN extra` is admitted, and a double space after
  `Bearer` is rejected (`Server.BearerTokenMatches`).
- A completed upload adds the class `complete`, `error`, or both (a resolved
  body without `fileType`) to the progress bar and never removes one.

The code answers these cases as follows:

- A file over the server's limit is refused by the multipart parser. The
  route passes that error to the final error handler, which answers 500
  "Internal server error", not a 400.
- The JSON body parser runs before authentication. A malformed JSON body
  therefore answers 500 even without a token.
- `/health` is not behind authentication.

## Model

| member | source | states |
|---|---|---|
| `Text.Split` | backend/server.js:56 | `split(' ')` always gives at least one field, no field contains the separator, and joining the fields with it gives back the header |
| `Text.SplitJoin` | backend/server.js:56 | splitting what `Join` built from one or more fields, none containing the separator, gives back the same fields, so on such fields `Split` and `Join` are inverse |
| `Text.FirstField` | backend/server.js:56 | the first field of the split is the separator-free prefix that ends at the first separator or at the end of the text, and no other prefix qualifies |
| `Text.DecimalString` | frontend/script.js:82 | a number's text is a numeral (non-empty, all digits, no leading zero unless it is "0") that denotes the number |
| `Text.NumeralUnique` | frontend/script.js:82 | every numeral is the text of the number it denotes, so a number has exactly one numeral and `DecimalString` is that one |
| `NodePath.BaseName` | backend/server.js:84 | the base name contains no '/' and ends the path once trailing slashes are removed |
| `NodePath.BaseNameIsLastComponent` | backend/server.js:84 | the base name is the whole trimmed path or is preceded by a '/', so it is exactly the last component |
| `NodePath.ExtName` | backend/server.js:84 | the extension is empty or one '.' followed by no other '.', contains no '/', is a suffix of the base name, and is shorter than a base name that has one |
| `NodePath.ExtNameOfStem` | backend/server.js:84 | a name `stem.ext` whose stem is non-empty and has no '/', whose `ext` has no '.' and no '/', and which is not "..", has extension `.ext` |
| `NodePath.ExtNameOfPhoto` | backend/server.js:84 | "photo.png" keeps ".png" |
| `NodePath.ExtNameOfArchive` | backend/server.js:84 | of "archive.tar.gz" only ".gz" is kept |
| `NodePath.ExtNameOfDotfile` | backend/server.js:84 | a name whose only '.' is its first character, such as ".bashrc", and which has no '/', has no extension |
| `Server.BearerToken` | backend/server.js:56 | the token contains no space and is the prefix of the header after "Bearer " that ends at the next space or at the end |
| `Server.BearerTokenMatches` | backend/server.js:56-60 | for a header starting "Bearer ", its second field equals YOUR_JWT_TOKEN exactly when the header is "Bearer YOUR_JWT_TOKEN" alone or followed by a space |
| `Server.ExpectedHeaderAdmitted` | backend/server.js:60-61 | the header "Bearer YOUR_JWT_TOKEN" is let through |
| `Server.Authenticate` | backend/server.js:49-65 | a request passes exactly when its header is admitted; a missing header, or one not starting with "Bearer ", gives 401 "Unauthorized: No token provided"; any other header gives 401 "Unauthorized: Invalid token" |
| `Server.Folder` | backend/server.js:87-93 | "images" exactly for an "image/" prefix, "documents" exactly for "application/pdf", "misc" exactly for everything else |
| `Server.FolderOfAllowedType` | backend/server.js:78-93 | of the admitted types, jpeg and png go to images, pdf to documents and text/plain to misc |
| `Server.StorageKey` | backend/server.js:83-97 | the key starts with the folder and a '/' and ends with the original extension |
| `Server.StorageKeyInjective` | backend/server.js:83-97 | with UUID-shaped ids, equal keys mean equal folder, id and extension, so two different ids never give the same key |
| `Server.StatusCode` | backend/server.js:53-128 | a success response is sent with 200 and is the only 2xx response; the refusals of `authenticate` are 401, the handler's refusals 400, and storage or middleware errors 500 |
| `Server.CatchAll` | backend/server.js:126-129 | any error reaching the final handler answers 500 "Internal server error" with the error's message as details |
| `Server.ParseUpload` | backend/server.js:20-26 | the parser lets a request through exactly when it has no file part or a file of at most 10 MiB, handing on that file or none; an oversized file fails with "File too large" and a rejected part with its own message, so no oversized file reaches the handler |
| `Server.HandleUpload` | backend/server.js:72-123 | storage is called exactly for a present file of an allowed type, with key `folder/id+ext` and its MIME type; no file gives 400 "No file uploaded"; a disallowed type gives 400 "File type not allowed"; a stored file gives `url == cdn + "/" + key` with the file's type and name; a failed store gives 500 "Upload to S3 failed" with the store's message as details |
| `Server.Handle` | backend/server.js:72-129 | storage is called exactly for an admitted header, a file within the limit and an allowed type, and the response shows whether it was; a rejected header gives its 401 and nothing later runs; parser errors, a malformed JSON body and an oversized file give 500 "Internal server error" with the error's message; a 200 carries the CDN URL of the key derived from the file; past authentication and parsing the answer is the handler's, so no file part gives 400 "No file uploaded" and a disallowed type 400 "File type not allowed"; the one storage call, whether it succeeds or fails, is for the key derived from the file and its MIME type |
| `Server.PhotoExample` | backend/server.js:84-118 | a 2 KB "photo.png" of type image/png with the right token is stored under `images/<id>.png` and served from `<cdn>/images/<id>.png` |
| `Client.AuthorizationHeader` | frontend/script.js:98 | the client sends "Bearer YOUR_JWT_TOKEN" |
| `Client.SizeLimitMessage` | frontend/script.js:17-19 | the size error reads "File size exceeds the limit of 10MB" |
| `Client.PreCheck` | frontend/script.js:12-20 | no file gives "No file selected"; a size above 10·1024·1024 gives the size error; a file of exactly the limit or smaller passes |
| `Client.Percent` | frontend/script.js:63 | the value is the nearest whole percentage of `loaded/total`, halves rounded up, and is at most 100 when `loaded <= total` |
| `Client.PercentMonotonic` | frontend/script.js:63 | the percentage never decreases as more bytes are sent |
| `Client.PercentEnds` | frontend/script.js:63 | nothing sent is 0% and everything sent is 100% |
| `Client.ProgressValue` | frontend/script.js:61-66 | an event moves the bar exactly when its length is computable, to `Percent(loaded, total)`, which is at most 100 when `loaded <= total` |
| `Client.PercentTextShape` | frontend/script.js:65 | the progress text is the numeral of the percentage followed by "%" |
| `Client.PercentTextZero` | frontend/script.js:39 | the text of 0% is "0%", the text the bar is reset to |
| `Client.StatusFailureMessage` | frontend/script.js:82 | the message starts "Upload failed with status " and the rest is the numeral of the status, which by `Text.NumeralUnique` is the only one |
| `Client.Settle` | frontend/script.js:69-93 | a load with status in [200,300) and a JSON body resolves to that body, with a non-JSON body it rejects "Invalid server response"; any other load rejects with the body's non-empty `error`, else "Upload failed", else (non-JSON) the status message; error and abort reject "Network error during upload" and "Upload aborted"; every rejection message is non-empty |
| `Client.FileTypeIcon` | frontend/script.js:160-170 | the image icon exactly for an "image/" prefix, the pdf icon exactly for "application/pdf", the text icon exactly for a "text/" prefix, the generic icon otherwise |
| `Client.PrefixesExclusive` | frontend/script.js:109-126 | no type has two of the prefixes image/, video/, audio/, text/, and "application/pdf" has neither image/ nor text/, so a first match is the only match |
| `Client.MediaPreview` | frontend/script.js:109-126 | an image element exactly for "image/", video exactly for "video/", audio exactly for "audio/", none otherwise |
| `Client.LocalPreview` | frontend/script.js:42-53 | an image file is previewed from its data, any other file by its type's icon (never the image icon) and its name |
| `Client.Finish` | frontend/script.js:102-140 | the upload succeeds exactly when the promise resolves to a body with `fileType`, and then shows the media preview for that type; a rejection fails with its message; a resolved body without `fileType` fails with the engine's TypeError |
| `Page.UploadPage.constructor` | frontend/script.js:175-178 | the page starts with no file chosen, nothing sent and an empty result area, and satisfies `Valid()` |
| `Page.UploadPage.Change` | frontend/script.js:181-190 | a chosen file becomes the label and enables the button; no file resets the label to "Choose a file" and disables the button; nothing else changes |
| `Page.UploadPage.Drop` | frontend/script.js:248-257 | a drop with a file selects it, names the label with it and enables the button; a drop without one changes nothing |
| `Page.AddedBarClasses` | frontend/script.js:106-144 | a resolved upload adds "complete"; "error" is added exactly when the upload did not succeed; no other class is added |
| `Page.UploadPage.Click` | frontend/script.js:193-204 | a click reaches only an enabled button, and the button ends disabled exactly when an upload starts; without a file only an alert is added; an oversized file leaves everything but the button unchanged and the button enabled; otherwise the button is disabled, the bar shows 0 and "0%", the result is cleared, the preview set and exactly this file is sent |
| `Page.UploadPage.Progress` | frontend/script.js:61-66 | a computable event sets the bar to the percentage and the text to the percentage followed by "%"; any other event leaves both unchanged |
| `Page.UploadPage.Complete` | frontend/script.js:200-215 | the button ends enabled on every path; on success the file is cleared and the label reset to "Choose a file", otherwise both are kept; the result area shows the outcome and the bar gains "complete" and/or "error" |
| `EndToEnd.ResponseBody` | backend/server.js:53-128 | every refusal's JSON body carries its `error`, only a 500 carries `details`, and a success body has exactly the members `url`, `key`, `fileType` and `originalName`, each the response's own |
| `EndToEnd.ClientHeaderAdmitted` | frontend/script.js:98 | the header the client sends passes the server's check |
| `EndToEnd.SizeLimitsAgree` | frontend/script.js:17-18 | the client passes a file exactly when the server's parser accepts its size |
| `EndToEnd.ClassifiersAgreeWithFolder` | frontend/script.js:160-170 | on the admitted types, the image icon and image preview go exactly with the images folder, the pdf icon with documents, the text icon with misc, and no other preview appears |
| `EndToEnd.ClientReadsResponse` | frontend/script.js:69-84 | a server response with a non-empty error becomes a failure with that message, and a 200 becomes a success with the returned body |
| `EndToEnd.ServerErrorsNamed` | backend/server.js:72-129 | every non-200 response names a non-empty error |
| `EndToEnd.ClientReportsServerOutcome` | frontend/script.js:55-102 | for any file the client sends, it reports success exactly when the server stored the file, with the preview for the file's type, and otherwise shows the server's error message |

## Left out

- The S3 client and `PutObjectCommand`: the storage call is an input, `Stored` or `StoreFailed(message)`. The bucket name and the bytes are not modelled.
- Express routing, CORS, dotenv, `app.listen` and the `/health` route: these are framework plumbing with no decisions in them.
- The multipart parser's internals: the model keeps only its outcome at the route. It lets through no file or one file within 10 MiB, and otherwise raises an error. `FileTooLargeMessage` ("File too large") is that library's message for the size limit, a text that is not in the repository's files.
- The JSON body parser: only its failure matters here (`BadJson`), because the failure is answered by the final error handler before authentication.
- UUID generation: the id is a parameter. `IsUuidText` states only the text shape of a UUID, not its randomness.
- `uploadedAt` in the success body, because it depends on the clock.
- `NodePath.ExtName`: only the POSIX separator '/' is handled, not Windows paths.
- XMLHttpRequest, FormData, FileReader, `innerHTML` strings (the icons of `getFileTypeIcon` are the values of `Client.Icon`, not their markup), the message text of the success and error views, drag highlighting, `preventDefault`, console logging: all browser I/O and UI glue. The image preview is read asynchronously in the source; the model sets it when the upload starts.
- `Client.Percent`: computes `Math.round(loaded / total * 100)` in integers as `(200·loaded + total) / (2·total)`, so floating-point rounding is not modelled. It requires `total > 0`: for a computable length of 0 the source would compute NaN, which the model does not represent.
- `Client.ProgressValue`: carries the same `total > 0` requirement for a computable event, for the same reason.
- `Page.UploadPage.Progress`: requires a computable event to have `0 < total` and `loaded <= total`, as browsers report them for a multipart body.
- JSON bodies are modelled as objects with string-valued members. Non-object bodies such as `null`, and non-string `error` or `fileType` values, are not modelled.
- `Client.Failure.TypeError` stands for the engine's TypeError when a resolved body has no `fileType`. Its message text is the engine's own and is not modelled.
- `Page.UploadPage.Click`: requires the button to be enabled, because a browser delivers no click to a disabled button. Clicks that reach the button some other way are not modelled.
- `EndToEnd.Part`: the server's file part has exactly the client's `file.type`, `file.name` and `file.size`. A browser sends an empty `file.type` as `application/octet-stream`, a mapping not modelled. Both types are refused with the same 400 "File type not allowed".
- Overlapping uploads are counted (`inFlight`), but their events are not told apart. In the source they update the same elements too.
- No base64-JSON upload path and no health-polling loop exist in the modelled files, so neither is modelled.
