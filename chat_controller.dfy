/**
 * The chat HTTP endpoints: sending a message, uploading a file as a message,
 * and fetching the messages between two users. Each is a run of checks that
 * either throws an HTTP error or hands the request on to the chat store.
 *
 * The user lookups, the file upload and the chat store are not modelled:
 * their outcomes are parameters, and a successful call returns what would be
 * handed to the store.
 */
module ChatController {
  import opened Wrappers
  import opened Strings

  /** A user record as returned by the user lookups. */
  datatype User = User(id: string)

  /** The HTTP errors the endpoints raise. */
  datatype HttpError =
    | BadRequest(message: string)
    | NotFound(message: string)
    | ServerError(message: string)

  function MessageOf(e: HttpError): string {
    match e
    case BadRequest(m) => m
    case NotFound(m) => m
    case ServerError(m) => m
  }

  /** The arguments handed to the chat store to save one message. */
  datatype SendRequest = SendRequest(
    sender: User,
    receiver: User,
    text: string,
    messageId: Option<string>,
    fileUrl: Option<string>,
    fileName: Option<string>,
    fileType: Option<string>)

  /** The arguments handed to the chat store to list a conversation. */
  datatype MessagesQuery = MessagesQuery(userId1: string, userId2: string)

  /** The uploaded file, as the multipart parser describes it. */
  datatype UploadedFile = UploadedFile(originalName: string, mimeType: string)

  const EmptyMessage := "Message cannot be empty and no file attached"

  /** What `text.trim()` throws when the body has no `text`. */
  const UndefinedText := "Cannot read properties of undefined (reading 'trim')"

  /** A text and file URL the send endpoint accepts: some text, or a file. */
  predicate HasContent(text: string, fileUrl: Option<string>) {
    Trim(text) != "" || !Falsy(fileUrl)
  }

  /**
   * `POST /chat/:receiverId/send` for the authenticated user `authId`:
   * a body with neither text nor file is refused before any lookup; then a
   * missing sender, and after it a missing receiver, is NotFound; only when
   * both exist does the message reach the store, with its id and file fields
   * as given. A store failure is passed on unchanged.
   */
  function SendMessage(
    authId: string, receiverId: string,
    text: Option<string>, messageId: Option<string>,
    fileUrl: Option<string>, fileName: Option<string>, fileType: Option<string>,
    sender: Option<User>, receiver: Option<User>, storeError: Option<HttpError>): (r: Result<SendRequest, HttpError>)
    ensures text.None? ==> r == Err(ServerError(UndefinedText))
    ensures text.Some? && !HasContent(text.value, fileUrl) ==> r == Err(BadRequest(EmptyMessage))
    ensures text.Some? && HasContent(text.value, fileUrl) && sender.None? ==>
      r == Err(NotFound("Sender with ID " + authId + " not found"))
    ensures text.Some? && HasContent(text.value, fileUrl) && sender.Some? && receiver.None? ==>
      r == Err(NotFound("Receiver with ID " + receiverId + " not found"))
    ensures r.Ok? <==>
      text.Some? && HasContent(text.value, fileUrl) && sender.Some? && receiver.Some? && storeError.None?
    ensures r.Ok? ==>
      r.value == SendRequest(sender.value, receiver.value, text.value, messageId, fileUrl, fileName, fileType)
    ensures r.Err? && r.error.NotFound? ==> text.Some? && HasContent(text.value, fileUrl)
  {
    if text.None? then Err(ServerError(UndefinedText))
    else if Trim(text.value) == "" && Falsy(fileUrl) then Err(BadRequest(EmptyMessage))
    else if sender.None? then Err(NotFound("Sender with ID " + authId + " not found"))
    else if receiver.None? then Err(NotFound("Receiver with ID " + receiverId + " not found"))
    else if storeError.Some? then Err(storeError.value)
    else Ok(SendRequest(sender.value, receiver.value, text.value, messageId, fileUrl, fileName, fileType))
  }

  /**
   * The text stored with an upload: the given text, or when it is missing or
   * empty, "Sent a file: " followed by the file's original name.
   */
  function UploadText(text: Option<string>, file: UploadedFile): (r: string)
    ensures Falsy(text) ==> r == "Sent a file: " + file.originalName
    ensures !Falsy(text) ==> r == text.value
    ensures r != ""
  {
    if Falsy(text) then "Sent a file: " + file.originalName else text.value
  }

  /**
   * `POST /chat/:receiverId/upload`: the file is uploaded first (`upload` is
   * its secure URL, or the failure message), then both users are looked up.
   * The stored message carries the upload's URL, the original file name and
   * the MIME type. Every failure, a missing user included, becomes a
   * BadRequest whose message starts with "File upload failed: ".
   */
  function UploadFile(
    authId: string, receiverId: string,
    file: Option<UploadedFile>, text: Option<string>, messageId: Option<string>,
    upload: Result<string, string>,
    sender: Option<User>, receiver: Option<User>, storeError: Option<HttpError>): (r: Result<SendRequest, HttpError>)
    requires file.None? ==> upload.Err?
    ensures r.Err? ==> r.error.BadRequest? && StartsWith(r.error.message, "File upload failed: ")
    ensures upload.Err? ==> r == Err(BadRequest("File upload failed: " + upload.error))
    ensures upload.Ok? && sender.None? ==>
      r == Err(BadRequest("File upload failed: " + ("Sender with ID " + authId + " not found")))
    ensures upload.Ok? && sender.Some? && receiver.None? ==>
      r == Err(BadRequest("File upload failed: " + ("Receiver with ID " + receiverId + " not found")))
    ensures r.Ok? <==> upload.Ok? && sender.Some? && receiver.Some? && storeError.None?
    ensures r.Ok? ==> r.value == SendRequest(
      sender.value, receiver.value, UploadText(text, file.value), messageId,
      Some(upload.value), Some(file.value.originalName), Some(file.value.mimeType))
  {
    var outcome: Result<SendRequest, HttpError> :=
      if upload.Err? then Err(ServerError(upload.error))
      else if sender.None? then Err(NotFound("Sender with ID " + authId + " not found"))
      else if receiver.None? then Err(NotFound("Receiver with ID " + receiverId + " not found"))
      else if storeError.Some? then Err(storeError.value)
      else Ok(SendRequest(
        sender.value, receiver.value, UploadText(text, file.value), messageId,
        Some(upload.value), Some(file.value.originalName), Some(file.value.mimeType)));
    match outcome
    case Ok(req) => Ok(req)
    case Err(e) =>
      var m := "File upload failed: " + MessageOf(e);
      assert m[..|"File upload failed: "|] == "File upload failed: ";
      Err(BadRequest(m))
  }

  /**
   * What the upload endpoint stores, the send endpoint would accept as it is:
   * an upload with a non-empty URL always has content.
   */
  lemma UploadPassesSendCheck(
    authId: string, receiverId: string,
    file: Option<UploadedFile>, text: Option<string>, messageId: Option<string>,
    upload: Result<string, string>,
    sender: Option<User>, receiver: Option<User>)
    requires file.None? ==> upload.Err?
    requires UploadFile(authId, receiverId, file, text, messageId, upload, sender, receiver, None).Ok?
    requires upload.Ok? && upload.value != ""
    ensures
      var req := UploadFile(authId, receiverId, file, text, messageId, upload, sender, receiver, None).value;
      SendMessage(authId, receiverId, Some(req.text), req.messageId, req.fileUrl, req.fileName, req.fileType,
                  sender, receiver, None) == Ok(req)
  {
  }

  /**
   * `GET /chat/:userId1/:userId2/messages`: asking for a conversation with
   * oneself is refused before any lookup; then a missing first user, and
   * after it a missing second user, is NotFound. A store failure is passed on.
   */
  function GetMessages(
    userId1: string, userId2: string,
    user1: Option<User>, user2: Option<User>, storeError: Option<HttpError>): (r: Result<MessagesQuery, HttpError>)
    ensures userId1 == userId2 ==> r == Err(BadRequest("Cannot retrieve messages with oneself"))
    ensures userId1 != userId2 && user1.None? ==> r == Err(NotFound("User with ID " + userId1 + " not found"))
    ensures userId1 != userId2 && user1.Some? && user2.None? ==>
      r == Err(NotFound("User with ID " + userId2 + " not found"))
    ensures r.Ok? <==> userId1 != userId2 && user1.Some? && user2.Some? && storeError.None?
    ensures r.Ok? ==> r.value == MessagesQuery(userId1, userId2) && r.value.userId1 != r.value.userId2
  {
    if userId1 == userId2 then Err(BadRequest("Cannot retrieve messages with oneself"))
    else if user1.None? then Err(NotFound("User with ID " + userId1 + " not found"))
    else if user2.None? then Err(NotFound("User with ID " + userId2 + " not found"))
    else if storeError.Some? then Err(storeError.value)
    else Ok(MessagesQuery(userId1, userId2))
  }
}
