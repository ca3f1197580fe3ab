# Chat state and request rules of the freelancer platform, in Dafny

The freelancer platform has two sides, and this project models the chat part of both.

On the client, employers browse freelancers and chat with them in real time. The client side keeps:

- the message list of an open conversation;
- the unread badges of a freelancer's rooms;
- a table of unread counts per peer;
- the set of freelancers online;
- the dialogs of the home page.

On the server, the project models:

- the chat endpoints (send, upload a file, list a conversation);
- how an attachment is named and how its delivery URL is rewritten;
- the rules of the skills service;
- the rules a sign-up body must meet.

Most modules model one source file; the table below says which part of the source each module covers. Socket events, HTTP lookups, uploads, clocks and identifier generators are not modelled: what they deliver is a parameter.

- **Model the values the source computes and transforms:**
  - the `setState` updaters;
  - the endpoint checks;
  - the validation rules;
  - the icon choice.

  These are functions, and lemmas state what they promise.
- **Model the state the source changes step by step as classes:**
  - the message list and draft;
  - the room list with the shared count table;
  - the home page's flags and sets;
  - the skills table.

  Their methods state the new state. The loops of the source are methods with loop invariants:

  - grouping messages by date;
  - walking the rooms on a received message;
  - finding the `upload` segment;
  - de-duplicating search results.

| file | module | source |
|---|---|---|
| wrappers.dfy | `Wrappers` | optional values and results |
| strings.dfy | `Strings` | JavaScript `trim`, `split`/`join` on one character, `startsWith`/`endsWith`, falsy strings |
| chat_view.dfy | `ChatView` | apps/client/src/components/Chat.tsx |
| chat_links.dfy | `ChatLinks` | `renderMessageContent` in Chat.tsx |
| unread_counts.dfy | `UnreadCounts` | the unread-count table shared by Rooms.tsx and HomePage.tsx |
| rooms_view.dfy | `RoomsView` | apps/client/src/components/Rooms.tsx |
| home_page.dfy | `HomePage` | apps/client/src/pages/HomePage.tsx |
| chat_controller.dfy | `ChatController` | apps/api/src/chat/chat.controller.ts |
| cloudinary.dfy | `Cloudinary` | apps/api/src/cloudinary/cloudinary.service.ts |
| skills_service.dfy | `SkillsService` | apps/api/src/skills/skills.service.ts |
| user_dto.dfy | `UserDto` | apps/api/src/users/dto/create-user-service.dto.ts and create-user-controller.dto.ts |
| file_preview.dfy | `FilePreview` | apps/client/src/components/chat/FilePreview.tsx |

## Model

| member | source | states |
|---|---|---|
| Strings.Trim | apps/api/src/chat/chat.controller.ts:42 | The result is a contiguous stretch of the string, with only white space before and after it. It is empty exactly when the string is all white space; otherwise it starts and ends with a character that is not white space |
| Strings.SplitOn | apps/api/src/cloudinary/cloudinary.service.ts:61 | `split` on one character gives at least one piece, and no piece contains the separator |
| Strings.JoinSplit | apps/api/src/cloudinary/cloudinary.service.ts:61-67 | joining the pieces of a split with the same separator gives the string back |
| Strings.SplitJoin | apps/api/src/cloudinary/cloudinary.service.ts:61-67 | splitting the join of nonempty separator-free pieces gives the pieces back |
| Strings.SplitSingle | apps/client/src/components/chat/FilePreview.tsx:77 | a split yields one piece exactly when the separator does not occur |
| ChatView.IndexOfId | apps/client/src/components/Chat.tsx:153 | `findIndex` by id gives the first position with that id, or nothing exactly when no message has it |
| ChatView.Upsert | apps/client/src/components/Chat.tsx:152-172 | A message whose id is listed replaces the first entry with that id, in place, marked sent. The length is kept and every other position is unchanged. Otherwise the message is appended at the end, marked sent. Unique ids stay unique, and the id is present afterwards |
| ChatView.MarkMineRead | apps/client/src/components/Chat.tsx:185-190 | a read receipt sets `isRead` on exactly the messages I sent and changes nothing else |
| ChatView.MarkMineReadIdempotent | apps/client/src/components/Chat.tsx:183-190 | applying a read receipt twice equals applying it once |
| ChatView.SetStatus | apps/client/src/components/Chat.tsx:228-239 | the status update changes only the status, and only of messages with that id |
| ChatView.SetStatusOfFresh | apps/client/src/components/Chat.tsx:223-239 | for a fresh id, appending the optimistic message and then setting its status gives the old list plus that message in its final state |
| ChatView.StatusTick | apps/client/src/components/Chat.tsx:263-271 | no glyph on the partner's messages; on mine a double tick exactly when read, a single tick exactly when not |
| ChatView.ReadReceiptLeavesNoSingleTick | apps/client/src/components/Chat.tsx:185-190 | after a read receipt none of my messages shows a single tick |
| ChatView.OnDate | apps/client/src/components/Chat.tsx:273-282 | a date group is no longer than the list |
| ChatView.OnDateMembers | apps/client/src/components/Chat.tsx:273-282 | a date group holds exactly the messages of that date |
| ChatView.KeysInOrder | apps/client/src/components/Chat.tsx:273-282 | the group keys, in the order they first occur, have no repeats |
| ChatView.KeysInOrderCovers | apps/client/src/components/Chat.tsx:273-282 | a key is listed exactly when some message has that date |
| ChatView.GroupByDate | apps/client/src/components/Chat.tsx:273-282 | The loop that pushes each message into its date's group builds one group per date that occurs, and no other. Each group holds that date's messages in list order. Groups are ordered by first occurrence |
| ChatView.ChatWindow.constructor | apps/client/src/components/Chat.tsx:38-39 | the window starts with no messages and an empty draft |
| ChatView.ChatWindow.EditDraft | apps/client/src/components/Chat.tsx:39 | typing replaces the draft |
| ChatView.ChatWindow.ReceiveMessage | apps/client/src/components/Chat.tsx:147-179 | a message of this conversation (either direction) is upserted; any other leaves the list unchanged; unique ids stay unique |
| ChatView.ChatWindow.MessagesRead | apps/client/src/components/Chat.tsx:181-192 | only a receipt `{senderId: me, receiverId: partner}` applies; the length is kept and no message becomes unread |
| ChatView.ChatWindow.SendMessage | apps/client/src/components/Chat.tsx:210-241 | Sending is a no-op when the sender, the partner or the socket is missing, or the trimmed draft is empty. Otherwise the draft is cleared and the trimmed text is appended as unread. For a fresh id the list becomes the old list plus that message, whose status is sent, or error when the emit throws |
| ChatLinks.RenderContent | apps/client/src/components/Chat.tsx:243-261 | one shown piece per piece of the split |
| ChatLinks.SplitFromConcat | apps/client/src/components/Chat.tsx:245 | the pieces of `split(urlRegex)` put the text back together |
| ChatLinks.SplitFromAlternating | apps/client/src/components/Chat.tsx:245-247 | The pieces alternate between text that holds no URL and whole URL matches. There is an odd number of pieces |
| ChatLinks.UrlShape | apps/client/src/components/Chat.tsx:244 | a whole match starts with `http://` or `https://` and holds no white space |
| ChatLinks.RenderContentSound | apps/client/src/components/Chat.tsx:243-261 | The shown pieces concatenate to the text, and each shows its own piece. Links sit at exactly the odd positions. Every link starts with `http://` or `https://` and holds no white space |
| UnreadCounts.CountOf | apps/client/src/components/Rooms.tsx:44 | a missing count reads as 0 |
| RoomsView.ProcessRooms | apps/client/src/components/Rooms.tsx:42-51 | Rooms keep their number and order. Each badge is the table's count for the employer id, or 0. The name is the employer's username when it is not empty, and "Unknown Employer" exactly when there is no usable username. The avatar is the employer's avatar URL when it is not empty, and none otherwise |
| RoomsView.BumpRooms | apps/client/src/components/Rooms.tsx:67-85 | rooms whose employer is the sender gain exactly one unread message; other rooms and all other fields are unchanged |
| RoomsView.LastMatching | apps/client/src/components/Rooms.tsx:68-76 | gives the last room of the sender, or nothing exactly when the sender has no room |
| RoomsView.ReceiveOverwritesCount | apps/client/src/components/Rooms.tsx:73-76 | The sender's entry in the table is overwritten with a room's new badge value, not incremented. No other key changes, and the table is untouched when the sender has no room |
| RoomsView.ResetRooms | apps/client/src/components/Rooms.tsx:91-107 | the sender's rooms drop to 0; other rooms and fields are unchanged |
| RoomsView.ReadIdempotent | apps/client/src/components/Rooms.tsx:89-108 | applying a read event twice equals applying it once, for the rooms and for the table |
| RoomsView.ClearRoom | apps/client/src/components/Rooms.tsx:128-137 | only rooms with that room id drop to 0; nothing else changes |
| RoomsView.Decimal | apps/client/src/components/Rooms.tsx:246-248 | a count is written as a nonempty run of decimal digits, one digit exactly below 10 |
| RoomsView.DecimalRoundTrip | apps/client/src/components/Rooms.tsx:246-248 | reading the written digits back gives the count |
| RoomsView.Badge | apps/client/src/components/Rooms.tsx:244-249 | a badge is shown exactly when the count is positive. It reads "99+" above 99, and otherwise the count itself in at most two digits |
| RoomsView.RoomsDialog.constructor | apps/client/src/components/Rooms.tsx:28-34 | the dialog starts with no rooms, no partner, the chat closed and the shared table |
| RoomsView.RoomsDialog.LoadRooms | apps/client/src/components/Rooms.tsx:37-58 | when open for a freelancer and the fetch succeeds, the list becomes the processed rooms; otherwise it is kept |
| RoomsView.RoomsDialog.ReceiveMessage | apps/client/src/components/Rooms.tsx:64-87 | With a signed-in freelancer, the loop over the rooms bumps the sender's rooms, and the table ends with the last matching room's new value. Without a freelancer id, or for messages not addressed to the freelancer, nothing changes |
| RoomsView.RoomsDialog.MessagesRead | apps/client/src/components/Rooms.tsx:64-108 | with a signed-in freelancer, a receipt for the freelancer resets the sender's rooms, and the sender's count when the sender has a room; without a freelancer id, or for any other receipt, nothing changes |
| RoomsView.RoomsDialog.JoinRoom | apps/client/src/components/Rooms.tsx:121-153 | With a socket and a room id, the chat opens with the room's employer. That room drops to 0, and so does the employer's count when the id is truthy. Otherwise nothing changes |
| HomePage.CountsOnReceive | apps/client/src/pages/HomePage.tsx:124-131 | A message addressed to me sets the sender's count to the old value (0 when absent) plus 1. Other messages change nothing. Other keys never change |
| HomePage.CountsOnRead | apps/client/src/pages/HomePage.tsx:135-146 | a receipt addressed to me sets the sender's count to 0 and changes no other key |
| HomePage.CountsAfterAllExact | apps/client/src/pages/HomePage.tsx:124-131 | after any stream of messages, each peer's count is its old count plus the number of those messages it sent to me |
| HomePage.ReadClearsPeer | apps/client/src/pages/HomePage.tsx:139-144 | a read receipt after any stream of messages leaves that peer at 0 |
| HomePage.UsersToShow | apps/client/src/pages/HomePage.tsx:78-91 | a freelancer sees only their own user; anyone else sees the fetched freelancers |
| HomePage.Cards | apps/client/src/pages/HomePage.tsx:297-319 | The cards are the listed users who are not employers, each mapped to its card, in list order and each once: a strictly increasing selection of positions covers every such user. Each card carries its online mark and its unread count (0 when absent). A card can be edited exactly when it is the viewer's own |
| HomePage.CardsComplete | apps/client/src/pages/HomePage.tsx:297-299 | every listed user who is not an employer gets a card |
| HomePage.FreelancerSeesOwnCard | apps/client/src/pages/HomePage.tsx:84-85 | a freelancer's page shows exactly one card, their own, editable |
| HomePage.Page.constructor | apps/client/src/pages/HomePage.tsx:34-52 | all dialogs closed, no selection, empty table and online set |
| HomePage.Page.CountsFetched | apps/client/src/pages/HomePage.tsx:106-118 | the counts fetched on mount replace the table |
| HomePage.Page.ReceiveMessage | apps/client/src/pages/HomePage.tsx:124-131 | the table takes the receive update |
| HomePage.Page.MessagesRead | apps/client/src/pages/HomePage.tsx:135-146 | the table takes the read update |
| HomePage.Page.UserOnline | apps/client/src/pages/HomePage.tsx:165-167 | the id is added; adding an id already present changes nothing |
| HomePage.Page.UserOffline | apps/client/src/pages/HomePage.tsx:169-175 | exactly that id is removed |
| HomePage.Page.OnlineUsers | apps/client/src/pages/HomePage.tsx:177-179 | the set becomes exactly the given ids |
| HomePage.Page.CloseAllModals | apps/client/src/pages/HomePage.tsx:205-211 | all five dialogs are closed |
| HomePage.Page.OpenEdit | apps/client/src/pages/HomePage.tsx:213-217 | exactly one dialog, the edit dialog, is open, with that user selected |
| HomePage.Page.OpenDelete | apps/client/src/pages/HomePage.tsx:219-223 | exactly one dialog, the delete dialog, is open, with that user selected |
| HomePage.Page.OpenView | apps/client/src/pages/HomePage.tsx:225-230 | exactly one dialog, the detail dialog, is open, with that user selected |
| HomePage.Page.OpenChatOrRooms | apps/client/src/pages/HomePage.tsx:239-258 | Exactly one dialog is open. It is the rooms dialog exactly when a freelancer clicks their own card; every other click opens the chat dialog |
| ChatController.SendMessage | apps/api/src/chat/chat.controller.ts:33-76 | A body with no `text` fails before anything else. A body with neither text nor file is a BadRequest, whatever the lookups say. Next a missing sender is NotFound, then a missing receiver. The store is reached exactly when both exist, with the id and file fields unchanged |
| ChatController.UploadText | apps/api/src/chat/chat.controller.ts:126 | an empty or missing text becomes "Sent a file: " and the original name; the stored text is never empty |
| ChatController.UploadFile | apps/api/src/chat/chat.controller.ts:99-136 | Every failure is a BadRequest whose message starts with "File upload failed: ", never a NotFound. This covers a failed upload, a missing sender and a missing receiver. On success the stored message carries the secure URL, the original name and the MIME type |
| ChatController.UploadPassesSendCheck | apps/api/src/chat/chat.controller.ts:42-44 | what a successful upload stores, the send endpoint accepts unchanged |
| ChatController.GetMessages | apps/api/src/chat/chat.controller.ts:140-171 | a conversation with oneself is refused before any lookup; then a missing first user, then a missing second user, is NotFound; the store is reached only for two distinct existing users |
| Cloudinary.TypeName | apps/api/src/cloudinary/cloudinary.service.ts:5 | a resource type name is a nonempty path segment |
| Cloudinary.ResourceTypeOf | apps/api/src/cloudinary/cloudinary.service.ts:81-90 | `image` exactly for the `image/` prefix, `video` for `video/` otherwise, and `raw` for everything else; never `auto` |
| Cloudinary.LastIndexOf | apps/api/src/cloudinary/cloudinary.service.ts:32 | `lastIndexOf` gives a position of the character with none after it, or nothing exactly when the character does not occur |
| Cloudinary.SplitFileName | apps/api/src/cloudinary/cloudinary.service.ts:31-36 | The name and the extension concatenate to the file name. The extension is empty exactly when there is no dot; otherwise it starts with a dot and holds no other |
| Cloudinary.OptionsFor | apps/api/src/cloudinary/cloudinary.service.ts:39-54 | The options put the file in the chat-attachments folder as an attachment with a unique name. The public id plus the extension is the original name, and the original name and MIME type are kept |
| Cloudinary.FirstIndexOf | apps/api/src/cloudinary/cloudinary.service.ts:62 | `findIndex` gives the first position of the segment, or nothing exactly when it is absent |
| Cloudinary.Rewrite | apps/api/src/cloudinary/cloudinary.service.ts:58-74 | The URL is unchanged for images and for URLs without an `upload` segment. Otherwise the type is inserted, and a nonempty extension is appended unless the URL already ends with it. The result always ends with the extension |
| Cloudinary.InsertedSegments | apps/api/src/cloudinary/cloudinary.service.ts:61-67 | The rewritten URL has exactly one more segment, the type name, placed just before the first `upload` segment. All other segments keep their order, and removing the new segment gives the URL back |
| Cloudinary.UploadFile | apps/api/src/cloudinary/cloudinary.service.ts:26-79 | The options are those of the file, and a host error is passed on. Otherwise the loop that finds `upload`, the splice and the extension append give exactly the rewritten URL |
| SkillsService.IndexOf | apps/api/src/skills/skills.service.ts:55-57 | gives the first skill with that id owned by that user, or nothing exactly when there is none |
| SkillsService.Assign | apps/api/src/skills/skills.service.ts:72 | exactly the fields present in the changes are overwritten; id and owner are kept; no changes, no difference |
| SkillsService.AssignIdempotent | apps/api/src/skills/skills.service.ts:72 | applying the same changes twice equals applying them once |
| SkillsService.OwnerIds | apps/api/src/skills/skills.service.ts:105-112 | the owner ids, in order of first appearance, have no repeats |
| SkillsService.LastOwner | apps/api/src/skills/skills.service.ts:105-110 | the owner found for an id has that id |
| SkillsService.OwnerIdsCover | apps/api/src/skills/skills.service.ts:105-112 | an id is listed exactly when some skill has an owner with that id |
| SkillsService.Owned | apps/api/src/skills/skills.service.ts:51 | the user's skills are exactly the table's skills owned by that user |
| SkillsService.Service.constructor | apps/api/src/skills/skills.service.ts:16-20 | the service starts over the given table |
| SkillsService.Service.Create | apps/api/src/skills/skills.service.ts:31-48 | A missing user is NotFound('User not found'), and a user who is not a freelancer is a BadRequest; neither changes the table. Otherwise the new skill carries the request's fields, is owned by that user, and is appended |
| SkillsService.Service.FindAll | apps/api/src/skills/skills.service.ts:50-52 | the result holds exactly the user's skills |
| SkillsService.Service.FindOne | apps/api/src/skills/skills.service.ts:54-64 | a skill is found exactly when one with that id belongs to that user; otherwise NotFound with the id and user in the message |
| SkillsService.Service.Update | apps/api/src/skills/skills.service.ts:66-74 | a lookup failure is passed on with the table unchanged; otherwise exactly that entry gets the changes |
| SkillsService.Service.Remove | apps/api/src/skills/skills.service.ts:76-79 | a lookup failure is passed on with the table unchanged; otherwise exactly that entry is removed |
| SkillsService.SearchUsersBySkill | apps/api/src/skills/skills.service.ts:105-112 | The owners come with no repeated ids, in order of first appearance. Each is the owner object of the last matching skill with that id. Every owned skill's owner is present, and ownerless skills are skipped |
| UserDto.RoleOf | apps/api/src/users/dto/create-user-service.dto.ts:30-31 | a role is accepted exactly when it is "freelancer" or "employer" |
| UserDto.PatternIsPolicy | apps/api/src/users/dto/create-user-service.dto.ts:39-45 | The regular expression, lookaheads and all, accepts exactly the passwords of the policy: at least 8 characters, each a letter, a digit or a listed special character, with one of each kind |
| UserDto.RejectedCharacters | apps/api/src/users/dto/create-user-service.dto.ts:40 | a space, `-` or `=` anywhere rejects the password |
| UserDto.ExamplePasswordAccepted | apps/api/src/users/dto/create-user-service.dto.ts:34-40 | the documented example password is accepted |
| UserDto.ServiceValidMeans | apps/api/src/users/dto/create-user-service.dto.ts:30-71 | A valid body has one of the two roles and a password of the policy. Its image URLs, when given, are strings, and `isAdmin` is missing or boolean |
| UserDto.SamePasswordRules | apps/api/src/users/dto/create-user-controller.dto.ts:46-55 | both variants demand the same password rules, which are the policy |
| UserDto.ServiceValidIsControllerValid | apps/api/src/users/dto/create-user-controller.dto.ts:62-64 | every body the service variant accepts the controller variant accepts |
| UserDto.ControllerAcceptsMore | apps/api/src/users/dto/create-user-controller.dto.ts:62-64 | an image-URL array holding a non-string passes the controller variant only |
| UserDto.EffectiveIsAdmin | apps/api/src/users/dto/create-user-service.dto.ts:69-71 | a missing `isAdmin` is false by default; a given boolean is kept |
| FilePreview.FileIcon | apps/client/src/components/chat/FilePreview.tsx:36-41 | An `image/` type gets the blue image icon, even when other tests would match. `application/pdf` gets the red text icon and `text/` the green one. The gray file icon (`text-gray-500`) is used exactly when none of these applies |
| FilePreview.BorderClass | apps/client/src/components/chat/FilePreview.tsx:44-49 | the border is one of the four colour classes |
| FilePreview.BorderMatchesIcon | apps/client/src/components/chat/FilePreview.tsx:36-49 | the border and the icon always belong to the same colour family |
| FilePreview.UpperChar | apps/client/src/components/chat/FilePreview.tsx:77 | a lower-case ASCII letter becomes its capital; every other character is kept |
| FilePreview.Upper | apps/client/src/components/chat/FilePreview.tsx:77 | Upper-casing keeps the length and leaves no lower-case ASCII letter. Each such letter becomes its capital, and every other character is kept |
| FilePreview.SubtypeLabel | apps/client/src/components/chat/FilePreview.tsx:77 | The label is "FILE" when there is no `/` or the part after the first `/` is empty. Otherwise it is that part, up to the next `/`, upper-cased. It is never empty |
| FilePreview.LabelOfMimeType | apps/client/src/components/chat/FilePreview.tsx:77 | for `type/subtype` the label is the upper-cased subtype, or "FILE" when it is empty |
| FilePreview.StartPreview | apps/client/src/components/chat/FilePreview.tsx:13-33 | A data-URL read starts exactly for `image/` types. It leaves the component's state as it was, with neither the old data URL nor the loading flag reset. Any other type stops loading at once and keeps the old data URL |
| FilePreview.ReadFinished | apps/client/src/components/chat/FilePreview.tsx:19-22 | a finished read holds the data URL and stops loading |
| FilePreview.ThumbnailOf | apps/client/src/components/chat/FilePreview.tsx:56-66 | a spinner exactly while loading; otherwise the data URL for an image type with a nonempty preview, and the file's icon in every other case |
| FilePreview.NonImageShowsIcon | apps/client/src/components/chat/FilePreview.tsx:24-26 | a file that is not an image shows its icon as soon as it is set, whatever was shown before |
| FilePreview.ImageShowsPreview | apps/client/src/components/chat/FilePreview.tsx:10-23 | the first file, when it is an image, shows a spinner until its read finishes, and then its data URL |
| FilePreview.LaterImageShowsOldState | apps/client/src/components/chat/FilePreview.tsx:13-33 | Until its own read finishes, a later image never shows a spinner. It shows the earlier image's data URL when an image was read before. It shows its icon when the earlier file was not an image |

## Left out

- Socket subscription and emission are not modelled; events are inputs to the handlers. This covers the `markAsRead` emits in Chat.tsx, the `joinRoom` and `markMessagesAsRead` emits in Rooms.tsx, and `requestOnlineUsers`. The client emits `markAsRead` (Chat.tsx:129) where the rooms dialog emits `markMessagesAsRead` (Rooms.tsx:148); which of these the server handles is outside the model.
- The chat gateway and chat service are not part of this model: registry, fan-out, presence and unread aggregation. This includes `getUnreadCounts` and `getActiveChats` (chat.controller.ts:173-188), which only delegate to the chat service.
- React rendering and effects are not modelled: subscription wiring, focus and blur, `localStorage`, scrolling, typing timers, loading flags and the search-result phrase.
- Chat history loading and room creation (Chat.tsx:63-134) are not modelled: they are HTTP calls whose results only replace the list.
- Date formatting with date-fns is a foreign library, so `ChatView.GroupByDate` takes the date key as a function parameter. Timestamps are integers.
- `unreadCountsAtom.ts` is not part of this model: the shared count table is taken to start empty. `RoomsView.RoomsDialog` and `HomePage.Page` each keep their own copy of the shared count table. When both pages are mounted, the same socket event updates the table twice, once from each handler; that interleaving is not modelled.
- The home page's listeners exist only with a signed-in user and a socket, and the online-set listeners only for employers. The model's methods are those listeners, called under these conditions.
- The file size in KB (FilePreview.tsx:75) is floating-point division with `toFixed`, so it is not modelled.
- `FilePreview.Upper`: `toUpperCase` is modelled on ASCII letters only. Other characters are kept as they are, although JavaScript also upper-cases non-ASCII letters and may change the length (`ß` becomes `SS`).
- The media-host and Firebase SDK calls are not modelled. Their outcome, a secure URL or an error message, is a parameter. `uploadImage` (cloudinary.service.ts:17-24) is a bare SDK call and is not modelled. When the host answers with neither error nor result, the controller's read of `secure_url` fails; that case is not modelled.
- TypeORM is not modelled:
  - the search query (skills.service.ts:83-101): the matched skills are a parameter of `SkillsService.SearchUsersBySkill`;
  - `getAllSkills` (skills.service.ts:23-28);
  - the generated ids, which are parameters;
  - the entities.
- `SkillsService.Assign` models only the four skill fields. The validation pipe has no whitelist (main.ts:16), so an update body can carry any other key, and `Object.assign` would copy it too.
- The user lookups of the controller and the skills service are not modelled. They are taken to return a user or nothing; errors they might throw themselves are not modelled.
- `ChatController.SendMessage`: store failures are passed through as a parameter. A missing `text` fails with the JavaScript TypeError message, reported as a server error.
- `UserDto.ServiceValid`, `UserDto.ControllerValid`: `IsEmail` is library-defined and is a parameter of the validity predicates.
- The nested skill objects are only required to be objects; the rules of `SkillDto` and of the `Skill` entity they are checked against are not modelled. `user-role.enum.ts` is not part of this model: the role names are taken as "freelancer" and "employer", the strings the services and pages compare against.
- The error messages of class-validator are not modelled; validity is a predicate.
- `SkillShareAPI.ts`, `send-message.dto.ts` and the configuration and wiring files are not modelled.
