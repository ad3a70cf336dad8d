# Campus Conecto in Dafny

Campus Conecto is a student social network. It has an Express server over
MongoDB, with Socket.IO for live events, and a React front end. This project
models the rules at its core and proves properties about them:

- the server's route handlers:
  - registration, login and profile merge;
  - the symmetric friend relation;
  - the one-time-code password reset;
  - posts with owner checks;
  - conversations;
  - upload naming and download headers;
  - the CORS allow-list and the `/api` gate;
- the browser's route guards, API client, feed hook, and the state logic of
  each page (home, resources, friend finder, find friends, messages, signup,
  profile and login).

How the model is built:

- Each MongoDB collection is a class in `Stores` that holds a `map` or a
  `seq`. Every Mongoose call a handler makes (`findOne`, `findById`,
  `save`, `create`, `deleteMany`, `deleteOne`) is one method on that class.
- Socket.IO emits and sent mail are logs that the methods append to.
- A route handler is a method over those objects. Its `ensures` gives the
  reply and the new state for every branch of the code, error cases
  included.
- Page state is a class with one field per React state variable. Each
  handler or effect is a method.
- A pure expression in the source is a function. Its properties are lemmas
  beside it.
- Everything the code does not decide is a parameter. This covers answers
  from the server seen by the browser, from the image host, from the mail
  provider, from `Math.random()` and from `Date.now()`.

The model follows the code wherever the code does something unexpected:

- The server never emits `friendAdded`. The browser listens for it
  (`UseFeed.FeedState.OnFriendAdded`, `FindFriendsPage.FindFriends.OnFriendAdded`),
  but the add-friend handler only sends `notification` events.
- The `cors()` middleware answers every OPTIONS request itself with 204.
  The `/api` gate's own 200 answer to OPTIONS therefore never reaches a
  client (`Server.PreflightNotLimited`).
- The three password-reset routes all run the same handler
  (`UserRoutes.ResetPassword`). The two send-code routes do too
  (`UserRoutes.SendOtp`).
- `userController.updateProfile` assigns `education`. That is not a schema
  path, so Mongoose's strict mode keeps it out of the stored record, and the
  model's user has no such field. The assignment still sits on the document
  that `save()` resolves to, so a truthy `education` in the request comes
  back in the reply (`UserController.Echoed`).
- The profile avatar's initials take `n[0]`, one UTF-16 code unit. A
  word that starts above U+FFFF contributes a lone high surrogate
  (`ProfilePage.InitialsAstral`).
- The one-time-code collection is queried with the email exactly as
  submitted. The user collection lower-cases it first.
- The download route puts the file name into `Content-Disposition`
  unescaped (`UploadRoutes.DownloadFile`). The escaped form is the separate
  `UploadRoutes.DownloadFileCorrected` (see "## Findings").
- A login or controller registration without a password is answered 500,
  because bcrypt rejects a missing argument (`UserRoutes.Login`,
  `UserController.LoginUser`, `UserController.RegisterUser`).

The modules, one file each:

| module | source |
|---|---|
| Strings, Seqs | string and list helpers with JavaScript semantics (ASCII case mapping, `trim`, `includes`, `split` and logical or) |
| Models | server/models/user.js, server/models/post.js |
| Stores | the collections and the event and mail logs |
| FriendGraph, UserRoutes | server/routes/userRoutes.js |
| UserController | server/controllers/userController.js |
| PostRoutes | server/routes/postRoutes.js |
| MessageRoutes | server/routes/messageRoutes.js |
| UploadRoutes | server/routes/uploadRoutes.js |
| Server | server/server.js |
| Browser, AppRoutes | storage reads and frontend/src/App.js |
| ApiService | frontend/src/services/apiService.js |
| UseFeed | frontend/src/hooks/useFeed.js |
| HomePage | frontend/src/pages/HomePage.jsx |
| ResourcesPage | frontend/src/pages/ResourcesPage.jsx |
| FriendsFinder | frontend/src/components/FriendsFinder.jsx |
| FindFriendsPage | frontend/src/pages/FindFriendsPage.jsx |
| MessagesPage | frontend/src/pages/MessagesPage.jsx |
| SignupPage | frontend/src/pages/SignupPage.jsx |
| ProfilePage | frontend/src/pages/ProfilePage.jsx |
| LoginPage | frontend/src/pages/LoginPage.jsx |

## Model

| member | source | states |
|---|---|---|
| Strings.Lower | frontend/src/pages/ResourcesPage.jsx:4 | `toLowerCase` keeps the length and maps each character on its own |
| Strings.Upper | frontend/src/pages/ProfilePage.jsx:56-59 | `toUpperCase` keeps the length and maps each character on its own |
| Strings.LowerIdempotent | frontend/src/components/FriendsFinder.jsx:23 | lower-casing twice is lower-casing once |
| Strings.TrimStart | frontend/src/pages/HomePage.jsx:18 | drops exactly the leading white space: the result is a suffix that starts with no space, and only spaces were dropped |
| Strings.TrimEnd | frontend/src/pages/HomePage.jsx:18 | drops exactly the trailing white space: the result is a prefix that ends with no space, and only spaces were dropped |
| Strings.TrimSpec | frontend/src/pages/HomePage.jsx:18 | `trim` returns the slice between the first and the last non-space character, and "" when there is none |
| Strings.TrimIdempotent | frontend/src/pages/MessagesPage.jsx:85 | trimming twice is trimming once |
| Strings.TrimLowerCommute | frontend/src/components/FriendsFinder.jsx:23 | `trim().toLowerCase()` equals `toLowerCase().trim()` |
| Strings.ContainsAt | frontend/src/pages/ResourcesPage.jsx:100-102 | `includes(q)` holds exactly when q occurs at some position |
| Strings.ContainsEmpty | frontend/src/pages/SignupPage.jsx:129 | every string includes "" |
| Strings.BeforeFirst | server/routes/uploadRoutes.js:95 | `split(c)[0]` is the longest prefix without c, and the character after it is c |
| Strings.BeforeFirstAppend | server/routes/uploadRoutes.js:95 | the first piece of a + c + rest is a when a holds no c |
| Strings.SplitOn | frontend/src/pages/ProfilePage.jsx:57 | `split(c)` gives at least one piece, the first is the prefix before c, and no piece holds c |
| Strings.AfterLast | frontend/src/pages/ResourcesPage.jsx:8 | `split(c).pop()` is the longest suffix without c, and the character before it is c |
| Strings.StripTrailing | frontend/src/services/apiService.js:6 | `replace(/c+$/, '')` is a prefix that does not end with c, and only c characters were removed |
| Strings.ReplaceFirstAbsent | frontend/src/services/apiService.js:5 | `replace(p, t)` changes nothing when p does not occur |
| Strings.ReplaceFirstAtStart | frontend/src/services/apiService.js:5 | `replace(p, t)` on a string that starts with p swaps that prefix for t |
| Strings.Digit | server/routes/userRoutes.js:282 | every digit value gives a decimal digit character |
| Strings.Show | server/routes/userRoutes.js:282 | `toString()` of a natural number is a non-empty string of decimal digits |
| Strings.ParseShow | server/routes/userRoutes.js:282 | reading back a number's decimal string gives the number |
| Strings.ShowInjective | server/routes/userRoutes.js:282 | different numbers have different decimal strings |
| Strings.ShowSixDigits | server/routes/userRoutes.js:282 | a number in [100000, 999999] has six digits |
| Seqs.Reverse | server/routes/postRoutes.js:66 | the reversed list has the same length, with position i holding the element i places from the end |
| Seqs.Take | server/routes/postRoutes.js:76 | `limit(n)` and `slice(0, n)` give the first min(n, length) elements |
| Seqs.Filter | frontend/src/pages/ResourcesPage.jsx:98-103 | `filter` keeps only elements that pass, and every element that passes is kept |
| Seqs.FilterAppend | frontend/src/pages/ResourcesPage.jsx:98-103 | filtering distributes over concatenation, so it keeps the original order |
| Seqs.FilterAll | frontend/src/pages/ResourcesPage.jsx:98-103 | a filter that every element passes returns the list unchanged |
| Seqs.FilterAscending | server/routes/postRoutes.js:66 | a filtered ascending list stays ascending |
| Seqs.ReverseAscending | server/routes/postRoutes.js:66 | reversing an ascending list gives a descending one |
| Seqs.TakeDescending | server/routes/postRoutes.js:76 | a prefix of a descending list is descending |
| Seqs.FilterSkip | server/routes/postRoutes.js:123 | filtering out exactly one position removes only that element |
| Models.HashThenCompare | server/routes/userRoutes.js:59-60 | comparing a password with bcrypt's hash of another succeeds exactly when they are equal, whatever the salt |
| Models.NormalizeIdempotent | server/models/user.js:6-7 | the `trim`/`lowercase` setters of username and email give the same value when applied twice |
| Models.NewUserDefaults | server/models/user.js:5-22 | a new user's profile strings are "", subjects, username and friends are empty, `profileImageUrl` is null, `profileCreated` is false, email is lower-cased and `fullName` trimmed |
| Models.NewPostDefaults | server/models/post.js:3-12 | with no text and no file, a new post has text "" and no image, and keeps its owner and author email |
| Stores.IndexesKept | server/models/user.js:6-7 | a change that keeps every key, email and username keeps the unique email and sparse username indexes |
| Stores.UserDb.constructor | server/models/user.js:3-29 | the user collection starts empty |
| Stores.UserDb.FindByEmail | server/routes/userRoutes.js:55 | `User.findOne({ email })` finds a user whose email equals the lower-cased query, and finds none exactly when no user has it |
| Stores.UserDb.FindByUsername | server/routes/userRoutes.js:138 | `User.findOne({ username })` finds a user whose username is the trimmed, lower-cased query, and finds none exactly when no user has it |
| Stores.UserDb.Create | server/routes/userRoutes.js:63-73 | saving a new user stores it under a fresh id and changes no other record |
| Stores.UserDb.Save | server/routes/userRoutes.js:220-221 | `save()` replaces exactly that one record |
| Stores.WithoutEmail | server/routes/userRoutes.js:279-280 | `OTP.deleteMany({ email })` keeps exactly the records of other emails |
| Stores.CodesFor | server/routes/userRoutes.js:357 | the codes stored for an email are exactly those in its records |
| Stores.CodesForAppend | server/routes/userRoutes.js:279-284 | the codes of two record lists in a row are the codes of each, in order |
| Stores.ReplaceCodes | server/routes/userRoutes.js:279-284 | deleting an email's codes and then storing one leaves exactly that code, and every other email keeps its codes |
| Stores.NoCodesLeft | server/routes/userRoutes.js:392 | after `deleteMany` the email has no code left |
| Stores.WithoutOtherEmail | server/routes/userRoutes.js:392 | deleting one email's codes leaves every other email's codes as they were |
| Stores.OtpDb.constructor | server/routes/userRoutes.js:279-284 | the code collection starts empty |
| Stores.OtpDb.DeleteMany | server/routes/userRoutes.js:279-280 | the records left are exactly those of other emails |
| Stores.OtpDb.Create | server/routes/userRoutes.js:283-284 | one record is appended |
| Stores.OtpDb.FindOne | server/routes/userRoutes.js:357 | finds a record exactly when that (email, code) pair is stored |
| Stores.PostDb.constructor | server/models/post.js:3-12 | the post collection starts empty |
| Stores.PostDb.FindById | server/routes/postRoutes.js:88 | `findById` gives the position of the post with that id, and gives none exactly when no post has it |
| Stores.PostDb.Create | server/routes/postRoutes.js:48-54 | appends one post with a fresh id and a later timestamp than every stored post |
| Stores.PostDb.SetText | server/routes/postRoutes.js:99-100 | changes only the text of that one post |
| Stores.PostDb.DeleteAt | server/routes/postRoutes.js:123 | removes exactly that position and keeps the others in order |
| Stores.MessageDb.constructor | server/routes/messageRoutes.js:26-30 | the message collection starts empty |
| Stores.MessageDb.Create | server/routes/messageRoutes.js:26-30 | appends one message with the given sender, recipient and text, stamped later than every stored message |
| Stores.Relay.constructor | server/server.js:60-73 | no socket is in a room and nothing has been emitted |
| Stores.Relay.Emit | server/routes/messageRoutes.js:36-40 | `io.to(room).emit` appends one event to the log and leaves room membership alone |
| Stores.Relay.Join | server/server.js:136 | `socket.join(room)` adds that room to that socket's set and emits nothing |
| Stores.Mailer.constructor | server/routes/userRoutes.js:74-79 | no mail has been sent |
| Stores.Mailer.Send | server/routes/userRoutes.js:74-79 | appends one mail to the outbox |
| FriendGraph.AddIfAbsent | server/routes/userRoutes.js:217-218 | `if (!includes(x)) push(x)` adds x to the members, never duplicates, and keeps the old list as a prefix |
| FriendGraph.Remove | server/routes/userRoutes.js:244-245 | `filter(id => id !== x)` keeps exactly the members other than x and never adds a duplicate |
| FriendGraph.RemoveAbsent | server/routes/userRoutes.js:244-245 | filtering out an absent id changes nothing |
| FriendGraph.RemoveAppend | server/routes/userRoutes.js:244-245 | filtering distributes over concatenation |
| FriendGraph.RemoveAt | server/routes/userRoutes.js:244-245 | in a list without duplicates, filtering out one entry drops that one position and keeps the others in order |
| FriendGraph.BefriendWellFormed | server/routes/userRoutes.js:217-221 | a successful add keeps the relation symmetric, duplicate-free, self-free and pointing only at stored users |
| FriendGraph.BefriendLinks | server/routes/userRoutes.js:217-221 | after an add each user lists the other; no other record or field changes; both old lists survive as prefixes |
| FriendGraph.BefriendIdempotent | server/routes/userRoutes.js:217-218 | adding the same pair again changes nothing |
| FriendGraph.UnfriendWellFormed | server/routes/userRoutes.js:244-248 | a successful remove keeps the same invariant |
| FriendGraph.UnfriendSeparates | server/routes/userRoutes.js:244-248 | after a remove neither user lists the other; each list loses only that id; no other record changes |
| FriendGraph.UnfriendKeepsOrder | server/routes/userRoutes.js:244-245 | the remover's list loses exactly the friend's position and keeps every other entry in order |
| FriendGraph.UnfriendAfterBefriend | server/routes/userRoutes.js:207-261 | removing two users who were not friends, right after adding them, restores the user map |
| FriendGraph.InsertLonely | server/routes/userRoutes.js:63-73 | registering a user with no friends keeps the invariant |
| FriendGraph.SaveKeepsFriends | server/routes/userRoutes.js:388-389 | saving a record whose friends list is unchanged keeps the invariant |
| UserRoutes.IsEmailNonEmpty | server/routes/userRoutes.js:45 | an address that passes the `isEmail` check is non-empty after lower-casing, so the required check on `email` never fails |
| UserRoutes.Register | server/routes/userRoutes.js:37-96 | invalid input gives 400 "Validation failed"; an existing email gives 400 "User already exists"; a name that trims to "" gives 500. In those cases nothing is stored and no mail is sent. Otherwise it replies 201 with a token and stores the new user under a fresh id with its defaults, and the welcome mail is logged |
| UserRoutes.Login | server/routes/userRoutes.js:101-125 | replies 200 exactly when a password is given, some user has the lower-cased email and the password matches. An unknown email and a wrong password both give 400 "Invalid email or password". A missing password with a known email makes `bcrypt.compare` reject, and the catch gives 500. The store is untouched |
| UserRoutes.MergeProfileKeeps | server/routes/userRoutes.js:145-149 | the merge sets `profileCreated`, replaces username, college, bio and image only with truthy values, and keeps every other field |
| UserRoutes.KeepOwnUsername | server/routes/userRoutes.js:137-143 | asking again for the username one already holds is never a clash |
| UserRoutes.UpdateProfile | server/routes/userRoutes.js:130-161 | a missing user gives 404; a username held by a different user gives 400 and nothing changes; every other request replies 200 with the merged record, which is the only change to the store |
| UserRoutes.FriendRequestError | server/routes/userRoutes.js:210-215 | a friend request passes the checks exactly when the id is given, is not the requester, and both users exist |
| UserRoutes.FriendRequestErrors | server/routes/userRoutes.js:210-215 | a missing id gives 400 "friendId required"; one's own id gives 400; an unknown target gives 404 "Friend not found" |
| UserRoutes.AddFriend | server/routes/userRoutes.js:207-230 | a failed check changes nothing and emits nothing. A success makes the pair friends, replies 200 with the requester's list, and emits exactly one notification to the target's room and then one to the requester's |
| UserRoutes.RemoveFriend | server/routes/userRoutes.js:233-261 | a failed check changes nothing and emits nothing. A success separates the pair, replies 200, and emits exactly one notification to each room |
| UserRoutes.OtpCodeShape | server/routes/userRoutes.js:282 | every code is the six-digit string of a number in [100000, 999999] |
| UserRoutes.SendOtp | server/routes/userRoutes.js:266-304 | an invalid email gives 400 and an unknown user 404, with no code stored and no mail sent. Otherwise the earlier codes of that email are deleted and exactly one new code is stored. Then either dev mode replies 200 without mail, or the mail is logged and the reply depends on delivery (200 or 500) |
| UserRoutes.SendOtpLeavesOneCode | server/routes/userRoutes.js:279-284 | after a send that found the user, exactly one code is stored for the email and every other email keeps its codes |
| UserRoutes.VerifyOtp | server/routes/userRoutes.js:348-365 | replies 200 exactly when the (email, code) pair is stored, and never removes it |
| UserRoutes.WithPassword | server/routes/userRoutes.js:387-389 | replacing a hash keeps the set of users |
| UserRoutes.ResetPassword | server/routes/userRoutes.js:370-400 | an invalid request gives 400 "Validation failed", a pair that is not stored gives 400 "Invalid or expired OTP", and an unknown user gives 404; none of these changes the password or the codes. A success replaces the hash and deletes every code of the email, so replaying the code fails |
| UserRoutes.ResetCodeIsSingleUse | server/routes/userRoutes.js:381-392 | after a successful reset, replaying the same code gets 400 "Invalid or expired OTP" and the new password stays |
| UserRoutes.ResetThenLogin | server/routes/userRoutes.js:381-394 | after a reset the new password logs in, the old one no longer does, and no other account changes |
| UserController.RegisterUser | server/controllers/userController.js:14-42 | an existing email gives 400 "User already exists" and stores nothing. A missing password gives 500 from the rejected `bcrypt.hash` and stores nothing. A missing or blank name, or an empty email, gives 500 with Mongoose's required-path message and stores nothing. Otherwise it replies 201 with a token and stores the hashed new user under a fresh id |
| UserController.LoginUser | server/controllers/userController.js:47-66 | succeeds exactly when a password is given, the user exists and the password matches. A missing password with a known email gives 500 from the rejected compare; every other case gives the same 400 error |
| UserController.MergeKeeps | server/controllers/userController.js:79-86 | falsy `fullName` and `bio` keep the stored values; the image changes only when given; `profileCreated` ends true; nothing else changes |
| UserController.MergesAgree | server/controllers/userController.js:79-84 | on `bio` and the image the controller's merge agrees with the route's |
| UserController.UpdateProfile | server/controllers/userController.js:71-102 | a missing user gives 404 with no change; a merged name that is empty gives 500 with no change; otherwise the merged record is saved and returned with `profileCreated` true, and the reply echoes a truthy request `education`, which is never stored |
| UserController.Echoed | server/controllers/userController.js:81 | the reply's `education` is present exactly when the request's is truthy, and then equals it |
| UserController.StoresKeepIndexes | server/controllers/userController.js:88 | saving a record with the same email and username keeps both unique indexes |
| PostRoutes.Create | server/routes/postRoutes.js:27-61 | a failed image upload, or a missing owner or author email, gives 500 and stores nothing. Otherwise it stores one post owned by the requester: text defaults to "", the image is the upload's URL or null, and unparsable attachments become []. It replies 201 with that post |
| PostRoutes.CreateDefaults | server/routes/postRoutes.js:29-52 | no text gives "", no file gives a null image, and malformed attachment JSON gives an empty list |
| PostRoutes.MyPosts | server/routes/postRoutes.js:64-71 | GET /me returns the requester's posts, newest first |
| PostRoutes.MyPostsSpec | server/routes/postRoutes.js:66 | those posts are exactly the requester's, and they are sorted by creation time, newest first |
| PostRoutes.Feed | server/routes/postRoutes.js:74-81 | GET /feed returns the newest posts first, at most fifty |
| PostRoutes.FeedSpec | server/routes/postRoutes.js:76 | the feed holds at most 50 posts, sorted newest first, and every left-out post is older than every post shown |
| PostRoutes.Update | server/routes/postRoutes.js:86-107 | a missing id gives 404 and a non-owner gives 401, both with the store untouched; the owner's update replaces the text only when the new text is truthy |
| PostRoutes.UpdateOnlyText | server/routes/postRoutes.js:99 | a successful update changes only that post's text, and an empty new text keeps the old one |
| PostRoutes.Delete | server/routes/postRoutes.js:110-130 | a missing id gives 404 and a non-owner gives 401, both with the store untouched; the owner's delete removes that post and replies "Post removed" |
| PostRoutes.DeleteExactlyOne | server/routes/postRoutes.js:123 | with unique ids, the delete removes exactly the post with that id and keeps every other post in order |
| MessageRoutes.Conversation | server/routes/messageRoutes.js:9-21 | GET /:friendId returns the messages between the two users, newest first |
| MessageRoutes.ConversationSpec | server/routes/messageRoutes.js:11-16 | the conversation holds exactly the messages from me to the friend and from the friend to me, sorted newest first |
| MessageRoutes.ConversationSymmetric | server/routes/messageRoutes.js:11-15 | both participants see the same conversation |
| MessageRoutes.Send | server/routes/messageRoutes.js:24-53 | stores one message from the requester to the route's id with the body text, and does not check the recipient. It emits `newMessage` to the recipient's room, then emits `notification` only when the sender's record exists |
| UploadRoutes.Sanitize | server/routes/uploadRoutes.js:16 | works in UTF-16 code units, as the JavaScript regular expression does: every code unit outside `[A-Za-z0-9._-]` becomes `_`, so a character outside the Basic Multilingual Plane becomes two. The others are kept, the output length equals the input's UTF-16 length, and only allowed characters come out |
| UploadRoutes.SanitizeAstral | server/routes/uploadRoutes.js:16 | an emoji, which takes two UTF-16 code units, becomes `__` |
| UploadRoutes.SanitizeIdempotent | server/routes/uploadRoutes.js:16 | a string of allowed characters is unchanged, so sanitising twice is sanitising once |
| UploadRoutes.SafeEmail | server/routes/uploadRoutes.js:33-34 | the folder part is non-empty and uses only allowed characters (it is "user" when there is no email) |
| UploadRoutes.ProfileImage | server/routes/uploadRoutes.js:19-76 | no file gives 400 "No file uploaded", and a non-image mimetype gives 400, both before any upload starts. Otherwise the upload goes to `profile-images/` + the sanitised email with id `profile_` + the time, and the reply is 201 with the URL or 500 |
| UploadRoutes.ResourceId | server/routes/uploadRoutes.js:95 | the public id is `sanitize` of the name up to the first '.', so it holds neither '.' nor a forbidden character, and is no longer than the name when every character is in the Basic Multilingual Plane |
| UploadRoutes.Resource | server/routes/uploadRoutes.js:79-129 | a missing file gives 400, and any other file is uploaded to `resources/` + the sanitised email with the sanitised public id. The reply is 201 with the original name and URL, or 500 |
| UploadRoutes.ResourceIgnoresType | server/routes/uploadRoutes.js:29-31 | a file the image route refuses for its type is still accepted by the resource route |
| UploadRoutes.Basename | server/routes/uploadRoutes.js:140 | `path.basename` is the last segment once trailing slashes are stripped: a slash-free suffix of the stripped path, preceded by a '/' unless it is the whole path |
| UploadRoutes.FileName | server/routes/uploadRoutes.js:140 | the download name is `name` when truthy, else `Basename` of the URL up to the first '?', which holds neither '/' nor '?' |
| UploadRoutes.DispositionAsWritten | server/routes/uploadRoutes.js:143 | the header is `attachment; filename="` + name + `"`, with nothing escaped |
| UploadRoutes.AsWrittenBreaksQuoting | server/routes/uploadRoutes.js:143 | the file name `a"b` gives a header that is not an `attachment` disposition with one quoted-string parameter |
| UploadRoutes.EscapeQuoted | server/routes/uploadRoutes.js:143 | escaping `"` and `\` makes a valid quoted-string (section 3.2.6 of RFC 7230) of any header-safe name |
| UploadRoutes.UnescapeEscape | server/routes/uploadRoutes.js:143 | a recipient reads back exactly the escaped name |
| UploadRoutes.EscapeHeaderSafe | server/routes/uploadRoutes.js:143 | escaping keeps a header-safe name header-safe |
| UploadRoutes.DispositionSpec | server/routes/uploadRoutes.js:143 | with the name escaped, the header is a well-formed `attachment; filename=` value (section 4.1 of RFC 6266), and its parameter reads back as the name |
| UploadRoutes.DownloadFile | server/routes/uploadRoutes.js:132-150 | no `url` gives 400 "Missing url query param"; a failed fetch gives 500 "Failed to proxy download"; a header value Node refuses gives 500 too. Otherwise the reply carries the upstream type (or `application/octet-stream`) and `DispositionAsWritten` of `FileName`, with the name unescaped; that header is well formed exactly when the name is already the inside of a quoted-string |
| UploadRoutes.AsWrittenWellFormed | server/routes/uploadRoutes.js:143 | the unescaped header is well formed exactly when the name is the inside of a quoted-string |
| UploadRoutes.PlainNameQuoted | server/routes/uploadRoutes.js:143 | a name with no `"`, no `\` and only header characters is the inside of a quoted-string, so the route's header is well formed for it |
| UploadRoutes.DownloadFileBreaksQuoting | server/routes/uploadRoutes.js:140-143 | for any URL, the route asked for the name `a"b` sends a header that is not well formed |
| UploadRoutes.DownloadFileCorrected | server/routes/uploadRoutes.js:132-150 | the same replies as the route, except that the name is escaped: every header it sends is well formed and reads back as the name |
| UploadRoutes.EscapePlain | server/routes/uploadRoutes.js:143 | escaping leaves a name with no `"` and no `\` unchanged, so the route and its corrected form send the same header for such names |
| Server.AnyMatches | server/server.js:43 | `some` holds exactly when some pattern matches the origin |
| Server.OriginAllowedSpec | server/server.js:31-47 | an origin is allowed exactly when it is absent or empty, is `http://localhost:3000`, or ends with `.vercel.app` or `.onrender.com` |
| Server.HttpCors | server/server.js:39-47 | the HTTP CORS callback allows exactly the allowed origins and otherwise raises "Not allowed by Express CORS" |
| Server.SocketCors | server/server.js:60-73 | the Socket.IO callback allows exactly the allowed origins and otherwise raises "Not allowed by Socket.io CORS" |
| Server.SameAllowList | server/server.js:43-68 | HTTP and Socket.IO admit the same origins |
| Server.ApiGate | server/server.js:93-96 | the `/api` middleware answers OPTIONS with 200. Otherwise it gives 429 over the limit and passes the request on under it |
| Server.Pipeline | server/server.js:39-54 | a refused origin gives 500 with the CORS message, and an allowed OPTIONS request gets the `cors` preflight 204. Any other request goes through the gate when under `/api`, else straight to the routes |
| Server.PreflightNotLimited | server/server.js:54 | the answer to a preflight does not depend on the rate limiter, and is never the gate's 200 |
| Server.RegisterSocket | server/server.js:135-136 | `register(userId)` joins the room named exactly `userId`, with no authentication. Other sockets' rooms and the event log are unchanged |
| Server.ClientRegisters | frontend/src/hooks/useFeed.js:40-45 | the feed hook's `register` emit met by the server handler of server/server.js:135-136: a client with a stored user id joins exactly that room, and one without joins nothing |
| Browser.Or | frontend/src/App.js:17 | the logical or of two values is truthy when either is, is a when a is truthy, and is b otherwise |
| AppRoutes.IsAuthenticatedSpec | frontend/src/App.js:16-19 | authenticated exactly when the session or the local token is non-empty |
| AppRoutes.IsProfileCreatedSpec | frontend/src/App.js:21-25 | the first truthy `profileCreated` entry, session first, must equal "true"; a session "false" hides a local "true" |
| AppRoutes.CreateProfileRoute | frontend/src/App.js:27-34 | no token gives `/login`; a created profile gives `/home`; the creation page is shown exactly when there is a token and the profile is not created |
| AppRoutes.ProtectedRoute | frontend/src/App.js:36-43 | no token gives `/login`; no profile gives `/create-profile`; the children are shown exactly when authenticated with a profile |
| AppRoutes.PublicOnlyRoute | frontend/src/App.js:46-51 | redirects to `/home` exactly when authenticated with a profile, and shows the children otherwise |
| AppRoutes.GuardsExclusive | frontend/src/App.js:31-42 | the protected children and the creation page are never both shown, and a public page redirects home exactly when the protected pages open |
| AppRoutes.NoRedirectLoop | frontend/src/App.js:27-43 | no guard redirects to itself, and the two guards never bounce a user between `/create-profile` and `/home` |
| ApiService.ApiOrigin | frontend/src/services/apiService.js:5 | the configured URL wins when truthy; with no window the origin is "" |
| ApiService.DevOriginMapsToApi | frontend/src/services/apiService.js:5 | a page served from port 3000 talks to the same host on port 5000 |
| ApiService.ApiUrl | frontend/src/services/apiService.js:6 | `API_URL` is a prefix of the origin that does not end in '/', and only slashes were removed |
| ApiService.ApiUrlSpec | frontend/src/services/apiService.js:6-14 | stripping is idempotent, and the base URL `API_URL/api` never holds "//" at the joint |
| ApiService.GetToken | frontend/src/services/apiService.js:9 | a truthy local token wins; otherwise it is the session's |
| ApiService.TokenReadsAgreeOnPresence | frontend/src/services/apiService.js:9 | the guards let a user in exactly when requests carry a token; with two different tokens, the guards read the session's and the requests send the local one |
| ApiService.Authorize | frontend/src/services/apiService.js:18-24 | adds `Authorization: Bearer <token>` (section 2.1 of RFC 6750) exactly when there is a token, and otherwise leaves the headers alone |
| ApiService.AuthorizedIffAuthenticated | frontend/src/services/apiService.js:9-24 | a request carries a bearer token exactly when the route guards of App.js count the visitor as signed in, and the token is the one `getToken` reads |
| ApiService.LastErrorSpec | frontend/src/services/apiService.js:60-73 | some request threw exactly when there is a last error, and in that case it is the latest one |
| ApiService.Outcomes | frontend/src/services/apiService.js:61-64 | one answer per attempt, in order |
| ApiService.TryInOrder | frontend/src/services/apiService.js:60-77 | attempts go out in order, and each one issued before the last failed. It succeeds exactly when some attempt answers 2xx, and then stops at that one. Otherwise every attempt is issued and the last error's status and message are reported |
| ApiService.RemoveFriendSmart | frontend/src/services/apiService.js:51-78 | the five endpoints are tried in the listed order with the same first-success and last-error rules |
| UseFeed.VisiblePrefix | frontend/src/hooks/useFeed.js:70-73 | the visible posts are the first min(10 × page, length) posts |
| UseFeed.VisibleGrows | frontend/src/hooks/useFeed.js:71-72 | a larger page never hides a post a smaller page showed |
| UseFeed.FriendName | frontend/src/hooks/useFeed.js:55 | the name is never empty, is `fullName` when truthy, and is "A user" with no friend |
| UseFeed.FriendNameOrder | frontend/src/hooks/useFeed.js:55 | the fallback order is fullName, then username, then email, then "A user" |
| UseFeed.RegisterEvent | frontend/src/hooks/useFeed.js:40-44 | `register` is sent exactly when a user id is stored, and it carries that id |
| UseFeed.FeedState.constructor | frontend/src/hooks/useFeed.js:7-10 | no posts, page 1, no notifications |
| UseFeed.FeedState.Loaded | frontend/src/hooks/useFeed.js:15-30 | the posts are replaced only by a successful reply, and the visible prefix follows |
| UseFeed.FeedState.NextPage | frontend/src/hooks/useFeed.js:70-73 | the page grows by one, and the old visible posts stay a prefix of the new ones |
| UseFeed.FeedState.PrependPost | frontend/src/hooks/useFeed.js:77 | the new post goes first and is visible |
| UseFeed.FeedState.OnNotification | frontend/src/hooks/useFeed.js:48-50 | the newest notice goes first; posts and page are unchanged |
| UseFeed.FeedState.OnFriendAdded | frontend/src/hooks/useFeed.js:54-58 | prepends "🎉 You are now friends with <name>!" using the fallback name |
| HomePage.Collected | frontend/src/pages/HomePage.jsx:26-34 | no more attachments are collected than were picked |
| HomePage.CollectedSpec | frontend/src/pages/HomePage.jsx:26-34 | every collected attachment comes from a successful upload and keeps its picked name, every successful upload is collected, and when all succeed all are collected |
| HomePage.UploadAll | frontend/src/pages/HomePage.jsx:27-34 | the loop stops exactly when some upload throws, and it stops at the first one; otherwise it returns the successful uploads in order |
| HomePage.FirstThrown | frontend/src/pages/HomePage.jsx:27-34 | the first upload that throws: it throws, and none before it does |
| HomePage.Form | frontend/src/pages/HomePage.jsx:22-37 | the form carries the trimmed text, and carries `attachments` exactly when some upload succeeded |
| HomePage.Composer.constructor | frontend/src/pages/HomePage.jsx:9-12 | an empty composer |
| HomePage.Composer.Submit | frontend/src/pages/HomePage.jsx:22-58 | the form carries the trimmed text, the file and the uploaded attachments and is recorded as sent. On success the post is prepended, a notice is added and the composer is cleared. A refusal changes nothing else. A thrown error alerts with its message. On both failures posts, text, file, thumbnail and picked attachments stay |
| HomePage.Composer.HandleCreatePost | frontend/src/pages/HomePage.jsx:17-59 | with nothing to publish nothing changes. A thrown upload sends nothing and alerts with the error of the first upload that threw. Otherwise the form is sent. On success the post is prepended, a notice is added and the composer is cleared. On failure posts and the whole composer, thumbnail included, stay, and a thrown error alerts |
| HomePage.OnScroll | frontend/src/pages/HomePage.jsx:66-72 | the page advances exactly when scrollTop + clientHeight ≥ scrollHeight − 200 and some loaded post is hidden |
| HomePage.ScrollStops | frontend/src/pages/HomePage.jsx:69 | some post is hidden exactly when 10 × page is below the number of posts, and once none is hidden all posts are shown |
| ResourcesPage.FileNameFromUrl | frontend/src/pages/ResourcesPage.jsx:5-13 | a helper whose URL parsing and decoding are parameters, so its contract only sorts their outcomes: an unparsable URL gives "download"; otherwise the decoded last path segment, with "download" for an empty segment or a failed decode |
| ResourcesPage.AttachmentItems | frontend/src/pages/ResourcesPage.jsx:67-76 | one item per attachment, in order, named by `att.name` or else by the file name of its URL |
| ResourcesPage.Flatten | frontend/src/pages/ResourcesPage.jsx:57-88 | the nested loops build, post by post in feed order, the attachment items and then an image item when `imageThumb` is set |
| ResourcesPage.FlattenedCount | frontend/src/pages/ResourcesPage.jsx:65-86 | there are as many items as attachments plus posts with an image |
| ResourcesPage.FlattenedFromPosts | frontend/src/pages/ResourcesPage.jsx:60-64 | every item carries the author, text and id of one of the posts |
| ResourcesPage.Filtered | frontend/src/pages/ResourcesPage.jsx:95-104 | an empty query keeps all items. Otherwise the result keeps exactly the items whose name, text or author contains the lower-cased query |
| ResourcesPage.FilteredSpec | frontend/src/pages/ResourcesPage.jsx:95-104 | the search ignores the query's case and keeps the items' order |
| ResourcesPage.Resources.constructor | frontend/src/pages/ResourcesPage.jsx:45-46 | no items and an empty query |
| ResourcesPage.Resources.Load | frontend/src/pages/ResourcesPage.jsx:48-92 | no token does nothing; the items are replaced by the flattened feed only on a successful reply |
| FriendsFinder.AddNew | frontend/src/components/FriendsFinder.jsx:16 | `set.add` appends an email only when it is new |
| FriendsFinder.AuthorsSpec | frontend/src/components/FriendsFinder.jsx:11-20 | the author list has no repeats, and holds exactly the non-empty emails that author some post |
| FriendsFinder.AuthorEmails | frontend/src/components/FriendsFinder.jsx:15-18 | the loop builds that author list |
| FriendsFinder.Put | frontend/src/components/FriendsFinder.jsx:30-37 | `Map.set` adds the key. It keeps an existing key's position and length, and appends a new key at the end |
| FriendsFinder.PutKeyed | frontend/src/components/FriendsFinder.jsx:30-37 | `Map.set` never makes a key appear twice |
| FriendsFinder.FromDirectorySpec | frontend/src/components/FriendsFinder.jsx:27-31 | the directory pass keys each email once, and holds exactly the directory emails that match |
| FriendsFinder.FromAuthorsSpec | frontend/src/components/FriendsFinder.jsx:33-38 | the author pass keeps emails unique, and adds exactly the matching authors to what was there |
| FriendsFinder.ResultsSpec | frontend/src/components/FriendsFinder.jsx:22-40 | a blank query gives no results. There are at most 20, no email twice, and each matches by name or email as the mode says. Below 20, every match is present |
| FriendsFinder.Search | frontend/src/components/FriendsFinder.jsx:22-40 | the two loops and the slice compute those results |
| FriendsFinder.Befriended | frontend/src/components/FriendsFinder.jsx:45-50 | the target ends in my list, prepended when absent and left as is when present; other users' lists are untouched; a duplicate-free list stays so |
| FriendsFinder.BefriendedIdempotent | frontend/src/components/FriendsFinder.jsx:47 | adding the same friend twice is adding once |
| FriendsFinder.ChatSeeded | frontend/src/components/FriendsFinder.jsx:52-54 | the target's chat is set to [] only when it has none; every other chat is kept |
| FriendsFinder.LocalFriends.constructor | frontend/src/components/FriendsFinder.jsx:44-52 | the two stored maps as read |
| FriendsFinder.LocalFriends.AddFriend | frontend/src/components/FriendsFinder.jsx:42-56 | with no current user, no target, or oneself as target nothing changes. Otherwise the friend is added, the chat seeded and the alert shown |
| FindFriendsPage.WithFriend | frontend/src/pages/FindFriendsPage.jsx:34-37 | the `friendAdded` updater adds the id only when it is absent |
| FindFriendsPage.WithFriendUnique | frontend/src/pages/FindFriendsPage.jsx:34-37 | that updater keeps the list duplicate-free and is idempotent |
| FindFriendsPage.AddAppendsDuplicate | frontend/src/pages/FindFriendsPage.jsx:68 | the add updater appends without a check, so adding a present id makes a duplicate |
| FindFriendsPage.FindFriends.constructor | frontend/src/pages/FindFriendsPage.jsx:8-11 | no friends, no results, no requests |
| FindFriendsPage.FindFriends.MeLoaded | frontend/src/pages/FindFriendsPage.jsx:17-28 | the friends are replaced only by a successful reply that holds a list, and only with a token |
| FindFriendsPage.FindFriends.OnFriendAdded | frontend/src/pages/FindFriendsPage.jsx:33-37 | applies the `friendAdded` updater, after which `isFriend(id)` (membership in `myFriends`, line 75) holds |
| FindFriendsPage.FindFriends.HandleSearch | frontend/src/pages/FindFriendsPage.jsx:46-57 | no token or a blank query sends nothing; otherwise one search is sent and the results are replaced only on success |
| FindFriendsPage.FindFriends.AddFriend | frontend/src/pages/FindFriendsPage.jsx:60-75 | a success appends the id, after which `isFriend(id)` holds; a failure leaves the friends, and so `isFriend`, unchanged |
| MessagesPage.NameFor | frontend/src/pages/MessagesPage.jsx:105-106 | the name is never empty and is "this user" for an unknown id |
| MessagesPage.WithoutFriend | frontend/src/pages/MessagesPage.jsx:117 | keeps exactly the friends with another id |
| MessagesPage.WithoutFriendSpec | frontend/src/pages/MessagesPage.jsx:117 | removing an absent id changes nothing, and the filter keeps the order |
| MessagesPage.RequestFailed | frontend/src/pages/MessagesPage.jsx:113-115 | the error text starts "Request failed"; with no status and no message it is exactly that |
| MessagesPage.Messages.constructor | frontend/src/pages/MessagesPage.jsx:7-12 | empty page state |
| MessagesPage.Messages.FriendsLoaded | frontend/src/pages/MessagesPage.jsx:24-35 | the friends are replaced only by a successful reply that holds a list, and only with a token; every other field stays |
| MessagesPage.Messages.OnNewMessage | frontend/src/pages/MessagesPage.jsx:45-60 | an incoming message is prepended exactly when it comes from the active friend; every other field stays |
| MessagesPage.Messages.LoadMessages | frontend/src/pages/MessagesPage.jsx:70-82 | the friend becomes active; the messages are replaced only on success; every other field stays |
| MessagesPage.Messages.SendMessage | frontend/src/pages/MessagesPage.jsx:84-101 | a blank input or no active friend sends nothing. Otherwise the trimmed text is sent to the active friend; a success prepends the stored message and clears the input. Friends, the active friend, `removingId`, prompts and alerts stay |
| MessagesPage.Messages.HandleRemoveFriend | frontend/src/pages/MessagesPage.jsx:104-129 | declining changes nothing. A success drops exactly that friend, and clears the active friend and messages when it was active; a failure alerts. `removingId` ends null after a confirmed request |
| SignupPage.YearOptions | frontend/src/pages/SignupPage.jsx:89-92 | the College list exactly when the qualification contains "Bachelor" or "Master", the Other list otherwise, never the School list |
| SignupPage.Toggle | frontend/src/pages/SignupPage.jsx:99-106 | the subject is removed when present and appended at the end when absent; other subjects are untouched |
| SignupPage.ToggleSpec | frontend/src/pages/SignupPage.jsx:99-106 | toggling keeps a list duplicate-free, and toggling an absent subject twice restores the list |
| SignupPage.FilterUnique | frontend/src/pages/SignupPage.jsx:103 | filtering a duplicate-free list keeps it duplicate-free |
| SignupPage.FilteredSubjects | frontend/src/pages/SignupPage.jsx:128-130 | keeps exactly the subjects containing the search text, case-insensitively |
| SignupPage.FilteredSubjectsEmpty | frontend/src/pages/SignupPage.jsx:128-130 | an empty search keeps every subject in order |
| SignupPage.BranchesFor | frontend/src/pages/SignupPage.jsx:56-57 | an unknown qualification has no branches |
| SignupPage.BranchesForFirst | frontend/src/pages/SignupPage.jsx:57-58 | the branches are those of the first entry with that name, or [] when it has none |
| SignupPage.Signup.constructor | frontend/src/pages/SignupPage.jsx:12-27 | an empty form |
| SignupPage.Signup.DataLoaded | frontend/src/pages/SignupPage.jsx:36-62 | each file is stored only when it is an array, and a failure stores neither. New qualifications rerun the qualification effect: the branches of the chosen qualification are offered and branch and year reset. The form, status and redirect stay |
| SignupPage.Signup.QualificationEffect | frontend/src/pages/SignupPage.jsx:54-62 | a chosen qualification loads its branches and resets branch and year to ""; no qualification clears the branches only. The qualification, subjects, data, status and redirect stay |
| SignupPage.Signup.ChangeQualification | frontend/src/pages/SignupPage.jsx:54-97 | a new non-empty qualification loads its branches and resets branch and year. A cleared one empties the branches and keeps branch and year. The same value leaves branch, year and branches alone. Subjects, data, status and redirect stay |
| SignupPage.Signup.SelectSubject | frontend/src/pages/SignupPage.jsx:99-106 | applies the toggle to the selected subjects; every other field stays |
| SignupPage.Signup.CustomSubject | frontend/src/pages/SignupPage.jsx:108-114 | a custom subject that is non-empty and new is appended to all subjects and then toggled; anything else changes nothing. The other form fields, data, status and redirect stay |
| SignupPage.Signup.Submitted | frontend/src/pages/SignupPage.jsx:116-126 | success shows the success message and redirects to `/login`; failure shows "❌ " + the server message or "Registration failed." and keeps the redirect. The form and the loaded data stay |
| ProfilePage.Heads | frontend/src/pages/ProfilePage.jsx:57 | no more initials than words; with no empty word, exactly the first UTF-16 code unit of each word |
| ProfilePage.Initials | frontend/src/pages/ProfilePage.jsx:56-59 | one or two UTF-16 code units, and "U" with no profile or no name |
| ProfilePage.InitialsOneWord | frontend/src/pages/ProfilePage.jsx:56-59 | a one-word name gives the upper-cased first code unit of its first character, and for a first character up to U+FFFF that is the upper-cased character |
| ProfilePage.InitialsTwoWords | frontend/src/pages/ProfilePage.jsx:56-59 | a name of two words gives the upper-cased first code units of the two words, and for first characters up to U+FFFF the two upper-cased characters |
| ProfilePage.InitialsAstral | frontend/src/pages/ProfilePage.jsx:58 | for "😀 Sam" the initials are the lone high surrogate U+D83D followed by "S", as `n[0]` takes one code unit |
| ProfilePage.WithoutPost | frontend/src/pages/ProfilePage.jsx:85 | keeps exactly the posts with another id |
| ProfilePage.WithoutPostAppend | frontend/src/pages/ProfilePage.jsx:85 | the filter keeps the others' order |
| ProfilePage.Edited | frontend/src/pages/ProfilePage.jsx:98 | changes only the text of the posts with that id |
| ProfilePage.Profile.constructor | frontend/src/pages/ProfilePage.jsx:48-52 | not editing, no modal, no error |
| ProfilePage.Profile.StartEdit | frontend/src/pages/ProfilePage.jsx:66-69 | edits that post, starting from its text; the posts, the modal, the pending delete and the error stay |
| ProfilePage.Profile.CancelEdit | frontend/src/pages/ProfilePage.jsx:71-74 | clears both editing fields |
| ProfilePage.Profile.DeleteRequest | frontend/src/pages/ProfilePage.jsx:76-79 | remembers the post and opens the modal; the posts, the editing fields and the error stay |
| ProfilePage.Profile.ConfirmDelete | frontend/src/pages/ProfilePage.jsx:81-93 | with nothing pending nothing changes. A success removes exactly that post; a failure keeps the posts and sets "Failed to delete post.". Either way the modal closes and the pending id is cleared |
| ProfilePage.Profile.SaveEdit | frontend/src/pages/ProfilePage.jsx:95-104 | a success changes only that post's text and ends editing; a failure keeps the posts and sets "Failed to save changes." |
| LoginPage.AfterLogin | frontend/src/pages/LoginPage.jsx:39-63 | with an email, the token, id and email are stored. The `profileCreated` flag is removed and set to "true" only when the profile exists. Without an email nothing but the flag changes |
| LoginPage.LoginLandsOnGuardedPage | frontend/src/pages/LoginPage.jsx:54-63 | after a login the user is authenticated. A created profile opens the protected pages; otherwise the creation page opens |
| LoginPage.Login.constructor | frontend/src/pages/LoginPage.jsx:13-19 | step 0 and empty fields |
| LoginPage.Login.HandleSubmit | frontend/src/pages/LoginPage.jsx:25-67 | a thrown error shows "❌ Invalid email or password.", and so does a success with no user data, after the `profileCreated` flags are removed. A refusal shows "❌ " + the server message. A success with a user stores it as `AfterLogin` says and routes to `/home` or `/create-profile`. The reset dialog's fields stay |
| LoginPage.Login.SignedIn | frontend/src/pages/LoginPage.jsx:35-63 | the success branch: with user data it stores the user as `AfterLogin` says, shows the welcome and routes by `profileCreated`; with none it removes the flags and shows "❌ Invalid email or password.". The reset dialog's fields stay |
| LoginPage.Login.ForgotPassword | frontend/src/pages/LoginPage.jsx:142 | moves to step 1; everything else stays |
| LoginPage.Login.Close | frontend/src/pages/LoginPage.jsx:155 | returns to step 0 from any step; everything else stays |
| LoginPage.Login.RequestPasswordReset | frontend/src/pages/LoginPage.jsx:69-79 | a success moves to step 2 with "✅ OTP sent to your email."; a failure keeps the step and shows the server message or "Failed to send OTP.". The form, route, storage, code, new password and timer stay |
| LoginPage.Login.VerifyAndReset | frontend/src/pages/LoginPage.jsx:81-96 | a success shows the success message and starts the timer; a failure shows the server message or "Failed to reset password.". The step, fields, storage, message and route stay |
| LoginPage.Login.ResetTimerFires | frontend/src/pages/LoginPage.jsx:85-92 | the timer returns to step 0 and clears the reset email, code and new password; the success text, message, route and storage stay |

## Left out

- The `/search` route (server/routes/userRoutes.js:183-204) builds a regular expression from user input. Regular expression semantics are not modelled, and neither is that route.
- The `/me` route (server/routes/userRoutes.js:164-180) only reads one record. The browser models take its reply as a parameter.
- bcrypt and JWT are symbolic. A hash remembers its password and compares equal only to it, and a token names its user. Expiry (`30d`) is not modelled.
- `Math.random()` is the parameter `draw`, and the code is `100000 + draw % 900000`. Only the range and the six-digit shape are stated.
- Codes do not expire. The one-time-code schema file, server/models/otp.js, is not part of this model, so its time-to-live stays out.
- server/utils/emailsender.js and server/utils/sendEmail.js are not part of this model. A sent mail is an entry in a log, and delivery is a boolean parameter.
- The model keeps only the fields that Cloudinary uploads, the axios fetch in the download proxy, multer's limits and the streams send back. Their outcome is a parameter.
- Express-rate-limit's counting is the parameter `underLimit`.
- Socket.IO delivery is an event log, and the browser's listeners take the delivered event as a parameter. The connect and disconnect logging is not modelled.
- `toLowerCase`, `toUpperCase` and `trim` are modelled for ASCII letters and the ASCII white-space set. Unicode case mapping is out.
- The `isEmail` check is an approximation: one `@` after a non-empty local part, a domain that holds a dot but neither starts nor ends with one, and no spaces.
- An id that is not an ObjectId makes Mongoose raise a CastError, which the routes turn into 500. That path is not modelled; any string is an id.
- The `protect` middleware is the `me` parameter of each handler. A request that has no such user takes the 500 path the handler would take.
- server/models/friend.js is an unused schema. frontend/src/components/ProtectedRoutes.jsx and PublicRoute.jsx are unreferenced, and App.js's guards supersede them.
- The message schema file, server/models/message.js, is not part of this model. A message holds sender, recipient, text and time.
- userController.js reads fields from the request body that may be absent. The model takes `fullName` and `password` as optional and the other fields as strings.
- Theme toggling, canvas animations and JSX rendering are not modelled.
- `new URL(...).pathname` and `decodeURIComponent` are parameters that may fail. Their internals are not modelled.
- localStorage JSON that fails to parse, and non-array values at a key, both count as "no list". JSON parsing itself is not modelled.
- FriendsFinder.LocalFriends.AddFriend: takes both maps as already parsed. `JSON.parse` there (frontend/src/components/FriendsFinder.jsx:45, 52) has no `try`, so corrupt stored JSON throws before anything is written or alerted; that path is not modelled.
- PostRoutes.Create: `attachments` JSON that parses to something other than a list (`"5"`, `{}`) reaches `Post.create` as is, and what Mongoose's array casting then does is not modelled. `AttachmentsField` has only absent, malformed and list cases.
- UserRoutes.Login: a request without an email queries `{ email: undefined }`, which is left to Mongoose's casting and not modelled; the model's email is always a string.
- Stores.PostDb.Create, Stores.MessageDb.Create: `createdAt` is a counter that grows strictly with every insert. `new Date()` has millisecond resolution, so two records created in the same millisecond tie, and MongoDB returns tied records to `sort({ createdAt: -1 })` in no fixed order. Those ties are not modelled.
- PostRoutes.MyPostsSpec, PostRoutes.FeedSpec, MessageRoutes.ConversationSpec: the strict orders they state (newest first, every left-out feed post older than every shown one) rest on the distinct timestamps above; with a same-millisecond tie the source's order among the tied records is unspecified.
- Server.RegisterSocket: `userId` is a string. `socket.join` also accepts a list, so a client that sends an array joins every room in it; that case is not modelled.
- `setTimeout` is modelled two ways. The signup page's redirect is the `redirect` field. The login page's delayed reset is the separate method `LoginPage.Login.ResetTimerFires`.
- The store keeps `user.token` exactly as the login reply gives it.
- `triggerDownload` (frontend/src/pages/ResourcesPage.jsx:16-42) is browser download plumbing and is not modelled.
- The resource item's `type` string is the `Kind` datatype.

## Findings

| source | as written | input that shows it | evidently intended | confidence | as-written member | corrected member |
|---|---|---|---|---|---|---|
| server/routes/uploadRoutes.js:143 | the download file name goes between double quotes without escaping | `name` = `a"b` gives `attachment; filename="a"b"`, which is not one quoted-string | a `filename` parameter as a quoted-string (section 4.1 of RFC 6266, section 3.2.6 of RFC 7230), with `"` and `\` escaped | not executed | UploadRoutes.DownloadFile, UploadRoutes.DownloadFileBreaksQuoting | UploadRoutes.DownloadFileCorrected, UploadRoutes.DispositionSpec |
