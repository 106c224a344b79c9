# EthiopiaMarket in Dafny

A model of the core of EthiopiaMarket, a classified-ads marketplace. The
project proves properties of that model.

The core has two halves:

- **The Express/Mongoose backend.** It has:
  - three document schemas (listings, users, messages) and the one-time-password collection;
  - the route guards (`protect`, `authorize`, `checkOwnership`);
  - the controllers for listings, accounts, users, messaging and admin moderation;
  - phone verification by one-time password.
- **The React frontend.** It has:
  - the phone helpers;
  - the in-memory mock API the pages use;
  - the four-step "create listing" page and its image picker;
  - the registration page.

How the model is built:

- **Collections.** A MongoDB collection is a `seq` in insertion order, held by the `Database.Db` class. Handlers that write to the store are methods on it, with `modifies` clauses. A `Valid()` invariant holds unique ids, the unique email and phone indexes, and every schema validator.
- **Reads.** Queries (`find`, `sort`, `skip`/`limit`, `countDocuments`, the `$group`/`$lookup` pipeline) are functions in `Query` and `MessagesController`. They are proved against the filters they implement.
- **Frontend state.** State held with `useState` is a class whose fields the event handlers reassign: `ListingWizard`, `ImagePicker`, `RegisterScreen`, `MockStore`.
- **Things outside the model become parameters:**
  - password hashing and checking: `hash`, `verify`;
  - JWT decoding: `decode`;
  - the Cloudinary upload: `upload`;
  - MongoDB's `$text` operator: `TextSearch`;
  - the clock: `now`;
  - `Math.random`: `draw`, `randomId`;
  - environment settings;
  - the result of the client API call.
- **Errors.** Every error the modelled handlers pass to `next` is a `Failure`: `BadRequest`, `Unauthorized`, `Forbidden`, `NotFound`, or `ServerError` for an exception. Exceptions that only an ill-typed request can raise are outside the model (see "Request typing" under "## Left out").

Behaviours of the code worth stating plainly, which the model keeps:

- **Approve and reject.** `approveListing` and `rejectListing` (adminController.js:83-131) accept any status transition: neither checks the listing's current status, and neither has an error for an unexpected one. `AdminController.ApproveListing`/`RejectListing` state this unguarded behaviour.
- **A seller's listings.** `getUserListings` (usersController.js:32-59) sets `status = 'active'` when no status is given, whoever asks, the seller included. `UsersController.GetUserListings` states this.
- **OTP attempts.** `verifyOTP` (otp.js:97-108) counts the attempt before it compares the code, and deletes the record once the count passes 3. So three wrong codes are tolerated, and the fourth call fails even with the right code (`Otp.ThreeStrikes`).

## Model

| member | source | states |
|---|---|---|
| ListingModel.ParseCategory | backend/models/Listing.js:20-24 | a string is accepted exactly when it is one of the eight category names, and then parses to the category with that name |
| ListingModel.ParseRegion | backend/models/Listing.js:25-29 | a string is accepted exactly when it is one of the nine region names, and then parses to the region with that name |
| ListingModel.ParseStatus | backend/models/Listing.js:45-49 | a string is accepted exactly when it is one of the five status names, and then parses to the status with that name |
| ListingModel.NamesRoundTrip | backend/models/Listing.js:20-49 | parsing the name of any category, region or status gives it back |
| ListingModel.NamesInjective | backend/models/Listing.js:20-49 | distinct categories, regions and statuses have distinct names |
| ListingModel.NewListing | backend/models/Listing.js:3-65 | creation succeeds exactly when the required fields are present and pass their validators (the title after trimming); the new listing is valid, pending, unviewed, not featured, expires 30 days after creation, and carries the given seller, images, contacts and fields |
| ListingModel.IncrementViews | backend/models/Listing.js:79-82 | the view count goes up by one and no other modelled field changes |
| ListingModel.IncrementViewsValid | backend/models/Listing.js:79-82 | counting a view keeps a listing valid |
| UserModel.ParseRole | backend/models/User.js:40-44 | exactly "user", "seller" and "admin" are roles, each parsing to the role with that name |
| UserModel.NewUser | backend/models/User.js:5-102 | creation succeeds exactly when the trimmed name, the trimmed lower-cased email, the password length and the trimmed phone pass their validators; the stored user is valid, holds the password's hash, and has the defaults: role seller unless given, active, no avatar, rating 5, no ratings |
| UserModel.LowerTrimIdempotent | backend/models/User.js:12-17 | the email setters are idempotent, so a stored email is its own lookup key |
| MessageModel.NewMessage | backend/models/Message.js:3-37 | creation succeeds exactly when the content is non-empty and at most 1000 characters; the message is valid, unread, has no read time, and keeps its listing, sender, receiver and content |
| Database.ListingIndex | backend/controllers/listingsController.js:59 | `findById` finds a listing with that id exactly when one is stored |
| Database.UserIndex | backend/controllers/usersController.js:12 | `findById` finds a user with that id exactly when one is stored |
| Database.MessageIndex | backend/controllers/messagesController.js:176 | `findById` finds a message with that id exactly when one is stored |
| Database.EmailIndex | backend/controllers/authController.js:18 | `findOne({ email })` finds a user with that email exactly when one is stored |
| Database.PhoneHolder | backend/models/User.js:89-91 | finds another user holding the phone, or proves that no other user holds it |
| Database.Db.FreshId | backend/controllers/listingsController.js:97-106 | a new id is distinct from every stored id, and the collections are unchanged |
| Database.Db.AppendUser | backend/controllers/authController.js:37 | storing a user whose id, email and phone are free keeps the store valid |
| Database.Db.ReplaceUser | backend/controllers/authController.js:186-190 | saving a user over the stored one with the same id, keeping its email and either its phone or one no other user holds, keeps the store valid and changes only that user |
| Database.Db.AppendListing | backend/controllers/listingsController.js:97 | storing a valid listing under a free id keeps the store valid and appends it |
| Database.Db.AppendMessage | backend/controllers/messagesController.js:30 | storing a valid message under a free id keeps the store valid and appends it |
| Query.Filter | backend/controllers/listingsController.js:32 | `find` returns only matching documents, and every matching document |
| Query.CountWhere | backend/controllers/listingsController.js:39 | `countDocuments` is the number of documents `find` returns |
| Query.IndexWhere | EthiopiaMarket/src/api/mockApi.js:149 | `findIndex` gives the first matching position, or none when nothing matches |
| Query.SortDesc | backend/controllers/listingsController.js:33 | `sort('-createdAt')` is a permutation of its input, ordered by decreasing key |
| Query.SortDescOfSorted | backend/controllers/messagesController.js:117 | sorting documents already in order leaves them as they are |
| Query.Window | backend/controllers/listingsController.js:34-35 | `skip`/`limit` takes at most the limit's absolute value (no bound for 0), consecutively from the skip offset |
| Query.FindPage | backend/controllers/listingsController.js:32-39 | a page fails exactly when the skip is negative; otherwise it holds at most `limit` matching documents, newest first, taken at the skip offset of the sorted matches, and `total` counts all matches |
| Query.FindPageComplete | backend/controllers/listingsController.js:34-35 | paging misses nothing: the k-th match is on the page whose window covers k |
| Query.TotalPages | backend/controllers/listingsController.js:45 | `Math.ceil(total / limit)` is the least page count covering `total`; it is undefined (Infinity or NaN) for a zero limit |
| ListingsController.GetListings | backend/controllers/listingsController.js:10-52 | the feed filters by status (default active) and by each non-empty category, region and search; it returns the page `FindPage` selects from the matches ordered as the `sort` parameter asks (newest first by default), sorted along that order, with the total, the page count and the current page; a negative skip is an error |
| ListingsController.ParseSort | backend/controllers/listingsController.js:19 | a sort string is descending exactly when it starts with `-`, and the field name is the rest of the string |
| ListingsController.DefaultSortNewestFirst | backend/controllers/listingsController.js:19-33 | without a `sort` parameter the page is ordered newest first by `createdAt` |
| ListingsController.SortedAlongField | backend/controllers/listingsController.js:33 | along a numeric field the page runs downwards when the sort string starts with `-` and upwards otherwise |
| ListingsController.FeedMatchesMeans | backend/controllers/listingsController.js:16-29 | without a status parameter only active listings are in the feed; given filters are honoured; with no parameters the feed is exactly the active listings |
| ListingsController.GetListing | backend/controllers/listingsController.js:57-73 | the listing with that id, whatever its status; 404 exactly when there is none |
| ListingsController.CreateInput | backend/controllers/listingsController.js:80-106 | the create handler passes the body's fields and never a status |
| ListingsController.UploadAll | backend/controllers/listingsController.js:90-94 | one uploaded image per source, in order |
| ListingsController.CreateListing | backend/controllers/listingsController.js:78-120 | creation succeeds exactly when the schema accepts the body; the stored listing is new, pending, unviewed, not featured, owned by the caller, created now and expiring in 30 days, and holds the body's trimmed title, its descriptions, category, region and contact methods and the uploaded images; a rejected body stores nothing |
| ListingsController.CreateThenGet | backend/controllers/listingsController.js:57-73 | a listing just stored under a new id is the one `getListing` returns for that id |
| ListingsController.UpdatedImages | backend/controllers/listingsController.js:144-163 | the images become the uploads of the `data:` sources when there are any, and otherwise stay as they are |
| ListingsController.PublicIds | backend/controllers/listingsController.js:148-155 | no id sent for deletion is empty |
| ListingsController.PublicIdsCount | backend/controllers/listingsController.js:148-155 | one id is sent for each image that has a non-empty public id |
| ListingsController.PublicIdsSound | backend/controllers/listingsController.js:148-155 | every id sent for deletion is the public id of one of the images |
| ListingsController.PublicIdsComplete | backend/controllers/listingsController.js:148-155 | every image with a non-empty public id has it sent for deletion |
| ListingsController.PublicIdsAppend | backend/controllers/listingsController.js:148-155 | the ids of two image lists together are the ids of the first followed by those of the second, so the ids keep the images' order |
| ListingsController.Overwrite | backend/controllers/listingsController.js:165-181 | an update succeeds exactly when every supplied field passes its validator; each field given non-empty overwrites the stored one, the images are replaced, and id, seller, views, featured and dates are kept |
| ListingsController.OverwriteValid | backend/controllers/listingsController.js:177-181 | an accepted update keeps a listing valid |
| ListingsController.UpdateListing | backend/controllers/listingsController.js:125-192 | 404 when the listing is missing; otherwise an `images` array sends every current image for deletion, the stored listing becomes the overwrite, and a rejected update leaves the store unchanged, while the old images are still sent for deletion |
| ListingsController.UpdateWithoutUploadsKeepsDeletedImages | backend/controllers/listingsController.js:146-163 | an `images` array without `data:` sources keeps the stored images while sending each of them for deletion |
| ListingsController.DeleteListing | backend/controllers/listingsController.js:197-227 | 404 when the listing is missing; otherwise its image ids are sent for deletion and exactly that listing is removed |
| ListingsController.DeleteRemovesExactlyOne | backend/controllers/listingsController.js:216 | after the delete no listing has that id, and every other listing remains |
| ListingsController.IncrementListingViews | backend/controllers/listingsController.js:232-249 | 404 when the listing is missing; otherwise its view count goes up by one and the new count is returned |
| AdminController.AllCategoriesListed | backend/models/Listing.js:20-24 | the breakdown considers every category |
| AdminController.GetStats | backend/controllers/adminController.js:10-51 | the counts are those of the collections and filters; active plus pending never exceeds the total; the per-category groups are exactly the categories with active listings, each with its count |
| AdminController.ByCategoryTotal | backend/controllers/adminController.js:24-27 | the category groups' counts add up to the number of active listings |
| AdminController.GetPendingListings | backend/controllers/adminController.js:56-78 | the page `FindPage` selects from the pending listings, newest first, twenty by default, with its size and the number of pending listings |
| AdminController.SetListingStatus | backend/controllers/adminController.js:85-92 | 404 when the listing is missing; otherwise only that listing's status changes among the modelled fields |
| AdminController.ApproveListing | backend/controllers/adminController.js:83-103 | any stored listing becomes active, whatever its status was |
| AdminController.RejectListing | backend/controllers/adminController.js:108-131 | any stored listing becomes rejected; the reason is not stored |
| AdminController.IsActiveFilterMeans | backend/controllers/adminController.js:142 | an `isActive` of "true" selects active users, and any other string selects inactive ones |
| AdminController.GetAllUsers | backend/controllers/adminController.js:136-163 | the page `FindPage` selects from the users passing the role and `isActive` filters, newest first, twenty by default, with its size and their total |
| AdminController.ExpireListingsOf | backend/controllers/adminController.js:180-183 | every listing of that seller becomes expired, and the others are unchanged |
| AdminController.ExpireListingsOfMeans | backend/controllers/adminController.js:179-183 | after a deactivation none of the user's listings is active, so none is in the default feed |
| AdminController.DeactivateUser | backend/controllers/adminController.js:168-195 | 404 when the user is missing; otherwise the user is inactive and all of that user's listings expire |
| AdminController.ActivateUser | backend/controllers/adminController.js:200-221 | 404 when the user is missing; otherwise the user is active again, and the listings stay as they are |
| UsersController.GetUser | backend/controllers/usersController.js:10-27 | the user with that id and the number of listings naming them as seller; 404 exactly when there is none |
| UsersController.GetUserListings | backend/controllers/usersController.js:32-59 | a newest-first page of one seller's listings, with the given status or active by default, whoever asks |
| UsersController.LastN | backend/controllers/usersController.js:78 | `slice(-n)` gives the last n pieces, or all of them when there are fewer or when n is 0 |
| UsersController.PublicIdFromUrl | backend/controllers/usersController.js:77-78 | the derived public id is the joined last pieces of the URL, up to the first '.' |
| UsersController.StoredImageUrlPieces | backend/utils/cloudinary.js:35 | a stored avatar URL ends in the pieces "ethiopia-market", "avatars" and the file name |
| UsersController.AsWrittenMissesFolder | backend/controllers/usersController.js:77-79 | as written, the derived id of a stored avatar lacks the outer folder, so it names no stored image |
| UsersController.AvatarPublicIdRecovers | backend/utils/cloudinary.js:35 | taking the last three pieces recovers the stored avatar's public id |
| UsersController.UpdateAvatar | backend/controllers/usersController.js:64-94 | no avatar is a 400 and changes nothing; otherwise the old avatar, if any, is sent for deletion under the id the handler derives from its URL's last two pieces, and the caller's avatar becomes the upload's URL |
| AuthMiddleware.ExtractToken | backend/middleware/auth.js:9-11 | a token is read exactly when the header starts with "Bearer" and has a non-empty second space-separated piece, which is the token |
| AuthMiddleware.BearerHeaderToken | backend/middleware/auth.js:9-11 | the header `Bearer <token>` yields the token |
| AuthMiddleware.Protect | backend/middleware/auth.js:6-33 | no token or an invalid token is 401, a token of no stored user is 404, a deactivated user is 403; otherwise the stored, active user |
| AuthMiddleware.DeactivatedCannotPass | backend/middleware/auth.js:25-27 | a deactivated account passes no protected route |
| AuthMiddleware.Authorize | backend/middleware/auth.js:36-48 | passes exactly when the caller's role is listed; otherwise 403 |
| AuthMiddleware.CheckOwnership | backend/middleware/auth.js:51-79 | a missing document is 404; the check passes exactly for an admin or when every owner field names the caller; otherwise 403 |
| AuthMiddleware.ListingResource | backend/middleware/auth.js:54 | `Listing.findById` seen by the ownership check: the listing's seller, and no user field |
| AuthMiddleware.ListingWriteGuard | backend/routes/listings.js:19-22 | a listing write passes exactly when the caller is authenticated and is an admin or the listing's seller; authentication failures come first |
| AuthMiddleware.MissingListingIsNotFound | backend/middleware/auth.js:56-63 | a missing listing is 404 even for an admin |
| AuthMiddleware.AdminGuard | backend/routes/admin.js:14-15 | admin routes pass exactly for an authenticated, active admin |
| MessagesController.GroupsFrom | backend/controllers/messagesController.js:62-93 | the `$group` stage yields at most one group per message |
| MessagesController.GroupMember | backend/controllers/messagesController.js:77 | a group's last message is one of the caller's messages, in that group |
| MessagesController.GroupNewest | backend/controllers/messagesController.js:62-77 | a group's last message is its newest message |
| MessagesController.GroupUnread | backend/controllers/messagesController.js:78-91 | a group's unread count is the number of its unread messages addressed to the caller |
| MessagesController.GroupsDistinct | backend/controllers/messagesController.js:66-76 | no two groups share a listing and counterpart |
| MessagesController.GroupsComplete | backend/controllers/messagesController.js:66-76 | every message of the caller falls in a group |
| MessagesController.GroupsSorted | backend/controllers/messagesController.js:62-77 | groups come newest conversation first |
| MessagesController.Join | backend/controllers/messagesController.js:94-115 | a group gives a row exactly when its listing and its other user both exist, and the row carries those documents |
| MessagesController.Lookup | backend/controllers/messagesController.js:94-115 | the joins yield at most one row per group |
| MessagesController.LookupSource | backend/controllers/messagesController.js:94-115 | every row is a group joined with its existing listing and user, in group order |
| MessagesController.LookupComplete | backend/controllers/messagesController.js:94-115 | every group whose listing and user exist gives a row |
| MessagesController.LookupPair | backend/controllers/messagesController.js:94-115 | rows keep the order of the groups they come from |
| MessagesController.GetConversations | backend/controllers/messagesController.js:51-129 | there are no more conversation rows than messages |
| MessagesController.ConversationRows | backend/controllers/messagesController.js:116-118 | the rows are newest first, and the final sort leaves them as they are |
| MessagesController.ConversationsDistinct | backend/controllers/messagesController.js:66-76 | no conversation appears twice |
| MessagesController.ConversationsSound | backend/controllers/messagesController.js:53-119 | each row's listing and user exist, its last message is the newest of that conversation, and its unread count is the conversation's unread messages addressed to the caller |
| MessagesController.ConversationsComplete | backend/controllers/messagesController.js:53-119 | every message of the caller whose listing and counterpart exist is summarised by a row |
| MessagesController.Reversed | backend/controllers/messagesController.js:164 | `reverse()` puts element i at position length-1-i |
| MessagesController.GetMessages | backend/controllers/messagesController.js:134-169 | a page of the conversation, taken newest first and returned oldest first, with the conversation's total; a negative skip is an error |
| MessagesController.GetMessagesSymmetric | backend/controllers/messagesController.js:139-145 | both parties see the same page of their conversation |
| MessagesController.SendMessage | backend/controllers/messagesController.js:9-46 | missing fields are a 400, then a missing listing or receiver a 404, then an invalid content a 400; otherwise a new, unread message from the caller is stored; a failure stores nothing |
| MessagesController.MarkAsRead | backend/controllers/messagesController.js:174-197 | a missing message is 404 and someone else's is 403, both changing nothing; otherwise only that message becomes read at `now`, and no other modelled field changes |
| MessagesController.MarkingReadLowersUnread | backend/controllers/messagesController.js:78-91 | marking an unread message read lowers its conversation's unread count by one |
| AuthController.RegisterPhone | backend/controllers/authController.js:32-35 | a phone is passed on exactly when it is non-empty after trimming, and then trimmed |
| AuthController.RegisterInput | backend/controllers/authController.js:24-30 | registration asks for a verified seller with the lower-cased email |
| AuthController.Register | backend/controllers/authController.js:8-93 | missing fields, a taken email, a failed validator or a taken phone are each a 400 that stores nothing; otherwise a verified, active seller is stored with the trimmed name, the normalised email and the password's hash |
| AuthController.Login | backend/controllers/authController.js:98-146 | missing fields are a 400; an unknown email and a wrong password give the same 401; a deactivated account is a 403 only after the password matched; otherwise the stored, active user |
| AuthController.LoginHidesAccounts | backend/controllers/authController.js:109-118 | a failed login does not reveal whether the email is registered |
| AuthController.LoginAfterRegister | backend/controllers/authController.js:18-37 | a just-registered account logs in with its password, whatever the case of the email |
| AuthController.GetMe | backend/controllers/authController.js:151-173 | the caller's own stored record; a vanished caller is a server error |
| AuthController.WithDetails | backend/controllers/authController.js:182-184 | the name and phone are replaced (trimmed) only when given non-empty, and nothing else changes |
| AuthController.WithDetailsValid | backend/controllers/authController.js:186-190 | an accepted details update keeps a user valid |
| AuthController.UpdateDetails | backend/controllers/authController.js:178-209 | the update succeeds exactly when the caller exists, the fields pass the validators and the phone is free; it then changes only the caller's name and phone; a failure changes nothing |
| AuthController.BlankPhoneStoredEmpty | backend/controllers/authController.js:184-190 | a phone of white space only passes the `match` validator once trimmed, and is stored as the empty string |
| AuthController.UpdatePassword | backend/controllers/authController.js:214-244 | missing fields are a 400, a wrong current password a 401 that changes nothing, a short new password a 400; otherwise only the stored hash changes |
| AuthController.LoginAfterPasswordChange | backend/controllers/authController.js:230-231 | after a change the new password logs in and the old one is refused |
| AuthController.EmailIndexAfterReplace | backend/controllers/authController.js:230-231 | saving a user under the same email keeps where a lookup by that email lands |
| Otp.GenerateOtp | backend/utils/otp.js:18-23 | the code is all digits, has exactly `length` digits, and reads back as the random draw |
| Otp.PaddedDraw | backend/utils/otp.js:20-22 | zero-padding a draw below 10^length to `length` digits keeps its value |
| Otp.NormalizePhone | backend/utils/otp.js:29-33 | every normalised phone starts with +251 |
| Otp.NormalizeIdempotent | backend/utils/otp.js:77-81 | normalising twice is normalising once, so send and verify agree on the key |
| Otp.NormalizedAccepted | backend/models/OTP.js:4-8 | the schema accepts the normalised phone exactly for 0 plus 9 digits, +251 plus 9 digits, or 9 digits not starting with 0 |
| Otp.NewestLive | backend/utils/otp.js:84-88 | finds the newest unverified, unexpired record of the phone, or none exactly when there is none |
| Otp.SentLeavesOne | backend/utils/otp.js:38-46 | after sending, the new record is the phone's only record |
| Otp.VerifyStep | backend/utils/otp.js:74-130 | no live record means "expired or not found" and no change; otherwise the attempt is counted first; past three attempts the record is deleted; a wrong code keeps it; the right code marks it verified; nothing else changes |
| Otp.VerifyFindsOnly | backend/utils/otp.js:84-88 | a phone's only record is found exactly while it is live |
| Otp.SendThenVerify | backend/utils/otp.js:26-125 | the code just sent verifies before it expires |
| Otp.VerifiedOnlyOnce | backend/utils/otp.js:118-120 | once verified, a code can never be verified again |
| Otp.WrongCodeKeepsRecord | backend/utils/otp.js:97-116 | a wrong code keeps the record, one attempt further on |
| Otp.ThreeStrikes | backend/utils/otp.js:97-108 | after three wrong codes the fourth call fails even with the right code, and the phone has no record left |
| Otp.FilterKeepsIncreasing | backend/utils/otp.js:39 | deleting records keeps ids in increasing order |
| Otp.VerifyStepKeepsStore | backend/utils/otp.js:97-120 | verifying keeps every record valid and the ids increasing |
| Otp.OtpStore.SendOtp | backend/utils/otp.js:26-71 | the phone's records are deleted; then either a new record holding the generated code is added and the code returned, or, when the schema rejects the phone, a validation error is thrown |
| Otp.OtpStore.VerifyOtp | backend/utils/otp.js:74-130 | the verdict and the new collection are those of `VerifyStep` |
| PhoneFormat.NormalizePhoneNumber | EthiopiaMarket/src/utils/phoneFormat.js:41-54 | the result is the input, or +251 followed by digits only |
| PhoneFormat.FormatKeepsDigits | EthiopiaMarket/src/utils/phoneFormat.js:3-23 | formatting only inserts '+' and spaces: the digits are unchanged |
| PhoneFormat.FormatLayout | EthiopiaMarket/src/utils/phoneFormat.js:3-23 | exactly the valid numbers are laid out, as `+251 XX XXX XXXX` or `0XX XXX XXXX`; other input comes back unchanged |
| PhoneFormat.FormatIdempotent | EthiopiaMarket/src/utils/phoneFormat.js:3-23 | formatting a formatted number changes nothing |
| PhoneFormat.ValidateMatchesBackend | EthiopiaMarket/src/utils/phoneFormat.js:25-54 | the frontend accepts a number exactly when the backend's user schema accepts its normalised form |
| PhoneFormat.NormalizeValid | EthiopiaMarket/src/utils/phoneFormat.js:41-54 | a valid number normalises to +251 and nine digits |
| PhoneFormat.NormalizeIdempotent | EthiopiaMarket/src/utils/phoneFormat.js:41-54 | normalising twice is normalising once |
| PhoneFormat.WhatsAppDigits | EthiopiaMarket/src/utils/phoneFormat.js:56-59 | the WhatsApp link carries the number's digits, with a leading local 0 replaced by 251 |
| PhoneFormat.TelegramDropsOneAt | EthiopiaMarket/src/utils/phoneFormat.js:61-65 | the Telegram link drops one '@' and keeps every other character |
| MockApi.Merge | EthiopiaMarket/src/api/mockApi.js:153 | the spread merge has both objects' keys; the second object's values win |
| MockApi.NarrowingSteps | EthiopiaMarket/src/api/mockApi.js:96-102 | the category filter followed by the region filter is one combined filter |
| MockApi.SearchAll | EthiopiaMarket/src/api/mockApi.js:104-110 | the search throws exactly when a listing lacks a string title, or lacks a string short description while its title misses; otherwise it keeps exactly the hits |
| MockApi.SearchStep | EthiopiaMarket/src/api/mockApi.js:96-110 | searching the narrowed listings throws exactly when a narrowed listing makes the callback throw, and otherwise selects by all three filters |
| MockApi.VerbatimTitleFound | EthiopiaMarket/src/api/mockApi.js:105-108 | a title containing the search text verbatim is found, whatever its letter case |
| MockApi.NewMockListing | EthiopiaMarket/src/api/mockApi.js:132-140 | the new listing has the data's id or a random one, the data's other fields, and the forced seller, views, date and active status |
| MockApi.CreatedListingFirst | EthiopiaMarket/src/api/mockApi.js:142 | a created listing comes first among the current user's listings |
| MockApi.MockStore.GetListings | EthiopiaMarket/src/api/mockApi.js:91-116 | the listings passing every truthy filter, in list order, with their number; an error exactly when the search callback throws on a narrowed listing; no status filter |
| MockApi.MockStore.GetListingById | EthiopiaMarket/src/api/mockApi.js:119-126 | the first listing with that id; "Listing not found" exactly when there is none |
| MockApi.MockStore.CreateListing | EthiopiaMarket/src/api/mockApi.js:129-144 | the new listing is put at the front of the list |
| MockApi.MockStore.UpdateListing | EthiopiaMarket/src/api/mockApi.js:147-155 | the data is merged into the first listing with that id, in place; "Listing not found" changes nothing |
| MockApi.MockStore.SendMessage | EthiopiaMarket/src/api/mockApi.js:158-164 | every message is acknowledged and nothing is stored |
| MockApi.MockStore.SendOtp | EthiopiaMarket/src/api/mockApi.js:167-173 | the acknowledgement names the number |
| MockApi.MockStore.GetUserById | EthiopiaMarket/src/api/mockApi.js:176-183 | the user under that id, or "User not found" |
| MockApi.MockStore.GetUserListings | EthiopiaMarket/src/api/mockApi.js:186-190 | exactly that seller's listings, in list order |
| CreateListingPage.ChoicesMatchSchema | EthiopiaMarket/src/pages/CreateListing.jsx:18-26 | the page offers exactly the categories and regions the listing schema accepts |
| CreateListingPage.Next | EthiopiaMarket/src/pages/CreateListing.jsx:54-59 | next moves one step forward, never past step 4 |
| CreateListingPage.Prev | EthiopiaMarket/src/pages/CreateListing.jsx:61-66 | back moves one step back, never before step 1 |
| CreateListingPage.NextPrevInverse | EthiopiaMarket/src/pages/CreateListing.jsx:54-66 | back undoes next below the last step, and next undoes back above the first |
| CreateListingPage.ContactOf | EthiopiaMarket/src/pages/CreateListing.jsx:39-42 | an empty contact is left out, and any other is kept as typed |
| CreateListingPage.SubmitGate | EthiopiaMarket/src/pages/CreateListing.jsx:28-44 | a payload leaves exactly from step 4 when the phone, WhatsApp and email inputs of that step pass their rules; the values kept from earlier steps are not checked again; it carries the form, the images, and contacts that each pass their rule |
| CreateListingPage.ShortTitleSent | EthiopiaMarket/src/pages/CreateListing.jsx:104-120 | a title the first step's rule refuses ("abc") still goes out with the payload from step 4 |
| CreateListingPage.SubmittedPhoneFitsBackend | EthiopiaMarket/src/pages/CreateListing.jsx:252-258 | a submitted phone contact, once normalised, has the shape the user schema's phone rule accepts; the listing schema itself does not check contact phones |
| CreateListingPage.ListingWizard.constructor | EthiopiaMarket/src/pages/CreateListing.jsx:12-13 | the wizard starts at step 1 with no images |
| CreateListingPage.ListingWizard.NextStep | EthiopiaMarket/src/pages/CreateListing.jsx:54-59 | the step advances and stays within 1 to 4 |
| CreateListingPage.ListingWizard.PrevStep | EthiopiaMarket/src/pages/CreateListing.jsx:61-66 | the step goes back and stays within 1 to 4 |
| CreateListingPage.ListingWizard.HandleKeyDown | EthiopiaMarket/src/pages/CreateListing.jsx:69-73 | Enter is cancelled exactly on steps other than 4 |
| CreateListingPage.ListingWizard.SetImages | EthiopiaMarket/src/pages/CreateListing.jsx:227 | the images are the list the picker reported |
| CreateListingPage.ListingWizard.Submit | EthiopiaMarket/src/pages/CreateListing.jsx:28-52 | submitting runs the current step's rules and then the step-4 check, yielding exactly the gate's payload |
| ImageUpload.AfterAdd | EthiopiaMarket/src/components/ImageUpload.jsx:10-43 | a selection that does not fit, or whose processing throws, changes nothing; otherwise the new previews follow the old ones and the list stays within capacity |
| ImageUpload.RemoveAt | EthiopiaMarket/src/components/ImageUpload.jsx:45-49 | removing an index in range drops exactly that element; any other index changes nothing |
| ImageUpload.ChangesKeepCapacity | EthiopiaMarket/src/components/ImageUpload.jsx:13-16 | adding and removing keep a list within capacity |
| ImageUpload.HiddenControlMeansFull | EthiopiaMarket/src/components/ImageUpload.jsx:71 | when the add control is hidden, no selection of at least one file gets in |
| ImageUpload.ImagePicker.constructor | EthiopiaMarket/src/components/ImageUpload.jsx:5-8 | the previews start as the given images (empty when there are none), and capacity defaults to 5 |
| ImageUpload.ImagePicker.HandleFileChange | EthiopiaMarket/src/components/ImageUpload.jsx:10-43 | the alert shows exactly when the selection does not fit; the previews become `AfterAdd`; the parent receives the new list exactly when processing succeeded |
| ImageUpload.ImagePicker.RemoveImage | EthiopiaMarket/src/components/ImageUpload.jsx:45-49 | the previews lose that index, and the parent receives the new list |
| ImageUpload.ImagePicker.ShowsAddControl | EthiopiaMarket/src/components/ImageUpload.jsx:71 | the add control shows exactly while there are fewer previews than the capacity |
| RegisterPage.WithField | EthiopiaMarket/src/pages/Register.jsx:23-29 | the edited field takes the typed value, and every other field keeps its own |
| RegisterPage.FirstProblem | EthiopiaMarket/src/pages/Register.jsx:36-49 | the missing-field, then short-password, then mismatch message, each exactly when its check is the first to fail; no message exactly when all pass |
| RegisterPage.BuildPayload | EthiopiaMarket/src/pages/Register.jsx:54-59 | the payload carries name, email and password as typed, and the phone only when one was typed |
| RegisterPage.AcceptedFormMeetsBackendMinimums | EthiopiaMarket/src/pages/Register.jsx:36-59 | a form the page lets through passes the backend's required-field check and password length |
| RegisterPage.ErrorText | EthiopiaMarket/src/pages/Register.jsx:70 | the shown error is the message, else the error, else the fallback, and is never empty |
| RegisterPage.SessionOf | EthiopiaMarket/src/contexts/AuthContext.jsx:23-27 | the session is the returned user with the token merged in |
| RegisterPage.Submit | EthiopiaMarket/src/pages/Register.jsx:31-74 | an invalid form shows its first problem; a valid form is registered exactly when the call exists and resolves, and then holds the returned session; a failure always shows a non-empty message |
| RegisterPage.AsWrittenNeverRegisters | EthiopiaMarket/src/pages/Register.jsx:61 | as written, no form ever registers, and a valid form ends in the TypeError's message |
| RegisterPage.CorrectedRegisters | EthiopiaMarket/src/pages/Register.jsx:61-67 | with an existing register call, a valid form whose call resolves ends signed in with the returned token |
| RegisterPage.RegisterScreen.constructor | EthiopiaMarket/src/pages/Register.jsx:12-21 | the form starts empty, with no error and not loading |
| RegisterPage.RegisterScreen.HandleChange | EthiopiaMarket/src/pages/Register.jsx:23-29 | the typed value goes into its field, and the error clears |
| RegisterPage.RegisterScreen.HandleSubmit | EthiopiaMarket/src/pages/Register.jsx:31-74 | the end is `Submit`'s; the error shown is its message; loading is cleared except after a failed check; the session is set and the page navigates to "/" only on success |

## Left out

- **Outside the code.** Token signing (`generateAuthToken`), bcrypt hashing and comparison, and JWT verification are outside the code shown. They are the `hash`, `verify` and `decode` parameters.
- **Cloudinary.**
  - The upload is a parameter that never fails.
  - Deletions are returned as the list of public ids the handler asks to delete, so their asynchronous and logged failures are not modelled.
  - A create or an update whose body the schema rejects does not delete the images it has already uploaded. For an update, the old images have been sent for deletion by then as well (listingsController.js:146-161, before the validators run at :177-181).
- **Request typing.** Request bodies, query strings and route ids are assumed well typed: body fields are strings, string arrays or the documented objects, and ids are valid ObjectIds. So the model leaves out:
  - `updateListing` with an `images` element that is not a string, such as a stored `{url, publicId}` object: `img.startsWith` throws at listingsController.js:159, after every old `publicId` has been sent for deletion, and the stored listing keeps the deleted images' URLs;
  - the `CastError` every `findById` raises on a malformed `:id`;
  - the `TypeError` of `phone.trim()` on a non-string phone in `register` (authController.js:33), and the like for other non-string fields.
- **Logging, response envelopes and population.**
  - Logging and the `success`/`count` response envelope are not modelled.
  - `populate` of seller fields is not modelled; results carry ids.
  - The `listingsCount` virtual is modelled as a count.
- **Mongoose `$text` search.** It is the `TextSearch` parameter. Its stemming and its relevance rules are not modelled.
- **Timestamps.** The schemas use `timestamps: true`. `createdAt` is the `now` parameter at creation; `updatedAt`, which every save and update rewrites, is not modelled, so "no other field changes" means no other modelled field.
- **Sort ties.** Documents with equal sort keys keep collection order. MongoDB makes no promise about the order of ties.
- **ListingsController.GetListings: sort fields.** Only a single numeric or date field (`createdAt`, `expiresAt`, `views`, `_id`) orders the feed. A sort on a text or boolean field, or on several fields, keeps the matches in stored order (every listing tied) instead of ordering them.
- **Concurrency.**
  - Requests run one at a time.
  - Races between the separate reads and writes of a handler are not modelled: the view counter, OTP attempts, the avatar, and the `previews` closure in the image picker.
- **OTP records.**
  - The 600-second TTL deletion of OTP records (OTP.js:26-30) is a background job of the database and is not modelled.
  - The schema default of `expiresAt` is never used, because `sendOTP` always sets it.
  - The SMS sending (otp.js:48-60) is not modelled. Twilio is outside the code, and its failure would only make `sendOTP` throw after the record is stored.
  - The development-only `otp` field of the response is not modelled.
- **Otp.GenerateOtp.** The draw is assumed below 10^length. `Math.random` floats for lengths above 15 are not modelled.
- **Otp.OtpStore.SendOtp.** It returns the code instead of the response object.
- **AuthController.Register.** It does not model the development-mode 500 rewrite of unexpected errors (authController.js:87-89).
- **Case folding.** Lower-casing and trimming cover ASCII letters and the space, tab, newline and carriage-return characters only. JavaScript's Unicode case folding and white-space set are not modelled.
- **String lengths.** They count Unicode scalar values, not UTF-16 code units.
- **Mock API.**
  - Its artificial delays are not modelled.
  - The seed data (`mockListings`, `mockUsers`) is a constructor argument.
  - `mockUsers` lookups by inherited prototype keys are not modelled.
- **MockApi.NewMockListing.** It takes the random id and the ISO date string as parameters.
- **React rendering and translation.** Rendering, i18n and navigation are out of scope. Navigation is recorded only as the target route in `RegisterScreen`.
- **The create mutation.** The create-listing page's mutation, alerts and error display are out of scope. The model stops at the payload handed to `mutateAsync`.
- **Form details.** For react-hook-form, the model assumes every input keeps its value once its step is left and reports `""` when untouched. Validation runs on the inputs of the current step only, which is how `handleSubmit` treats unmounted inputs.
- **Image processing.** `compressImage` and `FileReader` are the `processed` argument. It is `None` when either throws.
- **Login page and auth context.** `Login.jsx` has the same undefined-export call as `Register.jsx` (`api.loginUser`). It is not part of this model. Of the auth context, only the merge done by `login` is modelled.
- **Other files.** The route files, the rate limiter and the maintenance scripts are not part of this model. The two guard chains in `AuthMiddleware` are the exception.

## Findings

| source | as written | input that shows it | evidently intended | confidence | as-written member | corrected member |
|---|---|---|---|---|---|---|
| backend/controllers/usersController.js:77-79 | the old avatar's public id is taken from the last two URL pieces | any avatar stored under `ethiopia-market/avatars/x.jpg`: the handler asks to delete `avatars/x`, which names no stored image | take the last three pieces, so the id keeps the `ethiopia-market` folder that the upload helper uses | not executed | UsersController.AsWrittenMissesFolder | UsersController.AvatarPublicIdRecovers |
| EthiopiaMarket/src/pages/Register.jsx:61 | `api.registerUser(userData)`, where `api` is the namespace of the mock API module, whose only export is `api` (mockApi.js:89) | any form that passes the page's checks: the call throws a TypeError, whose message is shown, and nobody is registered | call a register function that exists (the backend's `POST /api/auth/register`), then sign in with the returned user and token | not executed | RegisterPage.AsWrittenNeverRegisters | RegisterPage.CorrectedRegisters |
