# Library backend: books, permissions and authentication

This project models the core of a NestJS/Prisma backend for a book catalogue (TypeScript).

Books go through a moderated lifecycle:
- an author creates a DRAFT and submits it (UNAPPROVED);
- a moderator approves it (VISIBLE) or rejects it (back to DRAFT);
- an archivist archives it (ARCHIVED) or unarchives it;
- only an ARCHIVED book can be deleted.

The public listing takes a small search language: `;`-separated segments, each `AUTHOR:x`, `GENRE:x`, `DESC:words` or plain title words. Access is decided by a CASL grant table per permission, with ADMIN as the superuser role. Every endpoint is bound to an action and a subject hook. Authentication issues refresh tokens, stores them by hash with an expiry, and binds access tokens to them. Tokens issued before a user's last reset are revoked.

The model has one module per source file, plus three shared modules:
- `Base` holds errors, `Option`, `Result`, `Outcome` and the UUID shape.
- `Entities` holds the Prisma records.
- `Text` holds the JavaScript string operations with their edge cases: `split`, `trim`, the first-match `replace`, case mapping, `split(/\P{L}+/u)` and UTF-16 length.

The other modules:
- `Search` models the search language.
- `BooksService` models the service: value-level functions, and a `BookStore` class over the tables `books`, `tags` and `files`, whose methods change them.
- `BooksPermissions` holds the grant table.
- `CaslConfig` holds the superuser role, the request-to-actor mapping and the access guard's decision.
- `BooksHook` holds the subject hooks.
- `BooksController` holds the endpoint bindings, and lemmas that compose the guards with the service.
- `AuthService` has value-level checks, and an `AuthStore` class over `users` and `tokens`.
- `IsAdminGuard` and `BearerToken` hold the two small decision functions.

Parameters stand in for what the code does not compute itself:
- the database's fresh ids, the bcrypt salt, and the clock: each reading of `Date.now()` is its own parameter (`nowMs`, or `signMs`, `checkMs` and `accessMs` in `login` and `refresh`), and no order between readings is assumed;
- the Unicode letter class and case maps (`Text.Unicode`);
- the outcomes of bcrypt, SHA-256 and JWT signing/decoding (`AuthService.Crypto`).

The round-trip properties of these primitives are hypotheses (`AuthService.Sound`), never axioms.

A few consequences of the code are proved rather than assumed:
- `submit` is guarded by `create`, so any CREATE holder can submit another user's DRAFT (`BooksController.SubmitForeignDraft`).
- The owner's grant to delete a DRAFT passes the guard, but the service refuses the delete (`BooksController.OwnDraftDeleteRefused`).
- `login` reads the clock to sign the refresh token and again to check it. A fresh refresh token logs in exactly when the check comes no later than the token's expiry. Because the signing second is rounded down, a check at most the lifetime less one second after signing always passes. With a one-second lifetime, only a check in the same millisecond is guaranteed (`AuthService.AuthStore.Login`).

## Model

| member | source | states |
|---|---|---|
| Text.LowerStr | src/books/books.service.ts:98 | lower-casing keeps the length and maps each character by the case table |
| Text.UpperStr | src/books/books.service.ts:98 | upper-casing keeps the length and maps each character by the case table |
| Text.TrimStartSpec | src/books/books.service.ts:104 | the result is a suffix, all removed characters are whitespace, and it does not start with whitespace |
| Text.TrimEndSpec | src/books/books.service.ts:104 | the result is a prefix, all removed characters are whitespace, and it does not end with whitespace |
| Text.TrimSpec | src/books/books.service.ts:104 | the result is an infix with only whitespace around it, and neither end of it is whitespace |
| Text.Split | src/books/books.service.ts:102-103 | splitting on a character gives at least one piece, none containing the separator |
| Text.JoinSplit | src/books/books.service.ts:102-103 | joining the pieces of a split gives back the string |
| Text.SplitJoin | src/books/books.service.ts:102-103 | splitting a join of separator-free pieces gives back the pieces |
| Text.SplitPiece | src/books/books.service.ts:97 | a string without the separator splits into itself |
| Text.SplitPrefix | src/books/books.service.ts:97 | splitting `p + sep + rest` gives `p` followed by the pieces of `rest` |
| Text.IndexOf | src/auth/decorators/auth-token.decorator.ts:15 | the result is the first position at or after `from` where the pattern occurs, or -1 when there is none |
| Text.ReplacePrefix | src/auth/decorators/auth-token.decorator.ts:14-15 | when the string starts with the pattern, replacing its first occurrence by nothing drops exactly the prefix |
| Text.Words | src/books/books.service.ts:118 | splitting on runs of non-letters gives at least one piece, each made only of letters |
| Text.WordsOfJoin | src/books/books.service.ts:118 | every non-letter ends a word: words of letters joined by a non-letter split back into exactly those words (inner words non-empty, the first and last possibly empty) |
| Text.WordsRun | src/books/books.service.ts:118 | a run of non-letters of any length is one break: it splits exactly as a single non-letter does |
| Text.DropRun | src/books/books.service.ts:118 | a whole leading run of non-letters is dropped |
| Text.WordsLetterPrefix | src/books/books.service.ts:118 | letters in front of a text only lengthen its first word |
| Text.WordsOfLetters | src/books/books.service.ts:118 | a text made only of letters is one word |
| Text.DropNonLetters | src/books/books.service.ts:118 | the leading run of non-letters is removed and the rest starts with a letter |
| Text.WordsKeepLetters | src/books/books.service.ts:140 | the pieces, concatenated, are exactly the letters of the text in order |
| Text.LettersSkip | src/books/books.service.ts:140 | dropping a run of non-letters keeps the letters |
| Text.Utf16LengthBounds | src/auth/auth.service.ts:43 | the length in code units lies between the character count and twice it, and equals the character count in the Basic Multilingual Plane |
| Search.TrimNoSep | src/books/books.service.ts:104 | trimming cannot introduce a separator |
| Search.SegmentsAreTrimmedPieces | src/books/books.service.ts:102-105 | every non-blank trimmed piece is a segment, and every segment is a non-blank trimmed piece |
| Search.SegmentsAreClean | src/books/books.service.ts:102-105 | every cleaned segment is non-empty, separator-free and has no whitespace at either end |
| Search.QuerySegmentsClean | src/books/books.service.ts:102-105 | a query's segments are non-empty, free of `;` and not surrounded by whitespace |
| Search.QuerySegmentsArePieces | src/books/books.service.ts:102-105 | a query's segments are exactly the trimmed non-blank pieces between its semicolons |
| Search.MatchesAppend | src/books/books.service.ts:151-154 | AND over two condition lists is the conjunction of the AND over each list |
| Search.ConditionsOfFails | src/books/books.service.ts:111-115 | a segment list fails, with BadRequest, exactly when some segment has a colon and does not parse as `key:value` with a known key |
| Search.ConditionsOfMeaning | src/books/books.service.ts:111-154 | the accumulated conditions hold of a book exactly when every segment's conditions hold |
| Search.QueryFails | src/books/books.service.ts:111-115 | the condition list of a query fails, with BadRequest, exactly when some segment is malformed |
| Search.QueryMeaning | src/books/books.service.ts:107-154 | the condition list starts with `state = VISIBLE` and selects exactly the VISIBLE books satisfying every segment |
| Search.TagSegment | src/books/books.service.ts:126-137 | a tag segment adds exactly one condition: a tag of that type whose name equals the lower-cased value, ignoring case |
| Search.DescSegment | src/books/books.service.ts:117-125 | a DESC segment adds one description-contains condition per word of its value, AND-ed |
| Search.TitleSegment | src/books/books.service.ts:139-147 | a colon-free segment adds one title-contains condition per word, AND-ed |
| Search.ConditionsOfSnoc | src/books/books.service.ts:111-149 | one more segment appends that segment's conditions, or fails |
| Search.ConditionsOfPrefixFails | src/books/books.service.ts:113-115 | once a prefix of the segments fails, the whole query fails |
| BooksService.FindById | src/books/books.service.ts:51-64 | found exactly when the id is a UUID with a record; a malformed id is BadRequest, a missing one NotFound |
| BooksService.StepSpec | src/books/books.service.ts:279-349 | each transition succeeds exactly from its source state, lands on a different target state, and otherwise fails with BadRequest |
| BooksService.Undo | src/books/books.service.ts:293-305 | unarchive undoes archive, and reject undoes submit |
| BooksService.PublishedOnlyAfterApproval | src/books/books.service.ts:307-335 | a DRAFT or UNAPPROVED book reaches VISIBLE or ARCHIVED only through an approve |
| BooksService.Connect | src/books/books.service.ts:227 | the connect list holds exactly the new tags that the book does not already carry |
| BooksService.TagDiff | src/books/books.service.ts:224-228 | after the disconnects and connects the book carries exactly the new tags; connects are all new, disconnects are all absent from the list, and shared tags stay |
| BooksService.UpdateSpec | src/books/books.service.ts:218-245 | an omitted tag list leaves the tags alone and a given one becomes the tag set; the registry only grows and covers the new tags; id, state and owner are kept |
| BooksService.Moved | src/books/books.service.ts:279-349 | a transition succeeds exactly when the book exists and is in the source state; the result differs only in its state; otherwise the lookup error or BadRequest |
| BooksService.Removed | src/books/books.service.ts:351-355 | a delete succeeds exactly when the book exists and is ARCHIVED; otherwise the lookup error or BadRequest |
| BooksService.StoreUpload | src/files/files.service.ts:21-39 | after an upload the slot's new file is present, the other files of that slot are gone, and all other files stay |
| BooksService.FileOf | src/books/books.service.ts:209-216 | a null or empty book file is NotFound, a lookup error propagates, and otherwise the file name is returned |
| BooksService.PushSegment | src/books/books.service.ts:111-148 | the loop body appends exactly the segment's conditions to the list, or fails with BadRequest |
| BooksService.BookStore.Create | src/books/books.service.ts:66-90 | the new book is a DRAFT owned by the creator, has no files and carries the given tags; the registry gains the missing tags; only that book is added |
| BooksService.BookStore.FindAllVisible | src/books/books.service.ts:92-159 | the result is exactly the stored books that match the query's conditions, all VISIBLE, or BadRequest for a malformed segment |
| BooksService.BookStore.FindAllVisibleIn | src/books/books.service.ts:107-158 | the loop builds exactly the condition list of the segments and selects the books that match it |
| BooksService.BookStore.FindFileByProxy | src/books/books.service.ts:209-216 | the file of an existing book with a non-empty file name, NotFound when that name is null or empty, otherwise the lookup error |
| BooksService.BookStore.Update | src/books/books.service.ts:218-245 | a lookup error changes nothing; otherwise only that book is rewritten, with the given fields and the tag diff, and the registry gains the connected tags |
| BooksService.BookStore.StoreFile | src/books/books.service.ts:247-277 | the book's file field of that slot names the upload; its files are replaced in that slot; a lookup error changes nothing |
| BooksService.BookStore.ChangeCover | src/books/books.service.ts:247-261 | the cover field names the upload and the old cover files are replaced; a lookup error changes nothing |
| BooksService.BookStore.ChangeFile | src/books/books.service.ts:263-277 | the book-file field names the upload and the old book files are replaced; a lookup error changes nothing |
| BooksService.BookStore.Move | src/books/books.service.ts:279-349 | the store keeps its invariant and only the state of that one book changes, exactly when the transition applies; otherwise nothing changes |
| BooksService.BookStore.Delete | src/books/books.service.ts:351-362 | only an ARCHIVED book is removed, with all its files, and is then NotFound; otherwise nothing changes |
| BooksService.EmptyQuery | src/books/books.service.ts:92-110 | the empty query has no segments and lists every VISIBLE book |
| BooksService.Listings | src/books/books.service.ts:161-195 | pending books are exactly the stored UNAPPROVED ones, archived books exactly the ARCHIVED ones, and drafts are the caller's stored books in DRAFT or UNAPPROVED, never VISIBLE or ARCHIVED, and include every caller's DRAFT; pending and archived never overlap, and a caller's UNAPPROVED book is both a draft and pending |
| BooksPermissions.EveryKeyListed | src/books/books.permissions.ts:19-82 | every key of the table is enumerated |
| BooksPermissions.GrantWitness | src/books/books.permissions.ts:19-82 | one permitting rule of a held key makes the ability pass |
| BooksPermissions.RuleWitness | src/books/books.permissions.ts:19-82 | one relevant rule of a held key makes the subject-type check pass |
| BooksPermissions.RuleInTable | src/books/books.permissions.ts:24-81 | each rule permits only what its action's row of the table says |
| BooksPermissions.CanTable | src/books/books.permissions.ts:19-82 | the decision on a book, action by action, is exactly the table: everyone reads VISIBLE and reads, updates or deletes their own DRAFT; CREATE creates; APPROVE reads and approves UNAPPROVED; ARCHIVE (and DELETE) read ARCHIVED, archive VISIBLE and unarchive ARCHIVED; DELETE deletes ARCHIVED; EDIT reads and updates UNAPPROVED and updates VISIBLE |
| BooksPermissions.CanOnTypeTable | src/books/books.permissions.ts:19-82 | the actions some rule of the actor names, read from the table |
| BooksPermissions.ConditionalTable | src/books/books.permissions.ts:41-43 | the only unconditional rule is CREATE's `create` |
| BooksPermissions.Monotone | src/books/books.permissions.ts:19-82 | only `can` rules: more roles never turn an allow into a deny |
| BooksPermissions.DeleteExtendsArchive | src/books/books.permissions.ts:64-69 | DELETE's rules are ARCHIVE's rules followed by `delete` on ARCHIVED |
| BooksPermissions.DeleteSubsumesArchive | src/books/books.permissions.ts:54-69 | whatever ARCHIVE allows, DELETE in its place allows too, and DELETE adds only `delete` on ARCHIVED books |
| BooksPermissions.NoUpdateOfArchivedOrForeignDraft | src/books/books.permissions.ts:71-81 | no role permits `update` on an ARCHIVED book or on a DRAFT the actor does not own |
| BooksPermissions.EveryoneRules | src/books/books.permissions.ts:24-39 | without roles an actor may read VISIBLE books and read, update or delete only their own DRAFTs |
| CaslConfig.ActorOf | src/app.module.ts:31-40 | a user maps to its id and exactly its permissions; no user maps to `unauthenticated` with no roles |
| CaslConfig.SuperuserPasses | src/app.module.ts:30 | ADMIN passes every ability on every subject |
| CaslConfig.GuardOnSubject | src/app.module.ts:28-41 | on a resolved subject the guard passes exactly for the superuser or when the table permits, and otherwise gives Forbidden |
| CaslConfig.GuardOnMissingSubject | src/books/books.hook.ts:43-44 | for a non-superuser a failing subject hook's error is the guard's error, except for `create` by a CREATE holder |
| CaslConfig.AnonymousActor | src/app.module.ts:37-40 | an anonymous actor has no roles, gets only the rules for everyone, and its id is not a UUID |
| BooksHook.ReadyData | src/books/books.hook.ts:18-19 | the object form is used as given; the function form is applied to the request's user and fails without one |
| BooksHook.Subject | src/books/books.hook.ts:9-47 | the route-id hook is the lookup of the route id; the synthetic hook is the spread of the ready data, or its failure |
| BooksHook.SynthesizeFields | src/books/books.hook.ts:20-29 | the synthetic subject carries the supplied state; each supplied field overrides its default and each absent field takes it |
| BooksHook.SynthesizeRoundTrip | src/books/books.hook.ts:20-29 | spreading a complete record gives it back; spreading only a state gives the default record in that state |
| BooksHook.SyntheticIdInvalid | src/books/books.hook.ts:21 | a synthetic subject without a supplied id does not have a stored book's id shape |
| BooksHook.RouteIdMissing | src/books/books.hook.ts:35-47 | a UUID route id with no record gives NotFound, a malformed one BadRequest |
| BooksController.RouteGuard | src/books/books.controller.ts:115-126 | for a route-id endpoint: ADMIN passes; `create` with CREATE passes; otherwise a lookup error surfaces; otherwise the table decides, or Forbidden |
| BooksController.ListingUnguarded | src/books/books.controller.ts:49-58 | the public listing is always admitted |
| BooksController.AuthenticationRequired | src/books/books.controller.ts:60-74 | every guarded endpoint that is not public refuses a caller without a user with Unauthorized |
| BooksController.SharedGuards | src/books/books.controller.ts:168-257 | approve and reject are guarded alike; so are update, setCover and setFile, and findOne, findCover and findFile |
| BooksController.SameBinding | src/books/books.controller.ts:115-295 | admission depends only on the endpoint's binding and whether it is public |
| BooksController.AnonymousRead | src/books/books.controller.ts:115-126 | an anonymous fetch gets the lookup error for a missing book, and passes exactly for VISIBLE books or DRAFTs owned by `unauthenticated` |
| BooksController.AnonymousReadsVisible | src/books/books.controller.ts:115-166 | when every owner id is a UUID, an anonymous caller can fetch exactly the VISIBLE books |
| BooksController.CreateGuard | src/books/books.controller.ts:102-113 | `create` passes exactly for an authenticated ADMIN or CREATE holder |
| BooksController.SubmitGuard | src/books/books.controller.ts:220-231 | `submit`, guarded by `create`, passes for an authenticated caller exactly when they hold ADMIN or CREATE, whatever the book |
| BooksController.SubmitForeignDraft | src/books/books.controller.ts:225 | a CREATE holder is admitted to submit any existing DRAFT, whoever owns it, and the transition succeeds |
| BooksController.ListingGuards | src/books/books.controller.ts:60-100 | drafts pass for every authenticated caller; pending needs ADMIN, APPROVE or EDIT; archived needs ADMIN, ARCHIVE or DELETE |
| BooksController.FetchStored | src/books/books.controller.ts:115-126 | `findOne` on a stored book passes exactly for ADMIN or when the table lets the caller read it |
| BooksController.ListedBooksFetchable | src/books/books.controller.ts:60-126 | a caller admitted to the pending or archived listing can fetch every listed book by id; a listed draft is fetchable by its owner exactly when it is a DRAFT or the owner holds ADMIN, APPROVE or EDIT |
| BooksController.DeleteNeedsRole | src/books/books.controller.ts:285-295 | an admitted and successful delete was made by an authenticated ADMIN or DELETE holder |
| BooksController.OwnDraftDeleteRefused | src/books/books.controller.ts:289 | the owner is admitted to delete their DRAFT, but the service refuses it with BadRequest |
| BooksController.ModerationNeedsRole | src/books/books.controller.ts:233-283 | an admitted and successful approve or reject came from ADMIN or APPROVE; archive or unarchive from ADMIN, ARCHIVE or DELETE |
| BooksController.ApprovalNeedsRole | src/books/books.controller.ts:233-257 | an approve or reject admitted on an existing book came from ADMIN or APPROVE |
| BooksController.ArchivalNeedsRole | src/books/books.controller.ts:259-283 | an archive or unarchive admitted on an existing book came from ADMIN, ARCHIVE or DELETE |
| BooksController.UpdateNeedsRole | src/books/books.controller.ts:168-179 | an admitted update came from ADMIN, the owner of a DRAFT, or an EDIT holder on an UNAPPROVED or VISIBLE book |
| AuthService.UserNamed | src/users/users.service.ts:17-19 | the unique user with that username, or none exactly when no user has it |
| AuthService.PasswordAccepted | src/auth/auth.service.ts:43-45 | the API's example password satisfies the pattern |
| AuthService.PasswordNeedsUpper | src/auth/auth.service.ts:43 | every password without an ASCII upper-case letter is refused |
| AuthService.PasswordNeedsLower | src/auth/auth.service.ts:43 | every password without an ASCII lower-case letter is refused |
| AuthService.PasswordNeedsDigit | src/auth/auth.service.ts:43 | every password without a decimal digit is refused |
| AuthService.PasswordNeedsLength | src/auth/auth.service.ts:43 | every password shorter than 8 UTF-16 code units is refused, and so is every one of fewer than 4 characters, or of fewer than 8 characters of the Basic Multilingual Plane |
| AuthService.PasswordSufficient | src/auth/auth.service.ts:43 | every password of at least 8 characters, without line terminators, with an ASCII upper-case letter, an ASCII lower-case letter and a digit is accepted |
| AuthService.ValidateUser | src/auth/auth.service.ts:53-59 | a user is returned exactly when its name exists and the password matches its stored hash |
| AuthService.Parse | src/auth/entities/auth.entity.ts:4-14 | a payload parses exactly when present with a UUID subject (and a refresh hash for the auth schema); the token schema strips the refresh hash; a failure is an unmapped error |
| AuthService.Issue | src/auth/auth.service.ts:73-76 | issued-at is the clock in whole seconds rounded down, and the expiry is issued-at plus the lifetime |
| AuthService.CheckRefresh | src/auth/auth.service.ts:128-139 | Forbidden exactly when the hash has no record or the clock is past its expiry; the expiry instant is accepted |
| AuthService.Refresh | src/auth/auth.service.ts:109-139 | an access token exactly when the refresh hash validates at the check instant, signed at the signing instant for the user with that hash; otherwise Forbidden |
| AuthService.Upsert | src/auth/auth.service.ts:82-92 | the key is present afterwards; an existing record is unchanged; a new key gets the new record; nothing else changes |
| AuthService.ValidatePayload | src/auth/auth.service.ts:141-158 | a parse failure is an unmapped error; a missing user is Unauthorized; a last reset after issued-at is Unauthorized; otherwise the user |
| AuthService.Revocation | src/auth/auth.service.ts:154-156 | a payload of an existing user passes exactly when their last reset is not after issued-at, and a later reset revokes it |
| AuthService.FreshRecordAccepted | src/auth/auth.service.ts:73-93 | a refresh record stored when signed validates at a later check exactly when the check is no later than the signing second plus the lifetime, and always when it comes at most the lifetime less one second after signing |
| AuthService.AccessTokenValidates | src/auth/auth.service.ts:109-158 | with sound primitives, an access token from `refresh` passes `validatePayload` exactly when its user has not reset since it was issued |
| AuthService.AuthStore.Register | src/auth/auth.service.ts:37-51 | a taken name is Conflict and is checked first; a password outside the pattern is BadRequest; otherwise exactly one user is added with the bcrypt hash, and with sound primitives it then validates |
| AuthService.AuthStore.Login | src/auth/auth.service.ts:66-98 | an unknown name is Unauthorized with no change; otherwise the record is upserted under the token's hash with expiry `exp*1000` and the result is that of `refresh`; with sound primitives, a new token logs in exactly when the expiry check comes no later than its expiry, and always when it comes at most the lifetime less one second after signing; the user table is unchanged |
| AuthService.AuthStore.Logout | src/auth/auth.service.ts:100-107 | an unparsable token or a missing record is an unmapped error with no change; otherwise exactly the record of the token's refresh hash is removed and no longer validates |
| IsAdminGuard.Outcomes | src/auth/guards/is-admin.guard.ts:15-26 | no user is Unauthorized, a user without ADMIN is Forbidden, ADMIN gives true, and the guard never returns false |
| IsAdminGuard.AgreesWithSuperuser | src/auth/guards/is-admin.guard.ts:19-25 | the guard admits exactly the authenticated superusers, who pass every ability |
| BearerToken.BearerAuthToken | src/auth/decorators/auth-token.decorator.ts:7-21 | every refusal is BadRequest |
| BearerToken.BearerSpec | src/auth/decorators/auth-token.decorator.ts:13-15 | accepted exactly when the header is text starting with `Bearer `, and the token is the header without its first 7 characters |
| BearerToken.RoundTrip | src/auth/decorators/auth-token.decorator.ts:14-15 | `Bearer ` + t yields t, even when t contains the prefix; every accepted header is the prefix followed by its token |
| BearerToken.Refused | src/auth/decorators/auth-token.decorator.ts:12-20 | a missing, non-string or lower-case `bearer ` header is BadRequest |

## Left out

- `seed` (src/books/books.service.ts:364-480) is left out: it does HTTP downloads, file reads and timed concurrency.
- Files are modelled as a set of names per book id, with the unlink-and-write of `setFile` and the clear of `deleteAll`. Streams, paths, MIME types and the disk are left out.
- `findByProxy` and `findCoverByProxy` (src/books/books.service.ts:197-207) are left out. They return the fetched book or stream its cover, and that is modelled only through the subject lookup. The three-argument call `getFile(name, res, title)` also does not match the four-parameter `getFile(id, filename, res, disposition)`.
- Prisma error codes other than P2023 (malformed UUID, BadRequest) and P2025 (missing record, NotFound) are left out. Any other database error is `Internal`. `ValidId` accepts the hyphenated UUID spelling only.
- The unawaited delete and the file removal, and the read-then-write between the proxy fetch and an update, are modelled as sequential steps. Their ordering and races are left out.
- The order of listing results is left out: listings are sets.
- Case mapping and the letter class are abstract per-character maps in `Text.Unicode`. Multi-character case mappings such as `ß` to `SS` are left out.
- `mode: 'insensitive'` is modelled as comparing lower-cased text.
- The access guard belongs to the nest-casl library, which is not part of this model. `CaslConfig.AccessGuard` follows that library's documented order:
  - the superuser passes;
  - a check on the subject type is made when the ability has no subject hook, or when some relevant rule is unconditional;
  - otherwise the hook runs, and its error is the guard's error;
  - a denial is Forbidden.
- `JwtAuthGuard` and the `@Public` decorator are not part of this model. Non-public endpoints are assumed to refuse a request without a user with Unauthorized. Public endpoints pass the request's user, if any, through.
- The function form of `book(data)` without a request user is modelled as a server fault (`Internal`), as the TypeError it raises.
- The host of the `BookProxy` is left out. Its `get()` is the `bookId()` lookup of the route id, which every guarded handler uses.
- bcrypt, SHA-256 and JWT are opaque functions. JWT verification is left out: so are secrets checking signatures, and expiry checks of access tokens by the passport strategies.
- A decoded payload is modelled as claims whose `iat` and `exp` are integers. Payloads with missing or non-integer times are left out.
- `src/config/config.service.ts` does not declare the JWT secrets, lifetimes or file path the services read. The model takes them as the `AuthService.Config` parameter.
- `users.service.ts` has no `findOneOrThrow`. `validatePayload` is modelled as if it threw NotFound for a missing id.
- `auth.controller.ts` and `local.strategy.ts` are left out. They call service members that do not exist, or use signatures other than the service's.
- Making the first registered user an ADMIN is left out: no code shown does it. The permissions and `lastTokenReset` of a new user are the database defaults. The model takes them as the store's `defaultPermissions` and the `nowMs` parameter.
- The division `lastTokenReset / 1000` in floating point is modelled exactly, in integer milliseconds (`lastTokenResetMs > iat * 1000`).
- `AuthService.UserNamed`: requires the unique-username index (`Keyed`), which the database enforces.
- `BooksService.BookStore.FindAllDrafts`, `FindAllPendingApproval` and `FindAllArchived` carry no `ensures` of their own. `BooksService.Listings` states which books each holds, and `BooksController.ListedBooksFetchable` relates them to the read policy.
- The tag types are AUTHOR and GENRE, the keys that `src/books/books.service.ts` names. The Prisma schema that defines the enumeration is not part of this model.
- `IsAdminGuard.CanActivate` carries no `ensures` of its own. Its contract is `IsAdminGuard.Outcomes`.
