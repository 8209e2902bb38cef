# Blog post collection: a verified model

This project models the core of a small Next.js/MongoDB blog: the post record
of `models/Post.ts` and the collection endpoint `/api/posts` of
`pages/api/posts/index.ts`, including the one rule `requireAuth` in
`lib/auth.ts` adds (no session means `Unauthorized`).

- `wrappers.dfy`: `Option` and `Result`.
- `post_model.dfy` (module `PostModel`): the `Post` record, the body a client
  sends (every field optional), and `Normalise`, which does what mongoose does
  on `create`. It applies the `trim` setters to `title`, `slug` and `author`,
  using ECMAScript's whitespace set. Then it runs the validators: `required`
  rejects a missing or empty string, and `maxlength` counts UTF-16 code units
  as JavaScript does. Last it fills the defaults (`coverImage` `""`,
  `published` `false`) and the timestamps. The failed validators are reported
  as mongoose's `ValidationError` message. `Violates` states each rule field
  by field, and `FieldErrorsExact` proves that the validators report exactly
  those rules. `Normalise` is idempotent.
- `posts_api.dfy` (module `PostsApi`): the GET filter (`PublishedFilter`,
  `Select`) and the newest-first order (`NewestFirst`). `PostStore` is a class
  holding the collection as a `seq<Post>` and a `clock` that hands out ids and
  timestamps. Its invariant says every stored post conforms to the schema and
  no two posts share a slug. Its methods are `List` (GET), `Create` (POST) and
  `Handle`, which dispatches on the method and answers 405 otherwise.

Inputs the handler gets from outside become parameters: the session is
`Option<UserId>`, the query parameter is `Option<string>`, and a failing store
round-trip is `dbError: Option<string>`, the message of the thrown error.

## Model

| member | source | states |
|---|---|---|
| `PostModel.TrimStart` | models/Post.ts:36 | the result is a suffix of the input that does not start with whitespace, and only whitespace was dropped |
| `PostModel.TrimEnd` | models/Post.ts:36 | the result is a prefix of the input that does not end with whitespace, and only whitespace was dropped |
| `PostModel.Trim` | models/Post.ts:36 | the `trim` setter leaves no whitespace at either end and never lengthens a string |
| `PostModel.TrimKeepsMiddle` | models/Post.ts:36 | the trimmed value is the input with a whitespace prefix and a whitespace suffix removed and nothing else changed |
| `PostModel.TrimIdempotent` | models/Post.ts:36 | trimming a trimmed value changes nothing |
| `PostModel.TrimOfTrimmed` | models/Post.ts:43 | a value with no whitespace at either end is stored as given |
| `PostModel.TrimEmptyIffBlank` | models/Post.ts:35-36 | a value trims to the empty string exactly when it is all whitespace, so a blank title, slug or author fails `required` |
| `PostModel.Utf16Length` | models/Post.ts:37 | `maxlength` counts JavaScript string length: between one and two units per code point |
| `PostModel.Utf16LengthIsSize` | models/Post.ts:52 | the JavaScript length equals the code-point count exactly when no code point lies above U+FFFF |
| `PostModel.PathErrors` | models/Post.ts:33-37 | one path yields at most one error: `required` when the value is missing or empty, else `maxlength` when it is too long |
| `PostModel.FieldErrors` | models/Post.ts:31-70 | validation reports no error exactly when the body is admissible (all five required fields non-empty after the setters, title at most 200 and excerpt at most 300 units) |
| `PostModel.FieldErrorsExact` | models/Post.ts:33-58 | an error is reported for a path and rule exactly when the body breaks that rule: missing or empty title, slug, content, excerpt or author; title over 200 after trimming; excerpt over 300 untrimmed |
| `PostModel.Normalise` | models/Post.ts:31-75 | `create` accepts exactly the admissible bodies; on success title, slug and author are stored trimmed, content and excerpt as given, coverImage defaults to "" and published to false, authorId is copied, and the id and both timestamps come from the store (see "Left out" for ids and timestamps a body supplies); on failure the validation errors are returned |
| `PostModel.NormalisedConforms` | models/Post.ts:33-58 | every accepted record conforms to the schema: non-empty trimmed title of at most 200, non-empty trimmed slug and author, non-empty content, non-empty excerpt of at most 300 |
| `PostModel.NormaliseIdempotent` | models/Post.ts:33-58 | normalising an accepted record again returns it unchanged |
| `PostModel.ConformingRecordAccepted` | models/Post.ts:33-58 | every conforming record is accepted exactly as it is |
| `PostModel.ExcerptKeepsWhitespace` | models/Post.ts:49-53 | the excerpt is not trimmed: an all-space excerpt is accepted and stored unchanged |
| `PostModel.ContentUnbounded` | models/Post.ts:45-48 | content has no length bound: any non-empty content in an otherwise admissible body is accepted and stored as given |
| `PostModel.ErrorTextIdentifiesError` | models/Post.ts:35-56 | the validators' messages (the schema's texts, and mongoose's default for `slug`) are distinct for distinct reportable errors, so each message names the path and rule that failed |
| `PostModel.ValidationMessage` | models/Post.ts:77 | the rejection message starts with "Post validation failed: " and then names the first failed path and its message |
| `PostsApi.RequireAuth` | lib/auth.ts:12-18 | no session fails with "Unauthorized"; otherwise the session's user is returned |
| `PostsApi.PublishedFilter` | pages/api/posts/index.ts:14-19 | an absent parameter means no filter; a present one filters on `published == (value == "true")` |
| `PostsApi.Select` | pages/api/posts/index.ts:21 | `find(filter)` returns each stored post that matches, as often as it is stored, and every post when there is no filter |
| `PostsApi.InsertByDate` | pages/api/posts/index.ts:22 | inserting a post into a list adds exactly that post, and it lands at the front or after the list's first post |
| `PostsApi.InsertByDateOrdered` | pages/api/posts/index.ts:22 | inserting into a newest-first list keeps it newest first |
| `PostsApi.NewestFirst` | pages/api/posts/index.ts:22 | `sort({ createdAt: -1 })` gives a permutation of its input with non-increasing `createdAt` |
| `PostsApi.Listing` | pages/api/posts/index.ts:14-23 | GET data is newest first and holds each stored post the query selects, as often as it is stored, and no other |
| `PostsApi.ListingUnfiltered` | pages/api/posts/index.ts:14-21 | with no `published` parameter GET lists every stored post |
| `PostsApi.NonTrueListsUnpublished` | pages/api/posts/index.ts:17-18 | "false" and every other value except "true" list the same posts: exactly the unpublished ones |
| `PostsApi.InsertKeepsSlugsUnique` | models/Post.ts:41-42 | inserting a post whose slug is free keeps slugs unique, and the slug is taken afterwards |
| `PostsApi.InsertKeepsInvariant` | models/Post.ts:31-75 | an insert of a conforming post with a free slug, stamped by the clock, keeps the collection invariant |
| `PostsApi.DuplicateSlugMessage` | models/Post.ts:42 | a duplicate slug is rejected by the unique index with an E11000 duplicate-key message |
| `PostsApi.CreateErrorsAreNotUnauthorized` | pages/api/posts/index.ts:39-43 | neither a validation error nor a duplicate-key error has the message "Unauthorized", so both map to 400 |
| `PostsApi.CreateResult` | pages/api/posts/index.ts:34-37 | `Post.create` succeeds exactly when the body is admissible, the store does not fail and the trimmed slug is free; the stored post is the normalised body, conforms to the schema and carries the trimmed slug; otherwise it fails with the validation message, the store's message, or the duplicate-key message, and only a store error can read "Unauthorized" |
| `PostsApi.PostStore.List` | pages/api/posts/index.ts:12-29 | GET answers 200 with the listing, which is newest first, holds exactly the selected stored posts, and holds all of them when unfiltered; a failed query answers 400 with its message |
| `PostsApi.PostStore.Insert` | pages/api/posts/index.ts:34-37 | storing a conforming post with a free slug, stamped by the clock, appends it, advances the clock and keeps the collection invariant |
| `PostsApi.PostStore.Create` | pages/api/posts/index.ts:31-45 | no session gives 401 "Please sign in to create a post" and changes nothing. Otherwise the body, with `authorId` overwritten by the session user, goes to `Post.create` (`CreateResult`): on success the answer is 201 with that post, which is appended and owned by the session user, and the clock advances; on failure the store is unchanged and the answer is 401 "Please sign in to create a post" when the message is "Unauthorized", else 400 with the message. The collection invariant is kept |
| `PostsApi.PostStore.Handle` | pages/api/posts/index.ts:6-49 | GET answers as `List` and never changes the store. POST answers as `Create`: 401 "Please sign in to create a post" without a session; otherwise 201 with the normalised body appended, owned by the session user, and the clock advanced exactly when `CreateResult` succeeds, else 400 with the validation, store or duplicate-key message (401 when that message is "Unauthorized") and the store unchanged. Any other method answers 405 with `Allow: GET, POST` and "Method X not allowed" and changes nothing |
| `PostsApi.DuplicateSlugRejected` | pages/api/posts/index.ts:31-45 | creating two posts with the same slug stores the first, owned by the first user, and rejects the second with 400 |

## Left out

- Connecting to the database (`connectDB`, pages/api/posts/index.ts:10) is I/O. A failure there happens outside the `try` blocks and is not modelled. Failures of `find` and of the insert are the `dbError` parameter.
- Resolving the session (`getServerSideSession`, lib/auth.ts:5-10) calls next-auth. The session is an input, `Option<UserId>`.
- mongoose type casting is not modelled. The body has typed optional fields, so the model does not cover `null` values, non-string values, strict-mode removal of unknown fields, or casting the session id to an ObjectId (an id that is not a valid ObjectId would fail with 400).
- `_id` generation and the real `Date` timestamps are replaced by a counter. `.lean()` and JSON serialisation of the response are not modelled.
- `PostModel.Normalise`: the handler spreads the whole request body into `Post.create`, and mongoose keeps an `_id` or a `createdAt` the body supplies (it fills `createdAt` only when unset and copies it into `updatedAt` on a new document). The model's body has no such fields: the id and both timestamps always come from the store's clock. So the model does not capture a client choosing its post's place in the newest-first listing, posts tying on a chosen `createdAt`, or an insert failing on a chosen duplicate `_id`; `PostsApi.StoreInvariant`'s ordering of ids and timestamps holds only for this model.
- Strings are sequences of Unicode scalar values. A JSON body can carry a lone surrogate (`"\ud800"`), which JavaScript counts as one code unit in `maxlength` and keeps through `trim`; such strings are not modelled.
- `PostStore`: one request at a time. Concurrent requests are not modelled, including two concurrent inserts with the same slug.
- A `published` query value that arrives as an array, and a request with no method, are not modelled.
- `PostModel.ValidationMessage`: failed paths are listed in schema order; mongoose's own order is the order in which its validators finish.
- `PostsApi.DuplicateSlugMessage`: only the shape of the driver's E11000 message is modelled. The `<database>.posts` namespace is a store constructor argument, and JSON escaping of the slug is not modelled.
- `PostsApi.NewestFirst`: posts with equal `createdAt` come out in one fixed order. The store promises no order for ties. In the model, posts inserted through `PostStore` never tie, because the clock stamps every insert; with the real handler a client-supplied `createdAt` can make posts tie (see the `PostModel.Normalise` line).
- `updatedAt` changes only when a post is updated, and that happens in the per-slug handler, which is not part of this model. That handler's read, update and delete operations and its author-or-admin rule are also not part of this model.
- The React pages and components, and the `lib/utils` helpers they call (`generateSlug`, `formatDate`), are not part of this model.
