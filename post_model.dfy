/** The post record of models/Post.ts: its fields, the setters (trim), the
    validators (required, maxlength) and the defaults that mongoose applies
    when a post is created from a request body. */
module PostModel {
  import opened Wrappers

  /** The session user's id, as the handler copies it into `authorId`. */
  type UserId = string

  /** A stored post. `id` stands for the store-assigned `_id`; `createdAt` and
      `updatedAt` are the schema's automatic timestamps, drawn from a counter. */
  datatype Post = Post(
    id: nat,
    title: string,
    slug: string,
    content: string,
    excerpt: string,
    author: string,
    authorId: Option<UserId>,
    coverImage: string,
    published: bool,
    createdAt: nat,
    updatedAt: nat)

  /** A candidate record as it reaches `create`: every field may be absent. */
  datatype PostBody = PostBody(
    title: Option<string>,
    slug: Option<string>,
    content: Option<string>,
    excerpt: Option<string>,
    author: Option<string>,
    authorId: Option<UserId>,
    coverImage: Option<string>,
    published: Option<bool>)

  /** The schema paths that carry validators. */
  datatype Path = Title | Slug | Content | Excerpt | Author

  /** The two kinds of validator the schema uses. */
  datatype Rule = Required | MaxLength

  /** One failed validator: the schema path and the rule it broke. */
  datatype FieldError = FieldError(path: Path, rule: Rule)

  const MaxTitleLength: nat := 200
  const MaxExcerptLength: nat := 300

  /** The path's name as mongoose reports it. */
  function PathName(p: Path): string {
    match p
    case Title => "title"
    case Slug => "slug"
    case Content => "content"
    case Excerpt => "excerpt"
    case Author => "author"
  }

  /** The validator's message: the schema's own text, or mongoose's default
      for `slug`, whose `required: true` carries none. */
  function ErrorText(e: FieldError): string {
    match e
    case FieldError(Title, Required) => "Please provide a title"
    case FieldError(Title, MaxLength) => "Title cannot be more than 200 characters"
    case FieldError(Slug, _) => "Path `slug` is required."
    case FieldError(Content, _) => "Please provide content"
    case FieldError(Excerpt, Required) => "Please provide an excerpt"
    case FieldError(Excerpt, MaxLength) => "Excerpt cannot be more than 300 characters"
    case FieldError(Author, _) => "Please provide an author name"
  }

  /** An error the validators can report: `maxlength` is declared on the
      title and the excerpt only. */
  predicate Reportable(e: FieldError) {
    e.rule == MaxLength ==> e.path == Title || e.path == Excerpt
  }

  /** Each error the validators can report has its own message, so the
      message says which rule of which path failed. */
  lemma ErrorTextIdentifiesError(e1: FieldError, e2: FieldError)
    requires Reportable(e1) && Reportable(e2) && e1 != e2
    ensures ErrorText(e1) != ErrorText(e2)
  {
  }

  // ---------------------------------------------------------------------------
  // The `trim` setter

  /** The code points ECMAScript's String.prototype.trim removes: the
      WhiteSpace and LineTerminator productions of the ECMAScript language
      specification (sections 12.2 and 12.3 of ECMA-262). */
  predicate IsWhitespace(c: char) {
    c == '\t' || c == '\n' || c == '\U{000B}' || c == '\U{000C}' || c == '\r' || c == ' '
    || c == '\U{00A0}' || c == '\U{1680}' || ('\U{2000}' <= c <= '\U{200A}')
    || c == '\U{2028}' || c == '\U{2029}' || c == '\U{202F}' || c == '\U{205F}'
    || c == '\U{3000}' || c == '\U{FEFF}'
  }

  /** `s` without its leading whitespace: a suffix of `s` that starts with a
      non-whitespace character, and only whitespace was dropped. */
  function TrimStart(s: string): (r: string)
    ensures |r| <= |s| && r == s[|s| - |r|..]
    ensures forall i :: 0 <= i < |s| - |r| ==> IsWhitespace(s[i])
    ensures r != [] ==> !IsWhitespace(r[0])
  {
    if s != [] && IsWhitespace(s[0]) then TrimStart(s[1..]) else s
  }

  /** `s` without its trailing whitespace: a prefix of `s` that ends with a
      non-whitespace character, and only whitespace was dropped. */
  function TrimEnd(s: string): (r: string)
    ensures |r| <= |s| && r == s[..|r|]
    ensures forall i :: |r| <= i < |s| ==> IsWhitespace(s[i])
    ensures r != [] ==> !IsWhitespace(r[|r| - 1])
  {
    if s != [] && IsWhitespace(s[|s| - 1]) then TrimEnd(s[..|s| - 1]) else s
  }

  /** No whitespace at either end. */
  predicate IsTrimmed(s: string) {
    s != [] ==> !IsWhitespace(s[0]) && !IsWhitespace(s[|s| - 1])
  }

  /** String.prototype.trim: what remains of `s` once the whitespace at both
      ends is gone. */
  function Trim(s: string): (r: string)
    ensures IsTrimmed(r) && |r| <= |s|
  {
    TrimEnd(TrimStart(s))
  }

  /** `r` is `s` with its first `k` characters and everything past `k + |r|`
      dropped, and every dropped character is whitespace. */
  predicate DropsOnlyEnds(s: string, r: string, k: nat) {
    && k + |r| <= |s| && r == s[k..k + |r|]
    && (forall i :: 0 <= i < k ==> IsWhitespace(s[i]))
    && (forall i :: k + |r| <= i < |s| ==> IsWhitespace(s[i]))
  }

  /** `trim` removes whitespace at the ends and nothing else. */
  lemma {:induction false} TrimKeepsMiddle(s: string)
    ensures exists k :: DropsOnlyEnds(s, Trim(s), k)
  {
    var t := TrimStart(s);
    var k := |s| - |t|;
    assert Trim(s) == t[..|Trim(s)|];
    assert forall i :: k + |Trim(s)| <= i < |s| ==> s[i] == t[i - k];
    assert DropsOnlyEnds(s, Trim(s), k);
  }

  /** Trimming leaves nothing exactly when the string is all whitespace. */
  lemma {:induction false} TrimEmptyIffBlank(s: string)
    ensures Trim(s) == [] <==> forall i :: 0 <= i < |s| ==> IsWhitespace(s[i])
  {
    var t := TrimStart(s);
    if Trim(s) == [] {
      // what TrimEnd left nothing of is all whitespace, yet TrimStart never
      // returns a string that starts with whitespace
      assert t == [];
    }
  }

  /** Trimming twice trims no more than once. */
  lemma {:induction false} TrimIdempotent(s: string)
    ensures Trim(Trim(s)) == Trim(s)
  {
    TrimOfTrimmed(Trim(s));
  }

  /** A string with no whitespace at either end is its own trim. */
  lemma TrimOfTrimmed(s: string)
    requires IsTrimmed(s)
    ensures Trim(s) == s
  {
  }

  // ---------------------------------------------------------------------------
  // Lengths, as JavaScript counts them

  /** The `length` of `s` as a JavaScript string: UTF-16 code units, so a code
      point above U+FFFF (a surrogate pair) counts twice. */
  function Utf16Length(s: string): (n: nat)
    ensures |s| <= n <= 2 * |s|
  {
    if s == [] then 0
    else (if s[0] as int > 0xFFFF then 2 else 1) + Utf16Length(s[1..])
  }

  /** The JavaScript length equals the number of code points exactly when no
      code point lies above U+FFFF. */
  lemma {:induction false} Utf16LengthIsSize(s: string)
    ensures Utf16Length(s) == |s| <==> forall i :: 0 <= i < |s| ==> s[i] as int <= 0xFFFF
  {
    if s != [] {
      Utf16LengthIsSize(s[1..]);
      assert forall i :: 1 <= i < |s| ==> s[i] == s[1..][i - 1];
    }
  }

  // ---------------------------------------------------------------------------
  // Validation and normalisation, as `Post.create` does it

  /** The `trim` setter runs only on a value that was supplied. */
  function SetTrimmed(v: Option<string>): Option<string> {
    match v
    case None => None
    case Some(s) => Some(Trim(s))
  }

  /** mongoose's `required` check for a String path: a string that is not empty. */
  predicate Present(v: Option<string>) {
    v.Some? && v.value != []
  }

  /** The errors of one path: `required` first; `maxlength` only on a present value. */
  function PathErrors(path: Path, v: Option<string>, maxLength: Option<nat>): (errs: seq<FieldError>)
    ensures |errs| <= 1 && forall e :: e in errs ==> e.path == path
    ensures FieldError(path, Required) in errs <==> !Present(v)
    ensures FieldError(path, MaxLength) in errs
            <==> Present(v) && maxLength.Some? && Utf16Length(v.value) > maxLength.value
  {
    if !Present(v) then [FieldError(path, Required)]
    else if maxLength.Some? && Utf16Length(v.value) > maxLength.value then [FieldError(path, MaxLength)]
    else []
  }

  /** The schema's rules stated field by field: what a body must carry for
      `create` to accept it. */
  predicate Admissible(b: PostBody) {
    && b.title.Some? && Trim(b.title.value) != [] && Utf16Length(Trim(b.title.value)) <= MaxTitleLength
    && b.slug.Some? && Trim(b.slug.value) != []
    && b.content.Some? && b.content.value != []
    && b.excerpt.Some? && b.excerpt.value != [] && Utf16Length(b.excerpt.value) <= MaxExcerptLength
    && b.author.Some? && Trim(b.author.value) != []
  }

  /** Whether `b` breaks `e`'s rule on `e`'s path, once the setters ran:
      a required path is missing or empty (after trimming, for a trimmed
      path), or a bounded path is longer than its bound. `slug`, `content`
      and `author` have no length bound. */
  predicate Violates(b: PostBody, e: FieldError) {
    match e
    case FieldError(Title, Required) => b.title.None? || Trim(b.title.value) == []
    case FieldError(Title, MaxLength) =>
      b.title.Some? && Trim(b.title.value) != [] && Utf16Length(Trim(b.title.value)) > MaxTitleLength
    case FieldError(Slug, Required) => b.slug.None? || Trim(b.slug.value) == []
    case FieldError(Content, Required) => b.content.None? || b.content.value == []
    case FieldError(Excerpt, Required) => b.excerpt.None? || b.excerpt.value == []
    case FieldError(Excerpt, MaxLength) =>
      b.excerpt.Some? && b.excerpt.value != [] && Utf16Length(b.excerpt.value) > MaxExcerptLength
    case FieldError(Author, Required) => b.author.None? || Trim(b.author.value) == []
    case FieldError(_, MaxLength) => false
  }

  /** The validators' findings on `b` after the setters ran, in schema order;
      there are none exactly when `b` is admissible (FieldErrorsExact says
      which they are). */
  function FieldErrors(b: PostBody): (errs: seq<FieldError>)
    ensures errs == [] <==> Admissible(b)
    ensures |errs| <= 5
  {
    PathErrors(Title, SetTrimmed(b.title), Some(MaxTitleLength))
    + PathErrors(Slug, SetTrimmed(b.slug), None)
    + PathErrors(Content, b.content, None)
    + PathErrors(Excerpt, b.excerpt, Some(MaxExcerptLength))
    + PathErrors(Author, SetTrimmed(b.author), None)
  }

  /** The validators report exactly the rules `b` breaks. */
  lemma {:induction false} FieldErrorsExact(b: PostBody)
    ensures forall e :: e in FieldErrors(b) <==> Violates(b, e)
  {
    forall e
      ensures e in FieldErrors(b) <==> Violates(b, e)
    {
      ViolationReported(b, e);
    }
  }

  lemma {:induction false} ViolationReported(b: PostBody, e: FieldError)
    ensures e in FieldErrors(b) <==> Violates(b, e)
  {
    var title := PathErrors(Title, SetTrimmed(b.title), Some(MaxTitleLength));
    var slug := PathErrors(Slug, SetTrimmed(b.slug), None);
    var content := PathErrors(Content, b.content, None);
    var excerpt := PathErrors(Excerpt, b.excerpt, Some(MaxExcerptLength));
    var author := PathErrors(Author, SetTrimmed(b.author), None);
    assert FieldErrors(b) == title + slug + content + excerpt + author;
    match e
    case FieldError(Title, Required) => assert e in FieldErrors(b) <==> e in title;
    case FieldError(Title, MaxLength) => assert e in FieldErrors(b) <==> e in title;
    case FieldError(Slug, _) => assert e in FieldErrors(b) <==> e in slug;
    case FieldError(Content, _) => assert e in FieldErrors(b) <==> e in content;
    case FieldError(Excerpt, Required) => assert e in FieldErrors(b) <==> e in excerpt;
    case FieldError(Excerpt, MaxLength) => assert e in FieldErrors(b) <==> e in excerpt;
    case FieldError(Author, _) => assert e in FieldErrors(b) <==> e in author;
  }

  /** What every record the schema admits looks like once stored. */
  predicate Conforms(p: Post) {
    && p.title != [] && IsTrimmed(p.title) && Utf16Length(p.title) <= MaxTitleLength
    && p.slug != [] && IsTrimmed(p.slug)
    && p.content != []
    && p.excerpt != [] && Utf16Length(p.excerpt) <= MaxExcerptLength
    && p.author != [] && IsTrimmed(p.author)
  }

  /** `Post.create` on `b` before the insert itself: setters, validators, then
      defaults and timestamps. `id` and `now` are what the store assigns. */
  function Normalise(b: PostBody, id: nat, now: nat): (r: Result<Post, seq<FieldError>>)
    ensures r.Success? <==> Admissible(b)
    ensures r.Failure? ==> r.error != [] && r.error == FieldErrors(b)
    ensures r.Success? ==>
      && r.value.title == Trim(b.title.value)
      && r.value.slug == Trim(b.slug.value)
      && r.value.content == b.content.value
      && r.value.excerpt == b.excerpt.value
      && r.value.author == Trim(b.author.value)
      && r.value.authorId == b.authorId
      && r.value.id == id && r.value.createdAt == now && r.value.updatedAt == now
    ensures r.Success? ==> r.value.coverImage == (if b.coverImage.None? then "" else b.coverImage.value)
    ensures r.Success? ==> (r.value.published <==> b.published == Some(true))
  {
    var errs := FieldErrors(b);
    if errs != [] then Failure(errs)
    else
      Success(Post(id, Trim(b.title.value), Trim(b.slug.value), b.content.value, b.excerpt.value,
                   Trim(b.author.value), b.authorId, (if b.coverImage.None? then "" else b.coverImage.value), b.published == Some(true),
                   now, now))
  }

  /** Every record `create` accepts conforms to the schema. */
  lemma {:induction false} NormalisedConforms(b: PostBody, id: nat, now: nat)
    requires Normalise(b, id, now).Success?
    ensures Conforms(Normalise(b, id, now).value)
  {
  }

  /** A stored post as a body carrying every field. */
  function AsBody(p: Post): PostBody {
    PostBody(Some(p.title), Some(p.slug), Some(p.content), Some(p.excerpt), Some(p.author),
             p.authorId, Some(p.coverImage), Some(p.published))
  }

  /** Normalisation is idempotent: feeding an accepted record back in gives it back. */
  lemma {:induction false} NormaliseIdempotent(b: PostBody, id: nat, now: nat)
    requires Normalise(b, id, now).Success?
    ensures Normalise(AsBody(Normalise(b, id, now).value), id, now) == Normalise(b, id, now)
  {
    var p := Normalise(b, id, now).value;
    NormalisedConforms(b, id, now);
    ConformingRecordAccepted(p);
  }

  /** Every record that conforms to the schema is accepted as it is. */
  lemma {:induction false} ConformingRecordAccepted(p: Post)
    requires Conforms(p) && p.updatedAt == p.createdAt
    ensures Normalise(AsBody(p), p.id, p.createdAt) == Success(p)
  {
    TrimOfTrimmed(p.title);
    TrimOfTrimmed(p.slug);
    TrimOfTrimmed(p.author);
  }

  /** An excerpt is not trimmed: one of spaces only is accepted and stored as is. */
  lemma {:induction false} ExcerptKeepsWhitespace(b: PostBody, id: nat, now: nat)
    requires Admissible(b.(excerpt := Some("   ")))
    ensures Normalise(b.(excerpt := Some("   ")), id, now).value.excerpt == "   "
  {
  }

  /** Content has no length bound: any non-empty content replaces an accepted one. */
  lemma {:induction false} ContentUnbounded(b: PostBody, c: string, id: nat, now: nat)
    requires Admissible(b) && c != []
    ensures Normalise(b.(content := Some(c)), id, now).Success?
    ensures Normalise(b.(content := Some(c)), id, now).value.content == c
  {
  }

  // ---------------------------------------------------------------------------
  // The error `create` rejects with

  const ValidationPrefix := "Post validation failed"

  /** "path: message" entries joined by ", ". */
  function JoinErrors(errs: seq<FieldError>): string {
    if errs == [] then ""
    else
      var head := PathName(errs[0].path) + ": " + ErrorText(errs[0]);
      if |errs| == 1 then head else head + ", " + JoinErrors(errs[1..])
  }

  /** The `message` of mongoose's ValidationError for the Post model: the
      model's "validation failed" prefix, then each failed path with its
      validator's message. */
  function ValidationMessage(errs: seq<FieldError>): (m: string)
    ensures ValidationPrefix + ": " <= m
    ensures errs != [] ==> PathName(errs[0].path) + ": " + ErrorText(errs[0]) <= m[|ValidationPrefix + ": "|..]
  {
    ValidationPrefix + ": " + JoinErrors(errs)
  }
}
