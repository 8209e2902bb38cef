/** The post collection endpoint of pages/api/posts/index.ts: GET lists the
    stored posts, optionally filtered on `published`, newest first; POST
    creates a post owned by the signed-in user; any other method gets 405.
    `requireAuth` of lib/auth.ts is modelled here as the rule it adds over
    the session lookup: no session means `Unauthorized`. */
module PostsApi {
  import opened Wrappers
  import opened PostModel

  /** The JSON body of every response: `{ success: true, data }` is `Ok`,
      `{ success: false, error }` is `Err`. */
  datatype Envelope = Ok(data: Payload) | Err(error: string)

  datatype Payload = OnePost(post: Post) | PostList(posts: seq<Post>)

  /** The message of the error `requireAuth` throws. */
  const Unauthorized := "Unauthorized"
  const SignInToCreate := "Please sign in to create a post"
  /** The `Allow` header of a 405 response. */
  const AllowedMethods := ["GET", "POST"]

  // ---------------------------------------------------------------------------
  // requireAuth

  /** The caller's session, or the `Unauthorized` error when there is none. */
  function RequireAuth(session: Option<UserId>): (r: Result<UserId, string>)
    ensures r.Failure? <==> session.None?
    ensures r.Failure? ==> r.error == Unauthorized
    ensures r.Success? ==> r.value == session.value
  {
    match session
    case None => Failure(Unauthorized)
    case Some(user) => Success(user)
  }

  // ---------------------------------------------------------------------------
  // GET: the filter and the order

  /** The `published` query parameter as a filter: absent means no filter,
      and any value other than "true" (not only "false") selects unpublished
      posts. */
  function PublishedFilter(query: Option<string>): (f: Option<bool>)
    ensures f.None? <==> query.None?
    ensures f.Some? ==> (f.value <==> query.value == "true")
  {
    match query
    case None => None
    case Some(v) => Some(v == "true")
  }

  /** Whether a stored post matches a `{ published }` filter. */
  predicate Matches(p: Post, f: Option<bool>) {
    f.None? || p.published == f.value
  }

  /** The stored posts that match `f`, each as often as it is stored. */
  function Select(posts: seq<Post>, f: Option<bool>): (r: seq<Post>)
    ensures forall p :: multiset(r)[p] == if Matches(p, f) then multiset(posts)[p] else 0
    ensures f.None? ==> r == posts
  {
    if posts == [] then []
    else
      assert posts == [posts[0]] + posts[1..];
      (if Matches(posts[0], f) then [posts[0]] else []) + Select(posts[1..], f)
  }

  /** `sort({ createdAt: -1 })`: no post is older than one after it. */
  predicate NewestFirstOrder(s: seq<Post>) {
    forall i, j :: 0 <= i < j < |s| ==> s[i].createdAt >= s[j].createdAt
  }

  /** `p` placed before the first post of `s` that is not newer than it. */
  function InsertByDate(p: Post, s: seq<Post>): (r: seq<Post>)
    ensures multiset(r) == multiset(s) + multiset{p}
    ensures |r| == |s| + 1 && (r[0] == p || (s != [] && r[0] == s[0]))
  {
    if s == [] || s[0].createdAt <= p.createdAt then [p] + s
    else
      assert s == [s[0]] + s[1..];
      [s[0]] + InsertByDate(p, s[1..])
  }

  /** Placing a post into a newest-first list keeps it newest first. */
  lemma {:induction false} InsertByDateOrdered(p: Post, s: seq<Post>)
    requires NewestFirstOrder(s)
    ensures NewestFirstOrder(InsertByDate(p, s))
  {
    if s != [] && s[0].createdAt > p.createdAt {
      InsertByDateOrdered(p, s[1..]);
      var rest := InsertByDate(p, s[1..]);
      assert rest[0].createdAt <= s[0].createdAt;
      assert InsertByDate(p, s) == [s[0]] + rest;
    }
  }

  /** The posts newest first. The order of posts with equal `createdAt` is
      not one the store promises; this one is as good as any other. */
  function NewestFirst(s: seq<Post>): (r: seq<Post>)
    ensures NewestFirstOrder(r)
    ensures multiset(r) == multiset(s)
  {
    if s == [] then []
    else
      assert s == [s[0]] + s[1..];
      InsertByDateOrdered(s[0], NewestFirst(s[1..]));
      InsertByDate(s[0], NewestFirst(s[1..]))
  }

  /** Whether the GET handler lists `p` for the query parameter `query`. */
  predicate Listed(p: Post, query: Option<string>) {
    query.None? || p.published == (query.value == "true")
  }

  /** The data of a successful GET: the stored posts the query selects, each
      as often as it is stored, newest first. */
  function Listing(posts: seq<Post>, query: Option<string>): (r: seq<Post>)
    ensures NewestFirstOrder(r)
    ensures forall p :: multiset(r)[p] == if Listed(p, query) then multiset(posts)[p] else 0
    ensures forall p :: p in r <==> p in posts && Listed(p, query)
  {
    var r := NewestFirst(Select(posts, PublishedFilter(query)));
    assert forall p :: p in r <==> multiset(r)[p] > 0;
    r
  }

  /** Without a `published` parameter GET lists every stored post. */
  lemma {:induction false} ListingUnfiltered(posts: seq<Post>)
    ensures multiset(Listing(posts, None)) == multiset(posts)
    ensures |Listing(posts, None)| == |posts|
  {
    var r := Listing(posts, None);
    assert forall p :: multiset(r)[p] == multiset(posts)[p];
    assert multiset(r) == multiset(posts);
  }

  /** "false" and every other value but "true" list the same posts: the
      unpublished ones. */
  lemma {:induction false} NonTrueListsUnpublished(posts: seq<Post>, v: string)
    requires v != "true"
    ensures Listing(posts, Some(v)) == Listing(posts, Some("false"))
    ensures forall p :: p in Listing(posts, Some(v)) <==> p in posts && !p.published
  {
    assert PublishedFilter(Some(v)) == PublishedFilter(Some("false"));
  }

  // ---------------------------------------------------------------------------
  // The store's unique index on `slug`

  /** No two stored posts share a slug. */
  predicate UniqueSlugs(posts: seq<Post>) {
    forall i, j :: 0 <= i < j < |posts| ==> posts[i].slug != posts[j].slug
  }

  /** Whether some stored post already has this slug. */
  predicate SlugTaken(posts: seq<Post>, slug: string) {
    exists i :: 0 <= i < |posts| && posts[i].slug == slug
  }

  /** Inserting a post whose slug is free keeps the slugs unique, and the
      slug is taken afterwards. */
  lemma {:induction false} InsertKeepsSlugsUnique(posts: seq<Post>, p: Post)
    requires UniqueSlugs(posts) && !SlugTaken(posts, p.slug)
    ensures UniqueSlugs(posts + [p])
    ensures SlugTaken(posts + [p], p.slug)
  {
    var q := posts + [p];
    forall i, j | 0 <= i < j < |q|
      ensures q[i].slug != q[j].slug
    {
      if j == |posts| {
        assert q[i] == posts[i];
      }
    }
    assert q[|posts|] == p;
  }

  /** The invariant of the collection: every stored post conforms to the
      schema, slugs are unique, and ids and timestamps come from the clock in
      insertion order. */
  predicate StoreInvariant(posts: seq<Post>, clock: nat) {
    && UniqueSlugs(posts)
    && (forall i :: 0 <= i < |posts| ==>
          Conforms(posts[i]) && posts[i].id < clock && posts[i].createdAt < clock)
    && (forall i, j :: 0 <= i < j < |posts| ==> posts[i].id < posts[j].id)
  }

  /** Inserting a conforming post with a free slug, stamped with the clock,
      and advancing the clock keeps the invariant. */
  lemma {:induction false} InsertKeepsInvariant(posts: seq<Post>, clock: nat, p: Post)
    requires StoreInvariant(posts, clock)
    requires Conforms(p) && p.id == clock && p.createdAt == clock && !SlugTaken(posts, p.slug)
    ensures StoreInvariant(posts + [p], clock + 1)
  {
    InsertKeepsSlugsUnique(posts, p);
    var q := posts + [p];
    forall i | 0 <= i < |q|
      ensures Conforms(q[i]) && q[i].id < clock + 1 && q[i].createdAt < clock + 1
    {
      if i < |posts| { assert q[i] == posts[i]; }
    }
    forall i, j | 0 <= i < j < |q|
      ensures q[i].id < q[j].id
    {
      assert q[i] == posts[i];
      if j < |posts| { assert q[j] == posts[j]; }
    }
  }

  /** The message of the store's duplicate-key error on the `slug_1` index. */
  function DuplicateSlugMessage(namespace: string, slug: string): (m: string)
    ensures "E11000 duplicate key error" <= m
  {
    "E11000 duplicate key error collection: " + namespace + " index: slug_1 dup key: { slug: \"" + slug + "\" }"
  }

  /** `Post.create(doc)` against the stored `posts`, stamped with `clock`:
      the validators run first; then the insert fails with the store's own
      error, if there is one, or on the unique `slug` index. On failure the
      result is the thrown error's message, which is "Unauthorized" only when
      the store itself failed with that message. */
  function CreateResult(posts: seq<Post>, clock: nat, namespace: string, doc: PostBody,
                        dbError: Option<string>): (r: Result<Post, string>)
    ensures r.Success? <==> Admissible(doc) && dbError.None? && !SlugTaken(posts, Trim(doc.slug.value))
    ensures r.Success? ==>
      Normalise(doc, clock, clock) == Success(r.value) && Conforms(r.value) && r.value.slug == Trim(doc.slug.value)
    ensures !Admissible(doc) ==> r == Failure(ValidationMessage(FieldErrors(doc)))
    ensures Admissible(doc) && dbError.Some? ==> r == Failure(dbError.value)
    ensures Admissible(doc) && dbError.None? && SlugTaken(posts, Trim(doc.slug.value)) ==>
      r == Failure(DuplicateSlugMessage(namespace, Trim(doc.slug.value)))
    ensures r.Failure? && r.error == Unauthorized ==> dbError == Some(Unauthorized)
  {
    match Normalise(doc, clock, clock)
    case Failure(errs) =>
      CreateErrorsAreNotUnauthorized(errs, namespace, "");
      Failure(ValidationMessage(errs))
    case Success(post) =>
      if dbError.Some? then Failure(dbError.value)
      else if SlugTaken(posts, post.slug) then
        CreateErrorsAreNotUnauthorized([], namespace, post.slug);
        Failure(DuplicateSlugMessage(namespace, post.slug))
      else
        NormalisedConforms(doc, clock, clock);
        Success(post)
  }

  /** Neither a validation error nor a duplicate-key error reads "Unauthorized",
      so only a missing session (or a store error with exactly that message)
      turns into 401. */
  lemma {:induction false} CreateErrorsAreNotUnauthorized(errs: seq<FieldError>, namespace: string, slug: string)
    ensures ValidationMessage(errs) != Unauthorized
    ensures DuplicateSlugMessage(namespace, slug) != Unauthorized
  {
    var v := ValidationMessage(errs);
    assert v[0] == ValidationPrefix[0] == 'P';
    var d := DuplicateSlugMessage(namespace, slug);
    assert d[0] == "E11000 duplicate key error"[0] == 'E';
  }

  // ---------------------------------------------------------------------------
  // The collection and its handler

  /** The `posts` collection, one request at a time. `clock` hands out the
      `_id` and the timestamps of the next insert. */
  class PostStore {
    /** The `<database>.posts` namespace the store's errors name. */
    const namespace: string
    var posts: seq<Post>
    var clock: nat

    ghost predicate Valid()
      reads this
    {
      StoreInvariant(posts, clock)
    }

    constructor (namespace: string)
      ensures Valid()
      ensures this.namespace == namespace && posts == [] && clock == 0
    {
      this.namespace := namespace;
      posts := [];
      clock := 0;
    }

    /** The GET branch. `dbError` is the message of a failed query, if it fails. */
    method List(published: Option<string>, dbError: Option<string>) returns (status: int, env: Envelope)
      ensures dbError.Some? ==> status == 400 && env == Err(dbError.value)
      ensures dbError.None? ==> status == 200 && env == Ok(PostList(Listing(posts, published)))
      ensures dbError.None? ==> NewestFirstOrder(env.data.posts)
      ensures dbError.None? ==> forall p :: p in env.data.posts <==> p in posts && Listed(p, published)
      ensures dbError.None? && published.None? ==> multiset(env.data.posts) == multiset(posts)
    {
      if dbError.Some? {
        return 400, Err(dbError.value);
      }
      ListingUnfiltered(posts);
      return 200, Ok(PostList(Listing(posts, published)));
    }

    /** The insert itself: a conforming post with a free slug, stamped with
        the clock, is appended and the clock advances. */
    method Insert(post: Post)
      requires Valid()
      requires Conforms(post) && post.id == clock && post.createdAt == clock && !SlugTaken(posts, post.slug)
      modifies this
      ensures Valid()
      ensures posts == old(posts) + [post] && clock == old(clock) + 1
    {
      InsertKeepsInvariant(posts, clock, post);
      posts := posts + [post];
      clock := clock + 1;
    }

    /** The POST branch: `requireAuth`, then `Post.create` on the body with
        `authorId` overwritten by the session user's id; `dbError` is the
        message of a failed insert, if it fails. Every error is caught and
        mapped on its message: "Unauthorized" to 401, anything else to 400. */
    method Create(body: PostBody, session: Option<UserId>, dbError: Option<string>)
      returns (status: int, env: Envelope)
      requires Valid()
      modifies this
      ensures Valid()
      ensures session.None? ==>
        status == 401 && env == Err(SignInToCreate) && posts == old(posts) && clock == old(clock)
      ensures session.Some? ==>
        var r := CreateResult(old(posts), old(clock), namespace, body.(authorId := session), dbError);
        && (r.Success? ==>
              && status == 201 && env == Ok(OnePost(r.value)) && r.value.authorId == session
              && posts == old(posts) + [r.value] && clock == old(clock) + 1)
        && (r.Failure? ==>
              && posts == old(posts) && clock == old(clock)
              && if r.error == Unauthorized then status == 401 && env == Err(SignInToCreate)
                 else status == 400 && env == Err(r.error))
    {
      var message: string;
      match RequireAuth(session) {
        case Failure(m) =>
          message := m;
        case Success(userId) =>
          var doc := body.(authorId := Some(userId));
          match CreateResult(posts, clock, namespace, doc, dbError) {
            case Failure(m) =>
              message := m;
            case Success(post) =>
              Insert(post);
              return 201, Ok(OnePost(post));
          }
      }
      if message == Unauthorized {
        status, env := 401, Err(SignInToCreate);
      } else {
        status, env := 400, Err(message);
      }
    }

    /** The handler: dispatch on the request method. */
    method Handle(httpMethod: string, published: Option<string>, body: PostBody,
                  session: Option<UserId>, dbError: Option<string>)
      returns (status: int, allow: Option<seq<string>>, env: Envelope)
      requires Valid()
      modifies this
      ensures Valid()
      ensures httpMethod == "GET" ==>
        && allow.None? && posts == old(posts) && clock == old(clock)
        && (dbError.Some? ==> status == 400 && env == Err(dbError.value))
        && (dbError.None? ==> status == 200 && env == Ok(PostList(Listing(posts, published))))
      ensures httpMethod == "POST" ==> allow.None?
      ensures httpMethod == "POST" && session.None? ==>
        status == 401 && env == Err(SignInToCreate) && posts == old(posts) && clock == old(clock)
      ensures httpMethod == "POST" && session.Some? ==>
        var r := CreateResult(old(posts), old(clock), namespace, body.(authorId := session), dbError);
        && (r.Success? ==>
              && status == 201 && env == Ok(OnePost(r.value)) && r.value.authorId == session
              && posts == old(posts) + [r.value] && clock == old(clock) + 1)
        && (r.Failure? ==>
              && posts == old(posts) && clock == old(clock)
              && if r.error == Unauthorized then status == 401 && env == Err(SignInToCreate)
                 else status == 400 && env == Err(r.error))
      ensures httpMethod != "GET" && httpMethod != "POST" ==>
        && status == 405 && allow == Some(AllowedMethods)
        && env == Err("Method " + httpMethod + " not allowed")
        && posts == old(posts) && clock == old(clock)
    {
      if httpMethod == "GET" {
        status, env := List(published, dbError);
        allow := None;
        return;
      }
      if httpMethod == "POST" {
        status, env := Create(body, session, dbError);
        allow := None;
        return;
      }
      allow := Some(AllowedMethods);
      status, env := 405, Err("Method " + httpMethod + " not allowed");
    }
  }

  /** Creating two posts with the same slug: the first is stored with the
      first user as its owner, the second is rejected with 400 and the store
      keeps the first alone, whatever `authorId` the second body carried. */
  method DuplicateSlugRejected(body: PostBody, first: UserId, second: UserId)
    returns (firstStatus: int, secondStatus: int, stored: seq<Post>)
    requires Admissible(body)
    ensures firstStatus == 201 && secondStatus == 400
    ensures |stored| == 1 && stored[0].authorId == Some(first) && stored[0].slug == Trim(body.slug.value)
  {
    var store := new PostStore("blog.posts");
    var slug := Trim(body.slug.value);
    var env;
    var doc := body.(authorId := Some(first));
    assert Admissible(doc) && Trim(doc.slug.value) == slug && !SlugTaken([], slug);
    firstStatus, env := store.Create(body.(authorId := Some(second)), Some(first), None);
    assert store.posts[0].slug == slug;
    doc := body.(authorId := Some(second));
    assert Admissible(doc) && Trim(doc.slug.value) == slug && SlugTaken(store.posts, slug);
    secondStatus, env := store.Create(body.(authorId := Some(first)), Some(second), None);
    stored := store.posts;
  }
}
