/**
 * The read side of the HTTP surface: each list endpoint builds an exact-match filter
 * from its optional query parameters, validates its result limit, reads from the
 * store, puts the documents in the endpoint's order and serializes them.
 *
 * The store read `get_documents(collection, filter, limit)` is outside the model: it
 * is passed in as a function `get`, so what an endpoint returns is stated in terms of
 * what the store hands back for exactly the collection, filter and limit it asks for.
 */
module Endpoints {
  import opened Wrappers
  import opened Documents
  import opened Serialization
  import opened Ordering

  /** One filter entry: an exact value, or membership of one of the values in a list field. */
  datatype Criterion = Equals(value: string) | AnyOf(values: seq<string>)

  type Filter = map<string, Criterion>

  /** The store read: collection name, filter and limit to the fetched documents. */
  type Fetch = (string, Filter, int) -> seq<Doc>

  datatype Error =
    | Invalid(params: seq<string>)   // query parameters the framework rejects before the handler runs, in order
    | Unsortable               // the in-memory sort met a missing or incomparable `created_at`

  /** An optional parameter that counts: present and not the empty string. */
  predicate Given(p: Option<string>) {
    p.Some? && p.value != ""
  }

  /** A result limit parameter: its default and its largest accepted value (the least is 1). */
  datatype LimitPolicy = LimitPolicy(default: int, max: int)

  const PostsLimit: LimitPolicy := LimitPolicy(50, 200)
  const CommentsLimit: LimitPolicy := LimitPolicy(100, 500)
  const OffersLimit: LimitPolicy := LimitPolicy(100, 300)
  const UsersLimit: int := 200

  /** The limit the handler uses: the default when omitted, the request when within 1..max. */
  function ResolveLimit(requested: Option<int>, policy: LimitPolicy): (r: Result<int, Error>)
    requires 1 <= policy.default <= policy.max
    ensures r.Ok? ==> 1 <= r.value <= policy.max
    ensures requested.None? ==> r == Ok(policy.default)
    ensures requested.Some? ==> (r.Ok? <==> 1 <= requested.value <= policy.max)
    ensures requested.Some? && r.Ok? ==> r.value == requested.value
    ensures r.Err? ==> r.error == Invalid(["limit"])
  {
    match requested
    case None => Ok(policy.default)
    case Some(n) => if 1 <= n <= policy.max then Ok(n) else Err(Invalid(["limit"]))
  }

  /** The filter entry for an optional exact-match parameter. */
  function Param(key: string, p: Option<string>): (f: Filter)
    ensures key in f <==> Given(p)
    ensures f.Keys <= {key}
    ensures key in f ==> f[key] == Equals(p.value)
  {
    if Given(p) then map[key := Equals(p.value)] else map[]
  }

  /** The users filter: `role` exactly when a role is given. */
  function UsersFilter(role: Option<string>): (f: Filter)
    ensures "role" in f <==> Given(role)
    ensures "role" in f ==> f["role"] == Equals(role.value)
    ensures f.Keys <= {"role"}
  {
    Param("role", role)
  }

  /** The posts filter: `type` and `created_by` when given, and `tags` containing the tag when given. */
  function PostsFilter(kind: Option<string>, tag: Option<string>, createdBy: Option<string>): (f: Filter)
    ensures "type" in f <==> Given(kind)
    ensures "created_by" in f <==> Given(createdBy)
    ensures "tags" in f <==> Given(tag)
    ensures f.Keys <= {"type", "created_by", "tags"}
    ensures "type" in f ==> f["type"] == Equals(kind.value)
    ensures "created_by" in f ==> f["created_by"] == Equals(createdBy.value)
    ensures "tags" in f ==> f["tags"] == AnyOf([tag.value])
  {
    var tags: Filter := if Given(tag) then map["tags" := AnyOf([tag.value])] else map[];
    Param("type", kind) + Param("created_by", createdBy) + tags
  }

  /** The offers filter: `post_id` and `created_by` when given. */
  function OffersFilter(postId: Option<string>, createdBy: Option<string>): (f: Filter)
    ensures "post_id" in f <==> Given(postId)
    ensures "created_by" in f <==> Given(createdBy)
    ensures f.Keys <= {"post_id", "created_by"}
    ensures "post_id" in f ==> f["post_id"] == Equals(postId.value)
    ensures "created_by" in f ==> f["created_by"] == Equals(createdBy.value)
  {
    Param("post_id", postId) + Param("created_by", createdBy)
  }

  /**
   * Sorts the fetched documents in memory by `created_at` and serializes them; the sort
   * fails when two or more documents are fetched and one lacks a comparable timestamp.
   */
  method SortAndSerialize(docs: seq<Doc>, newestFirst: bool) returns (r: Result<seq<Doc>, Error>)
    ensures r.Err? <==> !Sortable(docs)
    ensures r.Err? ==> r.error == Unsortable
    ensures r.Ok? ==> r.value == SerializeList(StableSorted(docs, Key, newestFirst))
  {
    if !Sortable(docs) {
      return Err(Unsortable);
    }
    var a := new Doc[|docs|](i requires 0 <= i < |docs| => docs[i]);
    assert a[..] == docs;
    SortInPlace(a, newestFirst);
    r := Ok(SerializeList(a[..]));
  }

  /** `GET /api/users`: at most 200 users, optionally of one role, in store order. */
  method ListUsers(role: Option<string>, get: Fetch) returns (body: seq<Doc>)
    ensures body == SerializeList(get("user", UsersFilter(role), UsersLimit))
  {
    var filt: Filter := map[];
    if role.Some? && role.value != "" {
      filt := filt["role" := Equals(role.value)];
    }
    var docs := get("user", filt, UsersLimit);
    body := SerializeList(docs);
  }

  /** `GET /api/posts`: filtered posts, newest first. */
  method ListPosts(kind: Option<string>, tag: Option<string>, createdBy: Option<string>,
                   limit: Option<int>, get: Fetch)
    returns (r: Result<seq<Doc>, Error>)
    ensures ResolveLimit(limit, PostsLimit).Err? ==> r == Err(Invalid(["limit"]))
    ensures ResolveLimit(limit, PostsLimit).Ok? ==>
      var fetched := get("post", PostsFilter(kind, tag, createdBy), ResolveLimit(limit, PostsLimit).value);
      && (r.Err? <==> !Sortable(fetched))
      && (r.Err? ==> r.error == Unsortable)
      && (r.Ok? ==> r.value == SerializeList(StableSorted(fetched, Key, true)))
  {
    var lim := ResolveLimit(limit, PostsLimit);
    if lim.Err? {
      return Err(lim.error);
    }
    var filt: Filter := map[];
    if kind.Some? && kind.value != "" {
      filt := filt["type" := Equals(kind.value)];
    }
    if createdBy.Some? && createdBy.value != "" {
      filt := filt["created_by" := Equals(createdBy.value)];
    }
    if tag.Some? && tag.value != "" {
      filt := filt["tags" := AnyOf([tag.value])];
    }
    assert filt == PostsFilter(kind, tag, createdBy);
    var docs := get("post", filt, lim.value);
    r := SortAndSerialize(docs, true);
  }

  /**
   * `GET /api/comments`: the comments of one post, oldest first. Both parameters are
   * checked before the handler runs, and every rejected one is reported.
   */
  method ListComments(postId: Option<string>, limit: Option<int>, get: Fetch)
    returns (r: Result<seq<Doc>, Error>)
    ensures postId.None? || ResolveLimit(limit, CommentsLimit).Err? ==>
      r == Err(Invalid((if postId.None? then ["post_id"] else [])
                       + (if ResolveLimit(limit, CommentsLimit).Err? then ["limit"] else [])))
    ensures postId.Some? && ResolveLimit(limit, CommentsLimit).Ok? ==>
      var fetched := get("comment", map["post_id" := Equals(postId.value)], ResolveLimit(limit, CommentsLimit).value);
      && (r.Err? <==> !Sortable(fetched))
      && (r.Err? ==> r.error == Unsortable)
      && (r.Ok? ==> r.value == SerializeList(StableSorted(fetched, Key, false)))
  {
    var lim := ResolveLimit(limit, CommentsLimit);
    var rejected := (if postId.None? then ["post_id"] else []) + (if lim.Err? then ["limit"] else []);
    if rejected != [] {
      return Err(Invalid(rejected));
    }
    var docs := get("comment", map["post_id" := Equals(postId.value)], lim.value);
    r := SortAndSerialize(docs, false);
  }

  /** `GET /api/offers`: filtered offers, newest first. */
  method ListOffers(postId: Option<string>, createdBy: Option<string>, limit: Option<int>, get: Fetch)
    returns (r: Result<seq<Doc>, Error>)
    ensures ResolveLimit(limit, OffersLimit).Err? ==> r == Err(Invalid(["limit"]))
    ensures ResolveLimit(limit, OffersLimit).Ok? ==>
      var fetched := get("offer", OffersFilter(postId, createdBy), ResolveLimit(limit, OffersLimit).value);
      && (r.Err? <==> !Sortable(fetched))
      && (r.Err? ==> r.error == Unsortable)
      && (r.Ok? ==> r.value == SerializeList(StableSorted(fetched, Key, true)))
  {
    var lim := ResolveLimit(limit, OffersLimit);
    if lim.Err? {
      return Err(lim.error);
    }
    var filt: Filter := map[];
    if postId.Some? && postId.value != "" {
      filt := filt["post_id" := Equals(postId.value)];
    }
    if createdBy.Some? && createdBy.value != "" {
      filt := filt["created_by" := Equals(createdBy.value)];
    }
    assert filt == OffersFilter(postId, createdBy);
    var docs := get("offer", filt, lim.value);
    r := SortAndSerialize(docs, true);
  }
}
