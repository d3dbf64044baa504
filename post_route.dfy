/**
 * src/routes/post_route.rs: the guarded "/posts" scope, the
 * classification `determine_post_type`, and how `create_post` builds the
 * post it inserts.
 */
module PostRoute {
  import opened Wrappers
  import opened Http
  import ObjectIds
  import Jwt
  import Tags
  import Posts
  import Context
  import App

  /** `determine_post_type`: several media make a `Multiple` post. */
  function DeterminePostType(media: Option<seq<Posts.Media>>): (t: Posts.PostType)
    ensures t == Posts.Multiple <==> (media.Some? && |media.value| > 1)
  {
    match media
    case Some(list) => if |list| > 1 then Posts.Multiple else Posts.Single
    case None => Posts.Single
  }

  /** No media, an empty list and a single item all make a `Single` post. */
  lemma SingleCases(m: Posts.Media)
    ensures DeterminePostType(None) == Posts.Single
    ensures DeterminePostType(Some([])) == Posts.Single
    ensures DeterminePostType(Some([m])) == Posts.Single
    ensures DeterminePostType(Some([m, m])) == Posts.Multiple
  {
  }

  datatype Route = Route(verb: Method, pattern: string)

  const Scope: string := "/posts"

  /** The routes of the "/posts" scope, every one behind `.wrap(Authentication)`. */
  const PostRoutes: seq<Route> := [
    Route(POST, ""), Route(GET, ""), Route(GET, "/{id}"), Route(PUT, "/{id}"), Route(DELETE, "/{id}")]

  /** The path a route serves, with `id` in place of the placeholder. */
  function RoutePath(r: Route, id: string): string
  {
    if r.pattern == "" then Scope else Scope + "/" + id
  }

  /** Every path of the five routes falls under a guarded scope of the application. */
  lemma PostRoutesGuarded(id: string)
    ensures forall i :: 0 <= i < |PostRoutes| ==> App.Guarded(RoutePath(PostRoutes[i], id))
  {
    assert App.GuardedScopes[1] == Scope;
    assert App.InScope(Scope, App.GuardedScopes[1]);
    var p := Scope + "/" + id;
    assert p[..|Scope + "/"|] == Scope + "/";
    assert App.InScope(p, App.GuardedScopes[1]);
  }

  /** What `create_post` decides before it reaches the database. */
  datatype Draft = NoClaims | BadAuthor | Ready(post: Posts.Post)

  /**
   * The post to insert: no id, the author parsed from the claims' subject,
   * the request's content, media and tags, classified by its media, and the
   * defaults (`freshId` and the two clock readings `created`, `updated`)
   * for the rest. Missing claims make `expect`
   * panic; a subject that is no ObjectId is refused.
   */
  function NewPost(ext: Extensions, req: Posts.PostRequest, freshId: ObjectIds.ObjectId,
                   created: Tags.DateTime, updated: Tags.DateTime)
    : (d: Draft)
    ensures d == NoClaims <==> ext.claims.None?
    ensures d == BadAuthor <==> ext.claims.Some? && ObjectIds.ParseObjectId(ext.claims.value.sub).Err?
    ensures d.Ready? ==>
      var p := d.post;
      p.id == None && p.authorId == ObjectIds.ParseObjectId(ext.claims.value.sub).value
      && p.content == req.content && p.media == req.media && p.tagIds == req.tags
      && p.postType == DeterminePostType(Some(req.media))
      && p.likesCount == 0 && p.commentsCount == 0 && p.createdAt == created && p.updatedAt == updated
  {
    match Context.ClaimsOf(ext)
    case Err(_) => NoClaims
    case Ok(claims) =>
      match ObjectIds.ParseObjectId(claims.sub)
      case Err(_) => BadAuthor
      case Ok(authorId) =>
        var base := Posts.DefaultPost(freshId, created, updated);
        Ready(base.(authorId := authorId, content := req.content, media := req.media, tagIds := req.tags,
                    postType := DeterminePostType(Some(req.media))))
  }

  /** `create_post_service`: the inserted id's JSON, or the database error. */
  type Insert = Posts.Post -> Result<string, string>

  /** `create_post` as a handler outcome. */
  function CreatePost(ext: Extensions, req: Posts.PostRequest, freshId: ObjectIds.ObjectId,
                      created: Tags.DateTime, updated: Tags.DateTime,
                      insert: Insert): Outcome
  {
    match NewPost(ext, req, freshId, created, updated)
    case NoClaims => Panicked("User not found")
    case BadAuthor => Responded(Response(500, "Invalid author_id"))
    case Ready(p) =>
      match insert(p)
      case Ok(body) => Responded(Response(200, body))
      case Err(e) => Responded(Response(500, e))
  }

  /** Without claims in the extensions, `expect("User not found")` panics before anything is inserted. */
  lemma MissingClaimsPanics(ext: Extensions, req: Posts.PostRequest, freshId: ObjectIds.ObjectId,
                            created: Tags.DateTime, updated: Tags.DateTime, insert: Insert)
    requires ext.claims.None?
    ensures CreatePost(ext, req, freshId, created, updated, insert) == Panicked("User not found")
  {
  }

  /** An unusable subject is refused with 500 before the database is reached: nothing is inserted. */
  lemma BadAuthorInsertsNothing(ext: Extensions, req: Posts.PostRequest, freshId: ObjectIds.ObjectId,
                                created: Tags.DateTime, updated: Tags.DateTime, insert: Insert, other: Insert)
    requires ext.claims.Some? && ObjectIds.ParseObjectId(ext.claims.value.sub).Err?
    ensures CreatePost(ext, req, freshId, created, updated, insert) == Responded(Response(500, "Invalid author_id"))
    ensures CreatePost(ext, req, freshId, created, updated, insert) == CreatePost(ext, req, freshId, created, updated, other)
  {
  }

  /**
   * Claims issued at login carry the hex of the user's id, so a post
   * created with them is attributed to that very user.
   */
  lemma CreatedPostAuthor(c: Jwt.Claims, userId: ObjectIds.ObjectId, req: Posts.PostRequest,
                          freshId: ObjectIds.ObjectId, created: Tags.DateTime, updated: Tags.DateTime)
    requires c.sub == ObjectIds.ToHex(userId)
    ensures var d := NewPost(Extensions(Some(c), None), req, freshId, created, updated);
      d.Ready? && d.post.authorId == userId
  {
    ObjectIds.ParseToHex(userId);
  }

  /** A subject that is not 24 hex digits is exactly what the author check refuses. */
  lemma BadAuthorIffNotHex(c: Jwt.Claims, req: Posts.PostRequest, freshId: ObjectIds.ObjectId,
                          created: Tags.DateTime, updated: Tags.DateTime)
    ensures NewPost(Extensions(Some(c), None), req, freshId, created, updated) == BadAuthor
        <==> !ObjectIds.IsObjectIdText(c.sub)
  {
    ObjectIds.ParseObjectIdSucceeds(c.sub);
  }
}
