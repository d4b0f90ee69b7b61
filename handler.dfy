/**
 * The HTTP handlers (internal/handler/handler.go).
 *
 * JSON binding is an input: the bound request, or `None` when the body is
 * malformed. The repository is an input too: the answer it gives when
 * called. A handler's reply records the status, the JSON body, and which
 * repository call, with which arguments, it made, if any.
 */
module Handler {
  import opened Wrappers
  import opened AppError
  import opened Response
  import opened Request
  import Strconv
  import Model
  import Repository

  const StatusOK: int := 200
  const StatusCreated: int := 201
  const StatusBadRequest: int := 400
  const StatusNotFound: int := 404
  const StatusInternalServerError: int := 500

  datatype RepoCall =
    | CreatePostCall(title: string, content: string)
    | AddCommentCall(postId: int, content: string)
    | GetPostCall(postId: int)
    | ListPostsCall

  /** The JSON body: `{"error": ..}`, `{"post_id": ..}`, `{"comment_id": ..}`, `{"post": ..}` or `{"posts": ..}`. */
  datatype Body =
    | ErrorBody(error: string)
    | PostIdBody(postId: int)
    | CommentIdBody(commentId: int)
    | PostBody(post: PostWithCommentsResponse)
    | PostsBody(posts: seq<PostWithCommentCountResponse>)

  datatype Reply = Reply(status: int, body: Body, call: Option<RepoCall>)

  /**
   * `defineHTTPErrorStatus`: invalid input is 400, then not-found is 404,
   * both with the error's own message; anything else is 500 with the
   * internal sentinel's fixed text.
   */
  function DefineHttpErrorStatus(err: Error): (r: (int, string))
    ensures r.0 == StatusBadRequest <==> Is(err, InvalidInput)
    ensures r.0 == StatusNotFound <==> !Is(err, InvalidInput) && Is(err, NotFound)
    ensures r.0 == StatusInternalServerError <==> !Is(err, InvalidInput) && !Is(err, NotFound)
    ensures r.0 != StatusInternalServerError ==> r.1 == Message(err)
    ensures r.0 == StatusInternalServerError ==> r.1 == "internal server error"
  {
    if Is(err, InvalidInput) then (StatusBadRequest, Message(err))
    else if Is(err, NotFound) then (StatusNotFound, Message(err))
    else (StatusInternalServerError, SentinelMessage(InternalServer))
  }

  /** A 500 reveals nothing of the error behind it: any two such errors give the same reply text. */
  lemma InternalDetailHidden(e1: Error, e2: Error)
    requires DefineHttpErrorStatus(e1).0 == StatusInternalServerError
    requires DefineHttpErrorStatus(e2).0 == StatusInternalServerError
    ensures DefineHttpErrorStatus(e1) == DefineHttpErrorStatus(e2)
  {
  }

  /**
   * `getPostIDFromParams`: `strconv.Atoi` of the `:id` segment. Only the
   * syntax and the 64-bit range are checked; zero and negative ids pass.
   */
  function GetPostIdFromParams(param: string): (r: Option<int>)
    ensures r.Some? ==> |Strconv.Unsigned(param)| > 0 && Strconv.AllDigits(Strconv.Unsigned(param))
    ensures r.Some? ==> Strconv.MinInt <= r.value <= Strconv.MaxInt
    ensures |Strconv.Unsigned(param)| > 0 && Strconv.AllDigits(Strconv.Unsigned(param)) ==>
      var m: int := Strconv.DigitsValue(Strconv.Unsigned(param));
      var v := if param[0] == '-' then -m else m;
      (Strconv.MinInt <= v <= Strconv.MaxInt <==> r.Some?) && (r.Some? ==> r.value == v)
  {
    Strconv.Atoi(param)
  }

  /** Every id the API hands out reads back from its decimal form, including 0 and negatives. */
  lemma PostIdRoundTrip(id: int)
    requires Strconv.MinInt <= id <= Strconv.MaxInt
    ensures GetPostIdFromParams(Strconv.Itoa(id)) == Some(id)
  {
    Strconv.AtoiItoa(id);
  }

  /** The reply for an error: its classified status and message. */
  function ErrorReply(err: Error, call: Option<RepoCall>): Reply
  {
    var (status, msg) := DefineHttpErrorStatus(err);
    Reply(status, ErrorBody(msg), call)
  }

  /**
   * `CreateBlogPost`: bind, then validate, then create. Only a valid
   * request reaches the repository, with its title and content.
   */
  method CreateBlogPost(bound: Option<CreateBlogPostRequest>, created: Repository.IdOutcome)
    returns (reply: Reply)
    ensures bound.None? ==> reply == Reply(StatusBadRequest, ErrorBody("malformed json"), None)
    ensures bound.Some? && ValidateCreateBlogPost(bound.value).Some? ==>
              reply == Reply(StatusBadRequest, ErrorBody(Message(ValidateCreateBlogPost(bound.value).value)), None)
    ensures reply.call.Some? <==> bound.Some? && ValidateCreateBlogPost(bound.value).None?
    ensures reply.call.Some? ==> reply.call.value == CreatePostCall(bound.value.title, bound.value.content)
    ensures reply.call.Some? && created.err.Some? ==> reply == ErrorReply(created.err.value, reply.call)
    ensures reply.status == StatusCreated <==> reply.call.Some? && created.err.None?
    ensures reply.status == StatusCreated ==> reply.body == PostIdBody(created.id)
  {
    if bound.None? {
      return Reply(StatusBadRequest, ErrorBody("malformed json"), None);
    }
    var req := bound.value;
    var invalid := ValidateCreateBlogPost(req);
    if invalid.Some? {
      return ErrorReply(invalid.value, None);
    }
    var call := CreatePostCall(req.title, req.content);
    if created.err.Some? {
      return ErrorReply(created.err.value, Some(call));
    }
    return Reply(StatusCreated, PostIdBody(created.id), Some(call));
  }

  /**
   * `AddComment`: bind, then the post id, then validate, then add. A
   * malformed body is reported even when the id is bad too.
   */
  method AddComment(bound: Option<AddCommentRequest>, param: string, added: Repository.IdOutcome)
    returns (reply: Reply)
    ensures bound.None? ==> reply == Reply(StatusBadRequest, ErrorBody("malformed json"), None)
    ensures bound.Some? && GetPostIdFromParams(param).None? ==>
              reply == Reply(StatusBadRequest, ErrorBody("invalid post id"), None)
    ensures bound.Some? && GetPostIdFromParams(param).Some? && ValidateAddComment(bound.value).Some? ==>
              reply == Reply(StatusBadRequest, ErrorBody(Message(ValidateAddComment(bound.value).value)), None)
    ensures reply.call.Some? <==>
              bound.Some? && GetPostIdFromParams(param).Some? && ValidateAddComment(bound.value).None?
    ensures reply.call.Some? ==>
              reply.call.value == AddCommentCall(GetPostIdFromParams(param).value, bound.value.content)
    ensures reply.call.Some? && added.err.Some? ==> reply == ErrorReply(added.err.value, reply.call)
    ensures reply.status == StatusCreated <==> reply.call.Some? && added.err.None?
    ensures reply.status == StatusCreated ==> reply.body == CommentIdBody(added.id)
  {
    if bound.None? {
      return Reply(StatusBadRequest, ErrorBody("malformed json"), None);
    }
    var req := bound.value;
    var postId := GetPostIdFromParams(param);
    if postId.None? {
      return Reply(StatusBadRequest, ErrorBody("invalid post id"), None);
    }
    var invalid := ValidateAddComment(req);
    if invalid.Some? {
      return ErrorReply(invalid.value, None);
    }
    var call := AddCommentCall(postId.value, req.content);
    if added.err.Some? {
      return ErrorReply(added.err.value, Some(call));
    }
    return Reply(StatusCreated, CommentIdBody(added.id), Some(call));
  }

  /** `GetPostWithComments`: the post id, then the fetch. */
  method GetPostWithComments(param: string, found: Result<PostWithCommentsResponse, Error>)
    returns (reply: Reply)
    ensures GetPostIdFromParams(param).None? ==>
              reply == Reply(StatusBadRequest, ErrorBody("invalid post id"), None)
    ensures reply.call.Some? <==> GetPostIdFromParams(param).Some?
    ensures reply.call.Some? ==> reply.call.value == GetPostCall(GetPostIdFromParams(param).value)
    ensures reply.call.Some? && found.Err? ==> reply == ErrorReply(found.error, reply.call)
    ensures reply.status == StatusOK <==> reply.call.Some? && found.Ok?
    ensures reply.status == StatusOK ==> reply.body == PostBody(found.value)
  {
    var postId := GetPostIdFromParams(param);
    if postId.None? {
      return Reply(StatusBadRequest, ErrorBody("invalid post id"), None);
    }
    var call := GetPostCall(postId.value);
    if found.Err? {
      return ErrorReply(found.error, Some(call));
    }
    return Reply(StatusOK, PostBody(found.value), Some(call));
  }

  /** `GetAllPostsWithCommentCount`: the listing, handed on unchanged. */
  method GetAllPostsWithCommentCount(listed: Result<seq<PostWithCommentCountResponse>, Error>)
    returns (reply: Reply)
    ensures reply.call == Some(ListPostsCall)
    ensures listed.Err? ==> reply == ErrorReply(listed.error, Some(ListPostsCall))
    ensures reply.status == StatusOK <==> listed.Ok?
    ensures listed.Ok? ==> reply.body == PostsBody(listed.value)
  {
    if listed.Err? {
      return ErrorReply(listed.error, Some(ListPostsCall));
    }
    return Reply(StatusOK, PostsBody(listed.value), Some(ListPostsCall));
  }

  // ---- the handlers composed with the repository's results ----

  /** A validation failure is always a 400 carrying the validation message. */
  lemma ValidationFailuresAreBadRequest(req: CreateBlogPostRequest, comment: AddCommentRequest)
    ensures var v := ValidateCreateBlogPost(req);
      v.Some? ==> DefineHttpErrorStatus(v.value) == (StatusBadRequest, Message(v.value))
    ensures var v := ValidateAddComment(comment);
      v.Some? ==> DefineHttpErrorStatus(v.value) == (StatusBadRequest, Message(v.value))
  {
  }

  /** Fetching a post id with no rows answers 404 with the not-found text. */
  lemma MissingPostIsNotFound(format: Model.Formatter)
    ensures var r := Repository.PostLookup(Repository.Rows([], None), format);
      r.Err? && DefineHttpErrorStatus(r.error) == (StatusNotFound, "resource not found")
  {
  }

  /** Every other repository failure answers 500 with the fixed text, never the database's words. */
  lemma RepositoryFaultsAreInternal(
    q: Repository.Query<Repository.JoinRow>, l: Repository.Query<Repository.ListRow>,
    scan: Repository.InsertScan, title: string, content: string, postId: int, format: Model.Formatter)
    requires q.Rows? ==> Repository.Dereferenceable(q.rows)
    ensures var r := Repository.PostLookup(q, format);
      r.Err? && q != Repository.Rows([], None) ==>
        DefineHttpErrorStatus(r.error) == (StatusInternalServerError, "internal server error")
    ensures var r := Repository.ListPosts(l, format);
      r.Err? ==> DefineHttpErrorStatus(r.error) == (StatusInternalServerError, "internal server error")
    ensures var r := Repository.CreatePost(title, content, scan);
      r.err.Some? ==> DefineHttpErrorStatus(r.err.value) == (StatusInternalServerError, "internal server error")
    ensures var r := Repository.AddComment(postId, content, scan);
      r.err.Some? ==> DefineHttpErrorStatus(r.err.value) == (StatusInternalServerError, "internal server error")
  {
    Repository.NotFoundExactlyWhenNoRows(q, format);
  }
}
