/** Request bodies and their validation (internal/request/request.go). */
module Request {
  import opened Wrappers
  import opened Strings
  import opened AppError

  datatype CreateBlogPostRequest = CreateBlogPostRequest(title: string, content: string)

  datatype AddCommentRequest = AddCommentRequest(content: string)

  /**
   * `ValidateCreateBlogPost`: content first, then title; only emptiness is
   * checked. `None` is Go's nil error.
   */
  function ValidateCreateBlogPost(req: CreateBlogPostRequest): (r: Option<Error>)
    ensures r.None? <==> req.content != "" && req.title != ""
    ensures r.Some? ==> Is(r.value, InvalidInput) && !Is(r.value, NotFound) && !Is(r.value, InternalServer)
  {
    if req.content == "" then Some(InvalidInputError("post content cannot be empty"))
    else if req.title == "" then Some(InvalidInputError("post title cannot be empty"))
    else None
  }

  /** `ValidateAddComment`: an error exactly for empty content. */
  function ValidateAddComment(req: AddCommentRequest): (r: Option<Error>)
    ensures r.None? <==> req.content != ""
    ensures r.Some? ==> Is(r.value, InvalidInput) && !Is(r.value, NotFound) && !Is(r.value, InternalServer)
    ensures r.Some? ==> Contains(Message(r.value), "comment content cannot be empty")
  {
    if req.content == "" then
      InvalidInputErrorMentions("comment content cannot be empty");
      Some(InvalidInputError("comment content cannot be empty"))
    else None
  }

  /** Empty content is reported as such whatever the title, so content is checked first. */
  lemma EmptyContentReportedFirst(title: string)
    ensures var r := ValidateCreateBlogPost(CreateBlogPostRequest(title, ""));
      r.Some? && Message(r.value) == SentinelMessage(InvalidInput) + "\n" + "post content cannot be empty"
      && Contains(Message(r.value), "post content cannot be empty")
  {
    InvalidInputErrorMentions("post content cannot be empty");
  }

  /** With content present, an empty title is the error reported. */
  lemma EmptyTitleReported(content: string)
    requires content != ""
    ensures var r := ValidateCreateBlogPost(CreateBlogPostRequest("", content));
      r.Some? && Message(r.value) == SentinelMessage(InvalidInput) + "\n" + "post title cannot be empty"
      && Contains(Message(r.value), "post title cannot be empty")
  {
    InvalidInputErrorMentions("post title cannot be empty");
  }

  /** Whitespace is not emptiness: blank-looking fields pass validation. */
  lemma WhitespaceAccepted(blank: string)
    requires blank != "" && forall i | 0 <= i < |blank| :: blank[i] == ' '
    ensures ValidateCreateBlogPost(CreateBlogPostRequest(blank, blank)) == None
    ensures ValidateAddComment(AddCommentRequest(blank)) == None
  {
  }
}
