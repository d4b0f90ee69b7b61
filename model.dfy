/**
 * The domain records and their projections (internal/model/post.go and
 * internal/model/comment.go).
 *
 * A timestamp is kept opaque. Rendering it (Go's RFC 3339 layout) is not
 * modelled: every projection takes the rendering as a parameter `format`,
 * and states its result in terms of it.
 */
module Model {
  import opened Strings
  import opened Response
  import Strconv

  /** A `time.Time`, seen only as an instant. */
  datatype Timestamp = Timestamp(unixNanos: int)

  /** `t.Format(time.RFC3339)`, left uninterpreted. */
  type Formatter = Timestamp -> string

  datatype Comment = Comment(id: int, postId: int, content: string, createdAt: Timestamp)

  datatype Post = Post(
    id: int, title: string, content: string, createdAt: Timestamp, updatedAt: Timestamp,
    comments: seq<Comment>)

  // ---- comment.go ----

  /** The labelled fields `Comment.String` prints, in its order. */
  function CommentFields(c: Comment, format: Formatter): seq<string>
  {
    ["id: " + Strconv.Itoa(c.id), "post_id: " + Strconv.Itoa(c.postId),
     "created_at: " + format(c.createdAt), "content: " + c.content]
  }

  /**
   * `Comment.String`: the labelled fields joined by ", " inside braces.
   * Each field can be found in the text; `CommentTextLayout` gives the
   * exact `Sprintf` layout.
   */
  function CommentText(c: Comment, format: Formatter): (r: string)
    ensures forall k | 0 <= k < 4 :: Contains(r, CommentFields(c, format)[k])
  {
    BracedJoinContainsEvery(CommentFields(c, format), ", ");
    "{" + Join(CommentFields(c, format), ", ") + "}"
  }

  /** The text is exactly the `Sprintf` layout `{id: %d, post_id: %d, created_at: %s, content: %s}`. */
  lemma CommentTextLayout(c: Comment, format: Formatter)
    ensures CommentText(c, format)
         == "{id: " + Strconv.Itoa(c.id) + ", post_id: " + Strconv.Itoa(c.postId)
            + ", created_at: " + format(c.createdAt) + ", content: " + c.content + "}"
  {
    var f := CommentFields(c, format);
    JoinFour(f[0], f[1], f[2], f[3], ", ");
    var id, postId, created := Strconv.Itoa(c.id), Strconv.Itoa(c.postId), format(c.createdAt);
    RegroupFour("{", "id: ", id, "post_id: ", postId, "created_at: ", created, "content: ", c.content, ", ", "}");
    assert "{" + "id: " == "{id: ";
    assert ", " + "post_id: " == ", post_id: ";
    assert ", " + "created_at: " == ", created_at: ";
    assert ", " + "content: " == ", content: ";
  }

  lemma RegroupFour(o: string, l0: string, v0: string, l1: string, v1: string, l2: string, v2: string,
                    l3: string, v3: string, sep: string, c: string)
    ensures o + ((l0 + v0) + sep + (l1 + v1) + sep + (l2 + v2) + sep + (l3 + v3)) + c
         == (o + l0) + v0 + (sep + l1) + v1 + (sep + l2) + v2 + (sep + l3) + v3 + c
  {
  }

  /** `Comment.ToCommentResponse`: id and content copied, the time rendered, the post id dropped. */
  function ToCommentResponse(c: Comment, format: Formatter): (r: CommentResponse)
    ensures r.id == c.id && r.content == c.content && r.createdAt == format(c.createdAt)
  {
    CommentResponse(c.id, c.content, format(c.createdAt))
  }

  /** The response has no place for the post id: comments differing only in it look the same. */
  lemma CommentResponseForgetsPostId(c: Comment, postId: int, format: Formatter)
    ensures ToCommentResponse(c.(postId := postId), format) == ToCommentResponse(c, format)
  {
  }

  // ---- post.go ----

  /**
   * `Post.ToPostWithCommentCount`: the post's own fields copied, times
   * rendered, and the count taken from the argument.
   */
  function ToPostWithCommentCount(p: Post, commentsCount: int, format: Formatter): (r: PostWithCommentCountResponse)
    ensures r.id == p.id && r.title == p.title && r.content == p.content
    ensures r.createdAt == format(p.createdAt) && r.updatedAt == format(p.updatedAt)
    ensures r.commentCount == commentsCount
  {
    PostWithCommentCountResponse(p.id, p.title, p.content, format(p.createdAt), format(p.updatedAt), commentsCount)
  }

  /** The count is the caller's figure: the post's own comment list plays no part. */
  lemma CommentCountIsArgument(p: Post, comments: seq<Comment>, commentsCount: int, format: Formatter)
    ensures ToPostWithCommentCount(p.(comments := comments), commentsCount, format)
         == ToPostWithCommentCount(p, commentsCount, format)
  {
  }

  /** Each comment converted, position by position. */
  function CommentResponses(cs: seq<Comment>, format: Formatter): (r: seq<CommentResponse>)
    ensures |r| == |cs|
    ensures forall i | 0 <= i < |cs| :: r[i] == ToCommentResponse(cs[i], format)
    decreases |cs|
  {
    if cs == [] then []
    else CommentResponses(cs[..|cs| - 1], format) + [ToCommentResponse(cs[|cs| - 1], format)]
  }

  /**
   * What `Post.ToPostWithComments` builds: the post's own fields, both
   * times rendered, and one response per comment, in the post's order.
   */
  function PostDetail(p: Post, format: Formatter): (r: PostWithCommentsResponse)
    ensures r.id == p.id && r.title == p.title && r.content == p.content
    ensures r.createdAt == format(p.createdAt) && r.updatedAt == format(p.updatedAt)
    ensures |r.comments| == |p.comments|
    ensures forall i | 0 <= i < |p.comments| ::
      r.comments[i].id == p.comments[i].id && r.comments[i].content == p.comments[i].content
      && r.comments[i].createdAt == format(p.comments[i].createdAt)
  {
    PostWithCommentsResponse(
      p.id, p.title, p.content, format(p.createdAt), format(p.updatedAt),
      CommentResponses(p.comments, format))
  }

  /**
   * `Post.ToPostWithComments`: a slice as long as the comment list is
   * filled index by index with the converted comments.
   */
  method ToPostWithComments(p: Post, format: Formatter) returns (r: PostWithCommentsResponse)
    ensures r == PostDetail(p, format)
  {
    var comments := new CommentResponse[|p.comments|];
    for idx := 0 to |p.comments|
      invariant forall j | 0 <= j < idx :: comments[j] == ToCommentResponse(p.comments[j], format)
    {
      comments[idx] := ToCommentResponse(p.comments[idx], format);
    }
    r := PostWithCommentsResponse(
      p.id, p.title, p.content, format(p.createdAt), format(p.updatedAt), comments[..]);
  }

  /** Each comment's `String`, position by position. */
  function CommentTexts(cs: seq<Comment>, format: Formatter): (r: seq<string>)
    ensures |r| == |cs|
    ensures forall i | 0 <= i < |cs| :: r[i] == CommentText(cs[i], format)
    decreases |cs|
  {
    if cs == [] then []
    else
      var init := CommentTexts(cs[..|cs| - 1], format);
      init + [CommentText(cs[|cs| - 1], format)]
  }

  /**
   * The labelled fields `Post.String` prints, in its order: id, title,
   * created_at, updated_at, content, then the comments joined by ", ".
   */
  function PostFields(p: Post, format: Formatter): seq<string>
  {
    ["id: " + Strconv.Itoa(p.id), "title: " + p.title,
     "created_at: " + format(p.createdAt), "updated_at: " + format(p.updatedAt),
     "content: " + p.content,
     "comments:[" + Join(CommentTexts(p.comments, format), ", ") + "]"]
  }

  /**
   * What `Post.String` prints: the labelled fields joined by ", " inside
   * braces. Each field can be found in the text; `PostTextLayout` gives
   * the exact `Sprintf` layout.
   */
  function PostText(p: Post, format: Formatter): (r: string)
    ensures forall k | 0 <= k < 6 :: Contains(r, PostFields(p, format)[k])
  {
    BracedJoinContainsEvery(PostFields(p, format), ", ");
    "{" + Join(PostFields(p, format), ", ") + "}"
  }

  /** `Post.String`: the comment strings are collected into a slice, then joined. */
  method PostString(p: Post, format: Formatter) returns (s: string)
    ensures s == PostText(p, format)
  {
    var comments := new string[|p.comments|];
    for idx := 0 to |p.comments|
      invariant forall j | 0 <= j < idx :: comments[j] == CommentText(p.comments[j], format)
    {
      comments[idx] := CommentText(p.comments[idx], format);
    }
    assert comments[..] == CommentTexts(p.comments, format);
    s := "{id: " + Strconv.Itoa(p.id) + ", title: " + p.title
      + ", created_at: " + format(p.createdAt) + ", updated_at: " + format(p.updatedAt)
      + ", content: " + p.content
      + ", comments:[" + Join(comments[..], ", ") + "]}";
    PostTextLayout(p, format);
  }

  /**
   * The text is exactly the `Sprintf` layout
   * `{id: %d, title: %s, created_at: %s, updated_at: %s, content: %s, comments:[%s]}`.
   */
  lemma PostTextLayout(p: Post, format: Formatter)
    ensures PostText(p, format)
         == "{id: " + Strconv.Itoa(p.id) + ", title: " + p.title
            + ", created_at: " + format(p.createdAt) + ", updated_at: " + format(p.updatedAt)
            + ", content: " + p.content
            + ", comments:[" + Join(CommentTexts(p.comments, format), ", ") + "]}"
  {
    var f := PostFields(p, format);
    JoinSix(f[0], f[1], f[2], f[3], f[4], f[5], ", ");
    var id, title, created, updated := Strconv.Itoa(p.id), p.title, format(p.createdAt), format(p.updatedAt);
    var content, comments := p.content, Join(CommentTexts(p.comments, format), ", ");
    assert f[5] == "comments:[" + (comments + "]");
    Regroup("{", "id: ", id, "title: ", title, "created_at: ", created, "updated_at: ", updated,
            "content: ", content, "comments:[", comments + "]", ", ", "}");
    assert "{" + "id: " == "{id: ";
    assert ", " + "title: " == ", title: ";
    assert ", " + "created_at: " == ", created_at: ";
    assert ", " + "updated_at: " == ", updated_at: ";
    assert ", " + "content: " == ", content: ";
    assert ", " + "comments:[" == ", comments:[";
    assert comments + "]" + "}" == comments + "]}";
  }

  lemma Regroup(o: string, l0: string, v0: string, l1: string, v1: string, l2: string, v2: string,
                l3: string, v3: string, l4: string, v4: string, l5: string, v5: string, sep: string, c: string)
    ensures o + ((l0 + v0) + sep + (l1 + v1) + sep + (l2 + v2) + sep + (l3 + v3) + sep + (l4 + v4) + sep + (l5 + v5)) + c
         == (o + l0) + v0 + (sep + l1) + v1 + (sep + l2) + v2 + (sep + l3) + v3 + (sep + l4) + v4 + (sep + l5) + v5 + c
  {
  }

  /** Every comment of the post appears, in full, in the post's text. */
  lemma PostTextListsComments(p: Post, format: Formatter, i: nat)
    requires i < |p.comments|
    ensures Contains(PostText(p, format), CommentText(p.comments[i], format))
  {
    var texts := CommentTexts(p.comments, format);
    var joined := Join(texts, ", ");
    JoinContainsPart(texts, ", ", i);
    ContainsMiddle("comments:[", joined, "]");
    ContainsTransitive("comments:[" + joined + "]", joined, texts[i]);
    ContainsTransitive(PostText(p, format), "comments:[" + joined + "]", texts[i]);
  }
}
