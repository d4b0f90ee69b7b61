/**
 * The data-access layer (internal/repository/blog.go).
 *
 * The database is an input. A query either fails outright, or yields the
 * rows `rows.Next()` delivered, each either scanned or failing to scan,
 * followed by what `rows.Err()` reports once iteration stops. A
 * single-row insert yields the scanned id or the error of the scan.
 */
module Repository {
  import opened Wrappers
  import opened AppError
  import opened Model
  import opened Response

  /** The outcome of `QueryContext` followed by iteration over its rows. */
  datatype Query<R> = QueryFailed(reason: string) | Rows(rows: seq<R>, iterationError: Option<string>)

  /** One row of the listing query: id, title, created_at, updated_at, comment_count. */
  datatype ListRow =
    | ListScanFail(reason: string)
    | ListScanned(id: int, title: string, createdAt: Timestamp, updatedAt: Timestamp, commentCount: int)

  /** One row of the post-with-comments LEFT JOIN; NULL columns are `None`. */
  datatype JoinRow =
    | JoinScanFail(reason: string)
    | JoinScanned(
        postId: Option<int>, title: Option<string>, content: Option<string>,
        postCreatedAt: Option<Timestamp>, postUpdatedAt: Option<Timestamp>,
        commentId: Option<int>, commentContent: Option<string>, commentCreatedAt: Option<Timestamp>)

  /** `QueryRowContext(...).Scan(&id)` of an insert with `RETURNING id`. */
  datatype InsertScan = ScannedId(id: int) | ScanError(reason: string)

  /** Go's `(int, error)` pair; `None` is the nil error. */
  datatype IdOutcome = IdOutcome(id: int, err: Option<Error>)

  // ---- GetAllPostsWithCommentCount ----

  /** The summary built from a scanned listing row; the query selects no content. */
  function ListEntry(row: ListRow, format: Formatter): (r: PostWithCommentCountResponse)
    requires row.ListScanned?
    ensures r.id == row.id && r.title == row.title && r.content == ""
    ensures r.createdAt == format(row.createdAt) && r.updatedAt == format(row.updatedAt)
    ensures r.commentCount == row.commentCount
  {
    ToPostWithCommentCount(Post(row.id, row.title, "", row.createdAt, row.updatedAt, []), row.commentCount, format)
  }

  /** The summaries of the rows that scanned, in row order; failed rows are skipped. */
  function Listing(rows: seq<ListRow>, format: Formatter): (r: seq<PostWithCommentCountResponse>)
    ensures |r| <= |rows|
    ensures forall k | 0 <= k < |r| :: r[k].content == ""
    decreases |rows|
  {
    if rows == [] then []
    else
      var last := rows[|rows| - 1];
      Listing(rows[..|rows| - 1], format) + (if last.ListScanned? then [ListEntry(last, format)] else [])
  }

  /** The result `GetAllPostsWithCommentCount` returns for a query outcome. */
  function ListPosts(q: Query<ListRow>, format: Formatter): (r: Result<seq<PostWithCommentCountResponse>, Error>)
    ensures r.Err? <==> q.QueryFailed? || q.iterationError.Some?
    ensures r.Err? ==> Is(r.error, InternalServer) && !Is(r.error, NotFound) && !Is(r.error, InvalidInput)
  {
    match q
    case QueryFailed(reason) => Err(InternalError(reason))
    case Rows(rows, iterationError) =>
      if iterationError.Some? then Err(InternalError(iterationError.value))
      else Ok(Listing(rows, format))
  }

  /**
   * `GetAllPostsWithCommentCount`: accumulate a summary per scanned row,
   * skip rows that fail to scan, then let an iteration error discard all.
   */
  method GetAllPostsWithCommentCount(q: Query<ListRow>, format: Formatter)
    returns (r: Result<seq<PostWithCommentCountResponse>, Error>)
    ensures r == ListPosts(q, format)
  {
    if q.QueryFailed? {
      return Err(InternalError(q.reason));
    }
    var rows := q.rows;
    var posts: seq<PostWithCommentCountResponse> := [];
    var i := 0;
    while i < |rows|
      invariant 0 <= i <= |rows|
      invariant posts == Listing(rows[..i], format)
    {
      assert rows[..i + 1][..i] == rows[..i];
      var row := rows[i];
      i := i + 1;
      if row.ListScanFail? {
        continue;
      }
      posts := posts + [ListEntry(row, format)];
    }
    assert rows[..i] == rows;
    if q.iterationError.Some? {
      return Err(InternalError(q.iterationError.value));
    }
    return Ok(posts);
  }

  /** Listing distributes over concatenation: earlier rows never affect later ones. */
  lemma {:induction false} ListingAppend(a: seq<ListRow>, b: seq<ListRow>, format: Formatter)
    ensures Listing(a + b, format) == Listing(a, format) + Listing(b, format)
    decreases |b|
  {
    if b == [] {
      assert a + b == a;
    } else {
      var b' := b[..|b| - 1];
      assert (a + b)[..|a + b| - 1] == a + b';
      ListingAppend(a, b', format);
    }
  }

  /** A row that fails to scan is dropped and the rows after it are still collected. */
  lemma ListingSkipsScanFailure(a: seq<ListRow>, reason: string, b: seq<ListRow>, format: Formatter)
    ensures Listing(a + [ListScanFail(reason)] + b, format) == Listing(a + b, format)
  {
    ListingAppend(a + [ListScanFail(reason)], b, format);
    ListingAppend(a, [ListScanFail(reason)], format);
    ListingAppend(a, b, format);
    assert Listing([ListScanFail(reason)], format) == [];
  }

  /** When every row scans, there is exactly one summary per row, in row order. */
  lemma {:induction false} ListingAllScanned(rows: seq<ListRow>, format: Formatter)
    requires forall i | 0 <= i < |rows| :: rows[i].ListScanned?
    ensures |Listing(rows, format)| == |rows|
    ensures forall i | 0 <= i < |rows| :: Listing(rows, format)[i] == ListEntry(rows[i], format)
    decreases |rows|
  {
    if rows != [] {
      ListingAllScanned(rows[..|rows| - 1], format);
    }
  }

  // ---- GetPostWithComments ----

  /** The row carries a comment: both comment id and comment content are non-NULL. */
  predicate HasComment(row: JoinRow)
  {
    row.JoinScanned? && row.commentId.Some? && row.commentContent.Some?
  }

  /** The columns the code dereferences when it builds the post from this row are non-NULL. */
  predicate HeaderPresent(row: JoinRow)
  {
    row.JoinScanned? && row.postId.Some? && row.title.Some? && row.content.Some?
    && row.postCreatedAt.Some? && row.postUpdatedAt.Some?
  }

  /** The columns the code dereferences when it appends this row's comment are non-NULL. */
  predicate CommentPresent(row: JoinRow)
  {
    HasComment(row) ==> row.postId.Some? && row.commentCreatedAt.Some?
  }

  predicate ScannedBefore(rows: seq<JoinRow>, i: int)
    requires 0 <= i <= |rows|
  {
    forall j | 0 <= j < i :: rows[j].JoinScanned?
  }

  /**
   * No row that the loop reaches makes it dereference a NULL column: the
   * first row has its post columns, and every row with a comment has the
   * comment's post id and creation time. Rows after a scan failure are
   * never read.
   */
  predicate Dereferenceable(rows: seq<JoinRow>)
  {
    forall i | 0 <= i < |rows| && ScannedBefore(rows, i) && rows[i].JoinScanned? ::
      (i == 0 ==> HeaderPresent(rows[i])) && CommentPresent(rows[i])
  }

  /** The reason of the first row that failed to scan, if any. */
  function FirstScanFailure(rows: seq<JoinRow>): (r: Option<string>)
    ensures r.None? <==> ScannedBefore(rows, |rows|)
  {
    if rows == [] then None
    else if rows[0].JoinScanFail? then Some(rows[0].reason)
    else
      var rest := FirstScanFailure(rows[1..]);
      assert ScannedBefore(rows[1..], |rows| - 1) ==> ScannedBefore(rows, |rows|) by {
        if ScannedBefore(rows[1..], |rows| - 1) {
          forall j | 0 <= j < |rows| ensures rows[j].JoinScanned? {
            if j > 0 { assert rows[j] == rows[1..][j - 1]; }
          }
        }
      }
      rest
  }

  /** The post columns of a row, with no comments yet. */
  function Header(row: JoinRow): (p: Post)
    requires HeaderPresent(row)
    ensures p.comments == []
  {
    Post(row.postId.value, row.title.value, row.content.value,
         row.postCreatedAt.value, row.postUpdatedAt.value, [])
  }

  /** The comment a row carries: its id, content and time, and the row's post id. */
  function RowComment(row: JoinRow): Comment
    requires HasComment(row) && CommentPresent(row)
  {
    Comment(row.commentId.value, row.postId.value, row.commentContent.value, row.commentCreatedAt.value)
  }

  /** The comments of the rows that carry one, in row order. */
  function CommentsOf(rows: seq<JoinRow>): (r: seq<Comment>)
    requires forall i | 0 <= i < |rows| :: CommentPresent(rows[i])
    ensures |r| <= |rows|
    decreases |rows|
  {
    if rows == [] then []
    else
      var last := rows[|rows| - 1];
      CommentsOf(rows[..|rows| - 1]) + (if HasComment(last) then [RowComment(last)] else [])
  }

  /** The post a non-empty, fully scanned result describes: first row's post columns, all rows' comments. */
  function PostOf(rows: seq<JoinRow>): (p: Post)
    requires |rows| > 0 && HeaderPresent(rows[0])
    requires forall i | 0 <= i < |rows| :: CommentPresent(rows[i])
  {
    Header(rows[0]).(comments := CommentsOf(rows))
  }

  lemma DereferenceableScanned(rows: seq<JoinRow>)
    requires Dereferenceable(rows) && ScannedBefore(rows, |rows|)
    ensures |rows| > 0 ==> HeaderPresent(rows[0])
    ensures forall i | 0 <= i < |rows| :: CommentPresent(rows[i])
  {
    forall i | 0 <= i < |rows| ensures (i == 0 ==> HeaderPresent(rows[i])) && CommentPresent(rows[i]) {
      assert ScannedBefore(rows, i);
    }
  }

  /**
   * The result `GetPostWithComments` returns for a query outcome: a post
   * exactly when the query and the iteration succeed, every row scans and
   * there is at least one row; otherwise an error that is either Internal
   * or NotFound, never both and never InvalidInput.
   */
  function PostLookup(q: Query<JoinRow>, format: Formatter): (r: Result<PostWithCommentsResponse, Error>)
    requires q.Rows? ==> Dereferenceable(q.rows)
    ensures r.Ok? <==>
      q.Rows? && q.iterationError.None? && q.rows != [] && ScannedBefore(q.rows, |q.rows|)
    ensures r.Err? ==> (Is(r.error, InternalServer) <==> !Is(r.error, NotFound)) && !Is(r.error, InvalidInput)
    ensures r.Ok? ==> |r.value.comments| <= |q.rows|
  {
    match q
    case QueryFailed(reason) => Err(InternalError(reason))
    case Rows(rows, iterationError) =>
      match FirstScanFailure(rows)
      case Some(reason) => Err(InternalError(reason))
      case None =>
        if iterationError.Some? then Err(InternalError(iterationError.value))
        else if rows == [] then Err(FromSentinel(NotFound))
        else
          DereferenceableScanned(rows);
          Ok(PostDetail(PostOf(rows), format))
  }

  lemma FirstScanFailureAt(rows: seq<JoinRow>, i: nat)
    requires i < |rows| && rows[i].JoinScanFail? && ScannedBefore(rows, i)
    ensures FirstScanFailure(rows) == Some(rows[i].reason)
    decreases i
  {
    if i > 0 {
      assert ScannedBefore(rows[1..], i - 1) by {
        forall j | 0 <= j < i - 1 ensures rows[1..][j].JoinScanned? {
          assert rows[1..][j] == rows[j + 1];
        }
      }
      FirstScanFailureAt(rows[1..], i - 1);
    }
  }

  /**
   * `GetPostWithComments`: build the post from the first row, append a
   * comment for every row that carries one, and stop at the first row that
   * fails to scan; then an iteration error, then an empty result, are errors.
   */
  method GetPostWithComments(q: Query<JoinRow>, format: Formatter)
    returns (r: Result<PostWithCommentsResponse, Error>)
    requires q.Rows? ==> Dereferenceable(q.rows)
    ensures r == PostLookup(q, format)
  {
    if q.QueryFailed? {
      return Err(InternalError(q.reason));
    }
    var rows := q.rows;
    var post: Option<Post> := None;
    var i := 0;
    while i < |rows|
      invariant 0 <= i <= |rows|
      invariant ScannedBefore(rows, i)
      invariant i == 0 <==> post.None?
      invariant i > 0 ==> HeaderPresent(rows[0]) && (forall j | 0 <= j < i :: CommentPresent(rows[j]))
      invariant i > 0 ==> post == Some(Header(rows[0]).(comments := CommentsOf(rows[..i])))
    {
      var row := rows[i];
      if row.JoinScanFail? {
        FirstScanFailureAt(rows, i);
        return Err(InternalError(row.reason));
      }
      assert (i == 0 ==> HeaderPresent(row)) && CommentPresent(row);
      assert rows[..i + 1][..i] == rows[..i];
      assert i == 0 ==> rows[..i] == [] && CommentsOf(rows[..i]) == [];
      ghost var before := CommentsOf(rows[..i]);
      if post.None? {
        post := Some(Header(row));
      }
      assert post.value == Header(rows[0]).(comments := before);
      if HasComment(row) {
        var comment := Comment(row.commentId.value, row.postId.value, row.commentContent.value, row.commentCreatedAt.value);
        assert comment == RowComment(row);
        post := Some(post.value.(comments := post.value.comments + [comment]));
      } else {
        assert before + [] == before;
      }
      assert rows[..i + 1][i] == row;
      assert CommentsOf(rows[..i + 1]) == before + (if HasComment(row) then [RowComment(row)] else []);
      assert post == Some(Header(rows[0]).(comments := CommentsOf(rows[..i + 1])));
      i := i + 1;
    }
    assert rows[..i] == rows;
    if q.iterationError.Some? {
      return Err(InternalError(q.iterationError.value));
    }
    if post.None? {
      return Err(FromSentinel(NotFound));
    }
    var detail := ToPostWithComments(post.value, format);
    return Ok(detail);
  }

  /** Comment collection distributes over concatenation of the rows. */
  lemma {:induction false} CommentsOfAppend(a: seq<JoinRow>, b: seq<JoinRow>)
    requires forall i | 0 <= i < |a| :: CommentPresent(a[i])
    requires forall i | 0 <= i < |b| :: CommentPresent(b[i])
    ensures forall i | 0 <= i < |a + b| :: CommentPresent((a + b)[i])
    ensures CommentsOf(a + b) == CommentsOf(a) + CommentsOf(b)
    decreases |b|
  {
    if b == [] {
      assert a + b == a;
    } else {
      var b' := b[..|b| - 1];
      assert (a + b)[..|a + b| - 1] == a + b';
      CommentsOfAppend(a, b');
    }
  }

  /**
   * A row contributes a comment exactly when its comment id and comment
   * content are both non-NULL, at its own position among the rows.
   */
  lemma CommentAppendedIffPresent(a: seq<JoinRow>, row: JoinRow, b: seq<JoinRow>)
    requires forall i | 0 <= i < |a| :: CommentPresent(a[i])
    requires CommentPresent(row)
    requires forall i | 0 <= i < |b| :: CommentPresent(b[i])
    ensures forall i | 0 <= i < |a + [row] + b| :: CommentPresent((a + [row] + b)[i])
    ensures CommentsOf(a + [row] + b)
         == CommentsOf(a) + (if HasComment(row) then [RowComment(row)] else []) + CommentsOf(b)
  {
    CommentsOfAppend(a, [row]);
    CommentsOfAppend(a + [row], b);
    assert CommentsOf([row]) == CommentsOf([]) + (if HasComment(row) then [RowComment(row)] else []);
  }

  /**
   * NotFound is reported exactly for an empty result whose iteration ended
   * cleanly; every other failure is Internal.
   */
  lemma NotFoundExactlyWhenNoRows(q: Query<JoinRow>, format: Formatter)
    requires q.Rows? ==> Dereferenceable(q.rows)
    ensures var r := PostLookup(q, format);
      (r.Err? && Is(r.error, NotFound)) <==> q == Rows([], None)
    ensures var r := PostLookup(q, format);
      r.Err? && q != Rows([], None) ==> Is(r.error, InternalServer) && !Is(r.error, InvalidInput)
    ensures PostLookup(q, format).Ok? ==> q.Rows? && |q.rows| > 0
  {
  }

  /** The post's own fields come from the first row; later rows never change them. */
  lemma PostFromFirstRow(q: Query<JoinRow>, format: Formatter)
    requires q.Rows? ==> Dereferenceable(q.rows)
    requires PostLookup(q, format).Ok?
    ensures var d, first := PostLookup(q, format).value, q.rows[0];
      first.JoinScanned? && first.postId.Some? && first.title.Some? && first.content.Some?
      && first.postCreatedAt.Some? && first.postUpdatedAt.Some?
      && d.id == first.postId.value && d.title == first.title.value && d.content == first.content.value
      && d.createdAt == format(first.postCreatedAt.value) && d.updatedAt == format(first.postUpdatedAt.value)
  {
    DereferenceableScanned(q.rows);
  }

  /**
   * The fetched post's comments are those of the rows that carry one, in
   * row order, each converted to its response.
   */
  lemma FetchedComments(rows: seq<JoinRow>, format: Formatter)
    requires Dereferenceable(rows) && PostLookup(Rows(rows, None), format).Ok?
    ensures forall i | 0 <= i < |rows| :: CommentPresent(rows[i])
    ensures PostLookup(Rows(rows, None), format).value.comments == CommentResponses(CommentsOf(rows), format)
  {
    DereferenceableScanned(rows);
  }

  /** A single row whose comment columns are NULL is a post with no comments, not an absence. */
  lemma LoneRowWithoutComment(row: JoinRow, format: Formatter)
    requires HeaderPresent(row) && !HasComment(row)
    ensures Dereferenceable([row])
    ensures var r := PostLookup(Rows([row], None), format);
      r.Ok? && r.value.comments == [] && r.value.id == row.postId.value
  {
    assert ScannedBefore([row], 1);
  }

  /**
   * A row that fails to scan makes the whole fetch Internal, whatever the
   * rows before it yielded and whatever follows.
   */
  lemma ScanFailureIsFatal(a: seq<JoinRow>, reason: string, b: seq<JoinRow>, iterationError: Option<string>, format: Formatter)
    requires ScannedBefore(a, |a|)
    requires Dereferenceable(a + [JoinScanFail(reason)] + b)
    ensures PostLookup(Rows(a + [JoinScanFail(reason)] + b, iterationError), format) == Err(InternalError(reason))
  {
    var rows := a + [JoinScanFail(reason)] + b;
    assert rows[|a|] == JoinScanFail(reason);
    assert ScannedBefore(rows, |a|) by {
      forall j | 0 <= j < |a| ensures rows[j].JoinScanned? { assert rows[j] == a[j]; }
    }
    FirstScanFailureAt(rows, |a|);
  }

  // ---- CreatePost and AddComment ----

  /**
   * `CreatePost`: the id the insert returned, or 0 and an Internal error.
   * Title and content are passed to the store unchecked.
   */
  function CreatePost(title: string, content: string, scan: InsertScan): (r: IdOutcome)
    ensures r.err.None? <==> scan.ScannedId?
    ensures scan.ScannedId? ==> r.id == scan.id
    ensures scan.ScanError? ==>
              r.id == 0 && Is(r.err.value, InternalServer)
              && !Is(r.err.value, NotFound) && !Is(r.err.value, InvalidInput)
  {
    match scan
    case ScanError(reason) => IdOutcome(0, Some(InternalError(reason)))
    case ScannedId(id) => IdOutcome(id, None)
  }

  /**
   * `AddComment`: the id the insert returned, or 0 and an Internal error.
   * The post is not looked up first: a missing post surfaces as the
   * store's foreign-key failure, hence as Internal, never as NotFound.
   */
  function AddComment(blogPostId: int, content: string, scan: InsertScan): (r: IdOutcome)
    ensures r.err.None? <==> scan.ScannedId?
    ensures scan.ScannedId? ==> r.id == scan.id
    ensures scan.ScanError? ==>
              r.id == 0 && Is(r.err.value, InternalServer)
              && !Is(r.err.value, NotFound) && !Is(r.err.value, InvalidInput)
  {
    match scan
    case ScanError(reason) => IdOutcome(0, Some(InternalError(reason)))
    case ScannedId(id) => IdOutcome(id, None)
  }
}
