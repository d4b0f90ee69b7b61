# prosig-blog core in Dafny

A model of the decision-making core of a small blog HTTP API written in Go:
posts, comments on posts, a listing of posts with their comment counts,
and a single post fetched together with its comments.

What is modelled, one Dafny module per Go package:

- `Repository` (internal/repository/blog.go): the four data-access
  operations. The database is an input: a query either fails, or yields
  the rows iteration delivered (each scanned or failing to scan) and the
  error `rows.Err()` reports at the end. The listing and the single-post
  fetch are loops with accumulators, proved against specification
  functions (`ListPosts`, `PostLookup`) about which the properties are
  proved: skipped rows in the listing, first-row-wins and
  comment-iff-present in the LEFT JOIN fold, fatal scan failures in the
  fetch, NotFound only for an empty result.
- `Handler` (internal/handler/handler.go): error classification,
  post-id parsing, and the four handlers as early-return procedures.
  JSON binding and the repository are inputs; a reply records the
  status, the JSON body and the repository call made, if any, so that
  "no earlier failure reaches the repository" is a postcondition.
- `Request` (internal/request/request.go): the two validators.
- `Model` and `Response` (internal/model, internal/response): the
  domain records, the projections to response records, and `String`.
- `Logger` (internal/logger/logger.go): `parseLevel`.
- `AppError` (internal/error/error.go): the three sentinels, and
  `errors.Join` / `errors.Is` / `Error()` on errors seen as a set of
  sentinel kinds plus message lines.
- `Strings`, `Strconv`, `Wrappers`: the Go library behaviour the core
  relies on (`strings.Join`, `strings.Contains`, `strings.ToLower`,
  `strconv.Atoi`, the `%d` verb) and Option/Result.

The listing's summaries carry an empty `content`, because the listing
query (internal/repository/blog.go:19) does not select it.
Classification tests invalid input before not-found
(internal/handler/handler.go:188-191), so an error wrapping both is a 400.

## Model

| member | source | states |
|---|---|---|
| AppError.FromSentinel | internal/error/error.go:5-9 | a sentinel is exactly its own kind and its message is its creation text |
| AppError.SentinelsDistinct | internal/error/error.go:5-9 | the three sentinels have pairwise distinct messages and none is another |
| AppError.New | internal/request/request.go:21 | a plain error wraps no sentinel and its message is its text |
| AppError.Message | internal/handler/handler.go:189 | the message of a single error is its text, and every joined error's message can be found in it |
| AppError.JoinErrors | internal/request/request.go:21 | a joined error is each sentinel either part wraps, and its message is the two messages separated by a newline |
| AppError.InternalError | internal/repository/blog.go:76 | a database fault joined to the internal sentinel is Internal, neither NotFound nor InvalidInput, and its message is "internal server error", newline, the cause |
| AppError.InvalidInputError | internal/request/request.go:21 | a validation error is InvalidInput only, with the sentinel text and the reason on two lines |
| AppError.InvalidInputErrorMentions | internal/request/request_test.go:62-63 | the reason is contained in the validation error's message |
| Strings.ToLower | internal/logger/logger.go:36 | lowering keeps the length and lowers each character in place |
| Strconv.Atoi | internal/handler/handler.go:199 | a string is accepted iff it is an optional sign followed by at least one digit and the signed decimal value is within the 64-bit range, and then that value is the result |
| Strings.ToLowerIdempotent | internal/logger/logger.go:36 | lowering an already lowered string changes nothing |
| Strconv.AtoiItoa | internal/handler/handler.go:199 | every 64-bit integer printed in decimal parses back to itself |
| Strconv.AtoiRejectsWords | internal/router/router_test.go:151-161 | "abc", "invalid", the empty string and a lone sign are not post ids |
| Logger.ParseLevel | internal/logger/logger.go:35-48 | the level whose name equals the lowered setting, and Info when no level name does |
| Logger.ParseLevelExact | internal/logger/logger.go:35-48 | Debug, Warn, Error exactly for their lowered names; Info for "info" and for every unrecognised string |
| Logger.ParseLevelIgnoresCase | internal/logger/logger.go:36 | parseLevel(s) equals parseLevel(toLower(s)) for every s |
| Logger.ParseLevelNames | internal/logger/logger_test.go:15-18 | the four names map to their levels |
| Logger.ParseLevelUpperAndUnknown | internal/logger/logger_test.go:19-20 | "DEBUG" is Debug and "unknown" is Info |
| Request.ValidateCreateBlogPost | internal/request/request.go:18-29 | no error iff content and title are both non-empty; any error is InvalidInput only |
| Request.ValidateAddComment | internal/request/request.go:31-37 | an error iff content is empty; it is InvalidInput and mentions "comment content cannot be empty" |
| Request.EmptyContentReportedFirst | internal/request/request.go:20-22 | empty content gives the content message whatever the title, so content is checked first |
| Request.EmptyTitleReported | internal/request/request.go:24-26 | empty title with content present gives the title message |
| Request.WhitespaceAccepted | internal/request/request.go:18-37 | blank but non-empty fields pass both validators |
| Model.CommentText | internal/model/comment.go:17-25 | each labelled field (id, post_id, created_at, content) can be found in the comment's text |
| Model.CommentTextLayout | internal/model/comment.go:17-25 | a comment's text is exactly `{id: <id>, post_id: <post id>, created_at: <time>, content: <content>}` |
| Model.ToCommentResponse | internal/model/comment.go:27-33 | the response copies id and content and renders the creation time |
| Model.CommentResponseForgetsPostId | internal/model/comment.go:28-32 | comments differing only in post id give the same response |
| Model.ToPostWithCommentCount | internal/model/post.go:37-46 | id, title, content copied, both times rendered, count taken from the argument |
| Model.CommentCountIsArgument | internal/model/post.go:44 | the summary does not depend on the post's own comment list |
| Model.CommentResponses | internal/model/post.go:49-52 | as many responses as comments, the i-th being the conversion of the i-th comment |
| Model.PostDetail | internal/model/post.go:53-60 | the post's id, title and content, both times rendered, and per comment, in order, its id, content and rendered time |
| Model.ToPostWithComments | internal/model/post.go:48-61 | the index-by-index fill yields the post's fields, both times rendered, and the converted comments in order |
| Model.CommentTexts | internal/model/post.go:23-26 | as many strings as comments, the i-th being the text of the i-th comment |
| Model.PostText | internal/model/post.go:20-35 | each labelled field (id, title, created_at, updated_at, content, comments) can be found in the post's text |
| Model.PostString | internal/model/post.go:20-35 | the fill-then-join yields exactly the post's text |
| Model.PostTextLayout | internal/model/post.go:27-34 | a post's text is exactly the layout id, title, created_at, updated_at, content, then the comment texts joined by ", " inside `comments:[...]` |
| Model.PostTextListsComments | internal/model/post_test.go:33-35 | every comment's text occurs in the post's text |
| Repository.ListEntry | internal/repository/blog.go:92-99 | a listing row's summary copies id, title, both times and the count; content is empty |
| Repository.Listing | internal/repository/blog.go:80-100 | never more summaries than rows, and every summary's content is empty |
| Repository.ListPosts | internal/repository/blog.go:70-108 | an error exactly when the query or the iteration failed, and then it is Internal only |
| Repository.GetAllPostsWithCommentCount | internal/repository/blog.go:70-108 | the loop returns exactly ListPosts of the query outcome |
| Repository.ListingAppend | internal/repository/blog.go:81-100 | the listing of concatenated rows is the concatenation of the listings |
| Repository.ListingSkipsScanFailure | internal/repository/blog.go:86-90 | a row that fails to scan is dropped and the rows after it are still collected |
| Repository.ListingAllScanned | internal/repository/blog.go:81-100 | when all rows scan there is one summary per row, in row order |
| Repository.FirstScanFailure | internal/repository/blog.go:142-145 | no failure is found iff every row scanned |
| Repository.Header | internal/repository/blog.go:149-155 | the post built from a row starts with no comments |
| Repository.CommentsOf | internal/repository/blog.go:158-167 | never more comments than rows |
| Repository.CommentsOfAppend | internal/repository/blog.go:158-167 | comment collection distributes over concatenated rows |
| Repository.CommentAppendedIffPresent | internal/repository/blog.go:159-166 | a row adds a comment, at its own position, iff comment id and content are both non-NULL |
| Repository.PostLookup | internal/repository/blog.go:110-181 | a post exactly when the query and the iteration succeed, every row scans and there is a row; otherwise an error that is Internal or NotFound, not both, never InvalidInput; no more comments than rows |
| Repository.GetPostWithComments | internal/repository/blog.go:110-181 | the loop returns exactly PostLookup of the query outcome |
| Repository.NotFoundExactlyWhenNoRows | internal/repository/blog.go:170-178 | NotFound iff no rows and a clean iteration end; every other failure is Internal; success needs a row |
| Repository.PostFromFirstRow | internal/repository/blog.go:147-156 | the fetched post's id, title, content and times are the first row's |
| Repository.FetchedComments | internal/repository/blog.go:158-180 | a fetched post's comments are the responses of the comments of the rows carrying one, in row order |
| Repository.LoneRowWithoutComment | internal/repository/blog.go:158-180 | one row with NULL comment columns is a post with no comments |
| Repository.ScanFailureIsFatal | internal/repository/blog.go:142-145 | a scan failure after any clean rows makes the fetch Internal with that cause |
| Repository.CreatePost | internal/repository/blog.go:183-193 | success iff the insert scanned, returning its id unchanged; otherwise id 0 and Internal; title and content unchecked |
| Repository.AddComment | internal/repository/blog.go:195-205 | success iff the insert scanned, returning its id unchanged; otherwise id 0 and Internal, never NotFound |
| Handler.DefineHttpErrorStatus | internal/handler/handler.go:186-195 | 400 iff InvalidInput, 404 iff NotFound and not InvalidInput, else 500; 400/404 carry the error's message, 500 the fixed text |
| Handler.InternalDetailHidden | internal/handler/handler.go:192-193 | any two errors classified 500 yield the same status and text |
| Handler.GetPostIdFromParams | internal/handler/handler.go:197-204 | the id segment is accepted iff it is an optional sign and at least one digit whose signed value is within the 64-bit range, and the id is that value; leading zeros and "+" included |
| Handler.PostIdRoundTrip | internal/handler/handler.go:197-204 | every 64-bit id, zero and negatives included, is accepted in its decimal form |
| Handler.CreateBlogPost | internal/handler/handler.go:33-75 | bind, then validate, then create; only a valid request reaches the repository, with its title and content; 201 with the repository's id iff it succeeded |
| Handler.AddComment | internal/handler/handler.go:77-131 | bind, then post id, then validate, then add; malformed JSON wins over a bad id; only a request passing all three reaches the repository |
| Handler.GetPostWithComments | internal/handler/handler.go:133-165 | a bad id is 400 "invalid post id" with no repository call; repository errors are classified; success is 200 with the post |
| Handler.GetAllPostsWithCommentCount | internal/handler/handler.go:167-184 | repository errors are classified; success is 200 with the list unchanged |
| Handler.ValidationFailuresAreBadRequest | internal/handler/handler.go:46-55 | every validation failure classifies as 400 with its own message |
| Handler.MissingPostIsNotFound | internal/handler/handler.go:148-157 | fetching an id with no rows answers 404 "resource not found" |
| Handler.RepositoryFaultsAreInternal | internal/handler/handler.go:192-193 | every other repository failure answers 500 "internal server error" |

## Left out

- The database itself, SQL text and its semantics (grouping, COUNT, the
  ORDER BY clauses, id assignment, foreign keys): the row sequences and
  insert outcomes are inputs.
- Context cancellation, the connection pool, closing rows, concurrency:
  not expressible on values and not decisions of this code.
- Logging (`GetLogger`, every logger call and the handlers' logger
  reassignment): no bearing on results.
- JSON binding, gin context writes, JSON tags (including the
  `created_ad` tag) and encoding: binding is an input, the reply a value.
  In particular a listing with no rows is a nil slice in Go, which
  encodes as `null`; the model returns an empty sequence.
- RFC 3339 rendering of timestamps: a parameter `format` of every
  projection, not interpreted.
- NULL dereferences in the single-post fetch: stated as the precondition
  `Dereferenceable` on the rows the loop reaches, not modelled as panics.
- Go pointers: the fetch's `*model.Post` is a local `Option<Post>` that
  is reassigned; projections take the post by value, so "the receiver is
  not changed" holds by construction.
- Strings.ToLower: lowers ASCII letters only. Go also maps the
  non-ASCII letters U+0130 to "i" and U+212A to "k"; neither changes
  what `parseLevel` returns, since "i" occurs only in "info", the
  default, and no level name contains "k".
- The text of `strconv` errors and the syntax/range distinction between
  them: the handler discards both and answers "invalid post id".
- Model.Timestamp keeps only the instant of a `time.Time`, not its
  location; `Format` reads both, which is why rendering is a parameter
  and no contract compares two renderings of equal instants.
- Integers are unbounded except where `strconv.Atoi` checks the 64-bit
  range; ids and counts never overflow in the model.
- Router, response wrapper, configuration, storage setup and `main`:
  wiring and process setup.
