/** The response records the API returns (internal/response/response.go); timestamps are already text. */
module Response {

  datatype CommentResponse = CommentResponse(id: int, content: string, createdAt: string)

  datatype PostWithCommentCountResponse = PostWithCommentCountResponse(
    id: int, title: string, content: string, createdAt: string, updatedAt: string, commentCount: int)

  datatype PostWithCommentsResponse = PostWithCommentsResponse(
    id: int, title: string, content: string, createdAt: string, updatedAt: string,
    comments: seq<CommentResponse>)
}
