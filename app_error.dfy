/**
 * The application's error taxonomy (internal/error/error.go) and the two
 * operations of Go's `errors` package the core uses on it: `errors.Join`
 * and `errors.Is`.
 *
 * A Go error is seen here through what the core observes of it: the set of
 * sentinel errors that `errors.Is` finds in its tree, and its message, kept
 * as the list of lines that `Error()` joins with newlines.
 */
module AppError {
  import opened Strings

  /** The three package-level sentinel errors. */
  datatype Sentinel = NotFound | InternalServer | InvalidInput

  /** The text each sentinel was created with by `errors.New`. */
  function SentinelMessage(s: Sentinel): string
  {
    match s
    case NotFound => "resource not found"
    case InternalServer => "internal server error"
    case InvalidInput => "invalid request input"
  }

  datatype Error = Error(kinds: set<Sentinel>, lines: seq<string>)

  /** `errors.Is(err, target)` for one of the sentinels. */
  predicate Is(err: Error, target: Sentinel)
  {
    target in err.kinds
  }

  /**
   * `err.Error()`: the messages of the joined errors, one per line, so
   * every one of them can be found in it.
   */
  function Message(err: Error): (r: string)
    ensures |err.lines| == 1 ==> r == err.lines[0]
    ensures forall i | 0 <= i < |err.lines| :: Contains(r, err.lines[i])
  {
    JoinContainsEvery(err.lines, "\n");
    Join(err.lines, "\n")
  }

  /** The sentinel value itself. */
  function FromSentinel(s: Sentinel): (r: Error)
    ensures Is(r, s) && forall t :: Is(r, t) ==> t == s
    ensures Message(r) == SentinelMessage(s)
  {
    Error({s}, [SentinelMessage(s)])
  }

  /**
   * `errors.New(text)`, and any error coming from code outside the core
   * (the database driver, strconv): it wraps none of the sentinels.
   */
  function New(text: string): (r: Error)
    ensures forall t :: !Is(r, t)
    ensures Message(r) == text
  {
    Error({}, [text])
  }

  /**
   * `errors.Join(a, b)` of two non-nil errors: it is each sentinel either
   * wraps, and its message is the two messages with a newline between them.
   */
  function JoinErrors(a: Error, b: Error): (r: Error)
    ensures forall t :: Is(r, t) <==> Is(a, t) || Is(b, t)
    ensures |a.lines| > 0 && |b.lines| > 0 ==> Message(r) == Message(a) + "\n" + Message(b)
  {
    var joined := Error(a.kinds + b.kinds, a.lines + b.lines);
    if |a.lines| > 0 && |b.lines| > 0 then JoinAppend(a.lines, b.lines, "\n"); joined else joined
  }

  /** What the repository returns for every database fault: the internal sentinel joined with the cause. */
  function InternalError(cause: string): (r: Error)
    ensures Is(r, InternalServer) && !Is(r, NotFound) && !Is(r, InvalidInput)
    ensures Message(r) == SentinelMessage(InternalServer) + "\n" + cause
  {
    JoinErrors(FromSentinel(InternalServer), New(cause))
  }

  /** What request validation returns: the invalid-input sentinel joined with the reason. */
  function InvalidInputError(reason: string): (r: Error)
    ensures Is(r, InvalidInput) && !Is(r, NotFound) && !Is(r, InternalServer)
    ensures Message(r) == SentinelMessage(InvalidInput) + "\n" + reason
  {
    JoinErrors(FromSentinel(InvalidInput), New(reason))
  }

  /** The reason given to validation is part of the message the caller sees. */
  lemma InvalidInputErrorMentions(reason: string)
    ensures Contains(Message(InvalidInputError(reason)), reason)
  {
    var prefix := SentinelMessage(InvalidInput) + "\n";
    ContainsMiddle(prefix, reason, "");
    assert prefix + reason + "" == Message(InvalidInputError(reason));
  }

  /** The three sentinels carry pairwise distinct messages, so they can be told apart by text too. */
  lemma SentinelsDistinct(s: Sentinel, t: Sentinel)
    requires s != t
    ensures SentinelMessage(s) != SentinelMessage(t)
    ensures !Is(FromSentinel(s), t)
  {
  }
}
