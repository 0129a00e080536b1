/** RequestSizeLimitMiddleware of apps/api/main.py: request bodies are buffered up to a limit and
    then replayed to the application. */
module BodyLimit {
  import opened Wrappers

  type Bytes = seq<bv8>

  /** An ASGI message; a missing body is empty and a missing more_body is false. */
  datatype Message = Request(body: Bytes, more: bool) | Disconnect | Other

  /** A content-length header: absent, not a number, or a number. */
  datatype ContentLength = Absent | NotANumber | Number(value: int)

  datatype Scope = Scope(isHttp: bool, path: Option<string>, contentLength: ContentLength)

  datatype Limits = Limits(body: nat, videoUpload: nat)

  const VIDEO_SUFFIX := "/videos/upload"

  predicate EndsWith(s: string, suffix: string) {
    |s| >= |suffix| && s[|s| - |suffix|..] == suffix
  }

  function LimitFor(scope: Scope, limits: Limits): nat {
    if scope.path.Some? && EndsWith(scope.path.value, VIDEO_SUFFIX) then limits.videoUpload else limits.body
  }

  /** Waiting: the stream has delivered neither the end of the body nor a disconnect. */
  datatype Outcome =
    | PassedThrough
    | TooLarge
    | ClientGone
    | Waiting
    | Forwarded(buffered: seq<Message>)

  // ----- one message at a time -----

  datatype Progress = Reading(buffered: seq<Message>, size: nat) | Done(outcome: Outcome)

  function Advance(p: Progress, m: Message, limit: nat): Progress {
    match p
    case Done(_) => p
    case Reading(buffered, size) =>
      match m
      case Disconnect => Done(ClientGone)
      case Other => p
      case Request(body, more) =>
        if size + |body| > limit then Done(TooLarge)
        else if more then Reading(buffered + [m], size + |body|)
        else Done(Forwarded(buffered + [m]))
  }

  function After(messages: seq<Message>, limit: nat): Progress {
    if messages == [] then Reading([], 0)
    else Advance(After(messages[..|messages| - 1], limit), messages[|messages| - 1], limit)
  }

  predicate HeaderRefuses(scope: Scope, limit: nat) {
    scope.contentLength.Number? && scope.contentLength.value > limit
  }

  /** What the middleware does with a request whose stream delivers `messages`. */
  function Handle(scope: Scope, limits: Limits, messages: seq<Message>): Outcome {
    if !scope.isHttp then PassedThrough
    else if HeaderRefuses(scope, LimitFor(scope, limits)) then TooLarge
    else
      var p := After(messages, LimitFor(scope, limits));
      if p.Done? then p.outcome else Waiting
  }

  // ----- the objects -----

  /** The server's side of the stream. */
  class Channel {
    var pending: seq<Message>

    constructor (messages: seq<Message>)
      ensures pending == messages
    {
      pending := messages;
    }

    /** The next message; None when none ever comes. */
    method Receive() returns (m: Option<Message>)
      modifies this
      ensures if old(pending) == [] then m == None && pending == [] else m == Some(old(pending)[0]) && pending == old(pending)[1..]
    {
      if pending == [] {
        return None;
      }
      m := Some(pending[0]);
      pending := pending[1..];
    }
  }

  /** What the application reads from instead. */
  class Replay {
    var buffered: seq<Message>

    constructor (messages: seq<Message>)
      ensures buffered == messages
    {
      buffered := messages;
    }

    method Receive() returns (m: Message)
      modifies this
      ensures (m, buffered) == NextReplayed(old(buffered))
    {
      if buffered != [] {
        m := buffered[0];
        buffered := buffered[1..];
      } else {
        m := Disconnect;
      }
    }
  }

  method Call(scope: Scope, limits: Limits, receive: Channel) returns (outcome: Outcome)
    modifies receive
    ensures outcome == Handle(scope, limits, old(receive.pending))
  {
    if !scope.isHttp {
      return PassedThrough;
    }
    var maxBodySize := LimitFor(scope, limits);
    if scope.contentLength.Number? && scope.contentLength.value > maxBodySize {
      return TooLarge;
    }
    var bufferedMessages: seq<Message>, receivedSize: nat := [], 0;
    ghost var messages := receive.pending;
    ghost var read := 0;
    var moreBody := true;
    while moreBody
      invariant 0 <= read <= |messages| && receive.pending == messages[read..]
      invariant moreBody ==> After(messages[..read], maxBodySize) == Reading(bufferedMessages, receivedSize)
      invariant !moreBody ==> After(messages[..read], maxBodySize) == Done(Forwarded(bufferedMessages))
      decreases |messages| - read, moreBody
    {
      var message := receive.Receive();
      if message.None? {
        assert messages[..read] == messages;
        return Waiting;
      }
      assert messages[..read + 1][..read] == messages[..read];
      read := read + 1;
      match message.value {
        case Disconnect =>
          DoneStays(messages, read, maxBodySize);
          return ClientGone;
        case Other =>
        case Request(body, more) =>
          receivedSize := receivedSize + |body|;
          if receivedSize > maxBodySize {
            DoneStays(messages, read, maxBodySize);
            return TooLarge;
          }
          bufferedMessages := bufferedMessages + [message.value];
          moreBody := more;
      }
    }
    DoneStays(messages, read, maxBodySize);
    return Forwarded(bufferedMessages);
  }

  lemma {:induction false} DoneStays(messages: seq<Message>, n: nat, limit: nat)
    requires n <= |messages| && After(messages[..n], limit).Done?
    ensures After(messages, limit) == After(messages[..n], limit)
  {
    if n < |messages| {
      assert messages[..|messages| - 1][..n] == messages[..n];
      DoneStays(messages[..|messages| - 1], n, limit);
    } else {
      assert messages[..n] == messages;
    }
  }

  // ----- acceptance -----

  function Bodies(messages: seq<Message>): seq<Message> {
    if messages == [] then []
    else
      var last := messages[|messages| - 1];
      Bodies(messages[..|messages| - 1]) + if last.Request? then [last] else []
  }

  function Content(messages: seq<Message>): Bytes {
    if messages == [] then []
    else
      var last := messages[|messages| - 1];
      Content(messages[..|messages| - 1]) + if last.Request? then last.body else []
  }

  /** The first n messages deliver the whole body: the n-th ends it, none before it does or
      disconnects. */
  ghost predicate Delivers(messages: seq<Message>, n: nat) {
    && 0 < n <= |messages|
    && messages[n - 1].Request? && !messages[n - 1].more
    && forall i :: 0 <= i < n - 1 ==> !messages[i].Disconnect? && (messages[i].Request? ==> messages[i].more)
  }

  /** Whatever arrives, at every moment the buffer holds exactly the bytes counted, and never more
      than the limit. */
  lemma {:induction false} BufferStaysWithinLimit(messages: seq<Message>, limit: nat)
    ensures match After(messages, limit)
            case Reading(buffered, size) => size == |Content(buffered)| <= limit
            case Done(Forwarded(buffered)) => |Content(buffered)| <= limit
            case Done(_) => true
  {
    if messages != [] {
      BufferStaysWithinLimit(messages[..|messages| - 1], limit);
      var before := After(messages[..|messages| - 1], limit);
      if before.Reading? {
        assert (before.buffered + [messages[|messages| - 1]])[..|before.buffered|] == before.buffered;
      }
    }
  }

  lemma {:induction false} StillReading(messages: seq<Message>, limit: nat)
    requires forall i :: 0 <= i < |messages| ==> !messages[i].Disconnect? && (messages[i].Request? ==> messages[i].more)
    ensures After(messages, limit) == if |Content(messages)| <= limit then Reading(Bodies(messages), |Content(messages)|)
                                      else Done(TooLarge)
  {
    if messages != [] {
      StillReading(messages[..|messages| - 1], limit);
    }
  }

  lemma ContentPrefix(messages: seq<Message>, n: nat)
    requires n < |messages|
    ensures |Content(messages[..n])| <= |Content(messages[..n + 1])|
  {
    assert messages[..n + 1][..n] == messages[..n];
  }

  /** A completely delivered body is forwarded exactly when the header does not announce too much
      and its length is within the limit; then exactly its messages are forwarded, in order. */
  lemma AcceptedIffTotalFits(scope: Scope, limits: Limits, messages: seq<Message>, n: nat)
    requires scope.isHttp && Delivers(messages, n)
    ensures var limit := LimitFor(scope, limits);
      Handle(scope, limits, messages)
      == if (scope.contentLength.Number? ==> scope.contentLength.value <= limit) && |Content(messages[..n])| <= limit
         then Forwarded(Bodies(messages[..n])) else TooLarge
  {
    var limit := LimitFor(scope, limits);
    assert messages[..n][..n - 1] == messages[..n - 1];
    StillReading(messages[..n - 1], limit);
    ContentPrefix(messages, n - 1);
    DoneStays(messages, n, limit);
  }

  /** A request whose body never ends: too large once its header or its bytes so far exceed the limit;
      otherwise dropped when the client disconnects, and waited for as long as it does not. */
  lemma UnfinishedOutcome(scope: Scope, limits: Limits, messages: seq<Message>, n: nat)
    requires scope.isHttp && n <= |messages| && (n < |messages| ==> messages[n].Disconnect?)
    requires forall i :: 0 <= i < n ==> !messages[i].Disconnect? && (messages[i].Request? ==> messages[i].more)
    ensures var limit := LimitFor(scope, limits);
      Handle(scope, limits, messages)
      == if scope.contentLength.Number? && scope.contentLength.value > limit then TooLarge
         else if |Content(messages[..n])| > limit then TooLarge
         else if n < |messages| then ClientGone else Waiting
  {
    var limit := LimitFor(scope, limits);
    StillReading(messages[..n], limit);
    if n < |messages| {
      assert messages[..n + 1][..n] == messages[..n];
      DoneStays(messages, n + 1, limit);
    } else {
      assert messages[..n] == messages;
    }
  }

  /** The larger limit is for exactly the paths that end in the video upload route; requests that are
      not HTTP are passed on untouched. */
  lemma LimitByPath(scope: Scope, limits: Limits, messages: seq<Message>)
    ensures LimitFor(scope, limits)
         == if scope.path.Some? && exists prefix :: scope.path.value == prefix + "/videos/upload" then limits.videoUpload else limits.body
    ensures !scope.isHttp ==> Handle(scope, limits, messages) == PassedThrough
  {
    if scope.path.Some? {
      var path, suffix := scope.path.value, "/videos/upload";
      if EndsWith(path, suffix) {
        assert path == path[..|path| - |suffix|] + suffix;
      }
      if prefix :| path == prefix + suffix {
        assert path[|path| - |suffix|..] == suffix;
      }
    }
  }

  /** The header is absent, or states the body's length. */
  ghost predicate Truthful(scope: Scope, messages: seq<Message>, n: nat)
    requires n <= |messages|
  {
    scope.contentLength == Absent || scope.contentLength == Number(|Content(messages[..n])|)
  }

  /** Two requests to the same path with bodies of the same length, however chunked, are both
      accepted or both refused, when their headers are absent or truthful. */
  lemma ChunkingDoesNotMatter(s: Scope, t: Scope, limits: Limits, a: seq<Message>, m: nat, b: seq<Message>, n: nat)
    requires s.isHttp && t.isHttp && s.path == t.path && Delivers(a, m) && Delivers(b, n)
    requires Truthful(s, a, m) && Truthful(t, b, n) && |Content(a[..m])| == |Content(b[..n])|
    ensures Handle(s, limits, a).Forwarded? == Handle(t, limits, b).Forwarded?
  {
    AcceptedIffTotalFits(s, limits, a, m);
    AcceptedIffTotalFits(t, limits, b, n);
  }

  // ----- replay -----

  function NextReplayed(buffered: seq<Message>): (Message, seq<Message>) {
    if buffered == [] then (Disconnect, []) else (buffered[0], buffered[1..])
  }

  /** The first k messages the application receives. */
  function Replayed(buffered: seq<Message>, k: nat): seq<Message> {
    if k == 0 then []
    else
      var (m, rest) := NextReplayed(buffered);
      [m] + Replayed(rest, k - 1)
  }

  function Disconnects(k: nat): (s: seq<Message>)
    ensures |s| == k && forall i :: 0 <= i < k ==> s[i] == Disconnect
  {
    seq(k, _ => Disconnect)
  }

  /** The application reads the buffered messages in order and then only disconnects. */
  lemma {:induction false} ReplayIsFaithful(buffered: seq<Message>, k: nat)
    ensures Replayed(buffered, k) == if k <= |buffered| then buffered[..k] else buffered + Disconnects(k - |buffered|)
  {
    if k > 0 {
      if buffered == [] {
        ReplayIsFaithful([], k - 1);
        assert Disconnects(k) == [Disconnect] + Disconnects(k - 1);
      } else {
        ReplayIsFaithful(buffered[1..], k - 1);
        if k <= |buffered| {
          assert buffered[..k] == [buffered[0]] + buffered[1..][..k - 1];
        } else {
          assert buffered == [buffered[0]] + buffered[1..];
        }
      }
    }
  }

  lemma {:induction false} BodiesCarryContent(messages: seq<Message>)
    ensures Content(Bodies(messages)) == Content(messages)
  {
    if messages != [] {
      var init, last := messages[..|messages| - 1], messages[|messages| - 1];
      BodiesCarryContent(init);
      if last.Request? {
        assert Bodies(messages)[..|Bodies(messages)| - 1] == Bodies(init);
      } else {
        assert Bodies(messages) == Bodies(init);
      }
    }
  }

  /** End to end: what the application reads of an accepted request is, byte for byte, the body the
      client sent, followed by disconnects. */
  lemma AcceptedBodyArrivesIntact(scope: Scope, limits: Limits, messages: seq<Message>, n: nat, extra: nat)
    requires scope.isHttp && Delivers(messages, n) && Handle(scope, limits, messages).Forwarded?
    ensures var buffered := Handle(scope, limits, messages).buffered;
      && Replayed(buffered, |buffered| + extra) == buffered + Disconnects(extra)
      && Content(buffered) == Content(messages[..n])
      && Delivers(buffered, |buffered|)
  {
    AcceptedIffTotalFits(scope, limits, messages, n);
    var buffered := Bodies(messages[..n]);
    ReplayIsFaithful(buffered, |buffered| + extra);
    BodiesCarryContent(messages[..n]);
    BodiesDeliver(messages, n);
    if extra == 0 {
      assert buffered[..|buffered|] == buffered && buffered + Disconnects(0) == buffered;
    }
  }

  lemma {:induction false} BodiesAreRequests(messages: seq<Message>)
    requires forall i :: 0 <= i < |messages| ==> !messages[i].Disconnect? && (messages[i].Request? ==> messages[i].more)
    ensures forall i :: 0 <= i < |Bodies(messages)| ==> Bodies(messages)[i].Request? && Bodies(messages)[i].more
  {
    if messages != [] {
      BodiesAreRequests(messages[..|messages| - 1]);
    }
  }

  lemma BodiesDeliver(messages: seq<Message>, n: nat)
    requires Delivers(messages, n)
    ensures Delivers(Bodies(messages[..n]), |Bodies(messages[..n])|)
  {
    assert messages[..n][..n - 1] == messages[..n - 1];
    BodiesAreRequests(messages[..n - 1]);
  }
}
