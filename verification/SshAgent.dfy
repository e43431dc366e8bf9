/**
 The SSH agent relay (agent/connector.go, serveSSH): the framing of section "Protocol
 Messages" of draft-miller-ssh-agent, a loop over it, and the session lock in front of
 the backend.

 The connection is a finite byte stream. The lock flag is read once for every request,
 `locked(k)` being what the k-th read gives; `backend(k, request)` is what Pageant
 answers to the k-th request, should it be asked.
 */
module SshAgent {
  import opened Basics

  type byte = x: int | 0 <= x < 256

  const MAX_AGENT_MSG_LEN: nat := 256 * 1024
  const MAX_BODY: nat := MAX_AGENT_MSG_LEN - 4
  const AGENT_FAILURE: byte := 5
  const AGENT_SUCCESS: byte := 6

  datatype BackendReply = Reply(bytes: seq<byte>) | QueryFailed

  type Lock = nat -> bool

  type Backend = (nat, seq<byte>) -> BackendReply

  // ---- frames ----

  function BigEndian(n: nat): seq<byte>
    requires n < 0x1_0000_0000
  {
    [n / 0x100_0000, n / 0x1_0000 % 0x100, n / 0x100 % 0x100, n % 0x100]
  }

  function FromBigEndian(b: seq<byte>): nat
    requires |b| == 4
  {
    var b0: int, b1: int, b2: int, b3: int := b[0], b[1], b[2], b[3];
    b0 * 0x100_0000 + b1 * 0x1_0000 + b2 * 0x100 + b3
  }

  lemma BigEndianRoundTrip(n: nat)
    requires n < 0x1_0000_0000
    ensures FromBigEndian(BigEndian(n)) == n
  {
    assert n == n / 0x100 * 0x100 + n % 0x100;
    assert n / 0x100 == n / 0x100 / 0x100 * 0x100 + n / 0x100 % 0x100;
    assert n / 0x100 / 0x100 == n / 0x1_0000;
    assert n / 0x1_0000 == n / 0x1_0000 / 0x100 * 0x100 + n / 0x1_0000 % 0x100;
    assert n / 0x1_0000 / 0x100 == n / 0x100_0000;
  }

  predicate IsBody(body: seq<byte>) { 1 <= |body| <= MAX_BODY }

  function Frame(body: seq<byte>): seq<byte>
    requires IsBody(body)
  {
    BigEndian(|body|) + body
  }

  predicate AllBodies(bodies: seq<seq<byte>>) {
    forall i :: 0 <= i < |bodies| ==> IsBody(bodies[i])
  }

  function Frames(bodies: seq<seq<byte>>): seq<byte>
    requires AllBodies(bodies)
  {
    if bodies == [] then [] else Frame(bodies[0]) + Frames(bodies[1..])
  }

  // ---- the loop ----

  /** Why serveSSH returns. */
  datatype Exit =
    | CleanEnd
    | CutHeader
    | ZeroSize
    | TooLarge(size: nat)
    | CutBody
    | ReplyTooLarge(size: nat)

  /** Whether the error it returns is nil: only where io.ReadFull reports a header cut
      short. At a clean end it returns io.EOF, everywhere else an error of its own. */
  predicate ReturnsNil(exit: Exit) { exit.CutHeader? }

  /** All serveSSH does: bytes written, requests the backend was asked, how it returned. */
  datatype Served = Served(output: seq<byte>, asked: seq<seq<byte>>, exit: Exit)

  /** The reply to a request, before its size is checked. */
  function Respond(locked: bool, reply: BackendReply): seq<byte> {
    if locked then [AGENT_FAILURE]
    else
      match reply
      case QueryFailed => [AGENT_FAILURE]
      case Reply(bytes) => if bytes == [] then [AGENT_SUCCESS] else bytes
  }

  /** The next request of the input, or the reason to return. */
  datatype Incoming = Request(body: seq<byte>, rest: seq<byte>) | Stop(exit: Exit)

  function NextRequest(input: seq<byte>): (next: Incoming)
    ensures next.Request? ==> IsBody(next.body) && |next.rest| < |input|
  {
    if input == [] then Stop(CleanEnd)
    else if |input| < 4 then Stop(CutHeader)
    else
      var size := FromBigEndian(input[..4]);
      if size == 0 then Stop(ZeroSize)
      else if size > MAX_BODY then Stop(TooLarge(size))
      else if |input| < 4 + size then Stop(CutBody)
      else Request(input[4..4 + size], input[4 + size..])
  }

  /** One request answered before `more`, or the end if its reply is too large. */
  function AnswerFirst(request: seq<byte>, k: nat, locked: Lock, backend: Backend, more: Served): Served {
    var reply := Respond(locked(k), backend(k, request));
    var asked := if locked(k) then [] else [request];
    if |reply| > MAX_BODY then Served([], asked, ReplyTooLarge(|reply|))
    else Served(Frame(reply) + more.output, asked + more.asked, more.exit)
  }

  function Serve(input: seq<byte>, k: nat, locked: Lock, backend: Backend): Served
    decreases |input|
  {
    match NextRequest(input)
    case Stop(exit) => Served([], [], exit)
    case Request(request, rest) => AnswerFirst(request, k, locked, backend, Serve(rest, k + 1, locked, backend))
  }

  /** What io.ReadFull reports. */
  datatype ReadStatus = Full | Eof | UnexpectedEof

  class Conn {
    var input: seq<byte>
    var output: seq<byte>

    /** io.ReadFull: fills the buffer or uses up the input. */
    method ReadFull(buf: array<byte>) returns (status: ReadStatus)
      requires buf.Length > 0
      modifies this`input, buf
      ensures |old(input)| >= buf.Length ==>
        status == Full && buf[..] == old(input)[..buf.Length] && input == old(input)[buf.Length..]
      ensures |old(input)| < buf.Length ==>
        input == [] && status == if old(input) == [] then Eof else UnexpectedEof
    {
      var n := if |input| < buf.Length then |input| else buf.Length;
      forall i | 0 <= i < n {
        buf[i] := input[i];
      }
      status := if n == buf.Length then Full else if n == 0 then Eof else UnexpectedEof;
      input := input[n..];
    }

    method Write(bytes: seq<byte>)
      modifies this`output
      ensures output == old(output) + bytes
    {
      output := output + bytes;
    }

    /** binary.BigEndian.PutUint32 into the reused length buffer. */
    method PutUint32(length: array<byte>, n: nat)
      requires length.Length == 4 && n < 0x1_0000_0000
      modifies length
      ensures length[..] == BigEndian(n)
    {
      length[0], length[1] := n / 0x100_0000, n / 0x1_0000 % 0x100;
      length[2], length[3] := n / 0x100 % 0x100, n % 0x100;
    }

    /** One header and one body, the header into the reused buffer. */
    method ReadRequest(length: array<byte>) returns (next: Incoming)
      requires length.Length == 4
      modifies this`input, length
      ensures next == NextRequest(old(input)) && (next.Request? ==> input == next.rest)
    {
      ghost var start := input;
      var status := ReadFull(length);
      if status != Full {
        return Stop(if status == Eof then CleanEnd else CutHeader);
      }
      var size := FromBigEndian(length[..]);
      if size == 0 {
        return Stop(ZeroSize);
      }
      if size > MAX_BODY {
        return Stop(TooLarge(size));
      }
      var req := new byte[size];
      status := ReadFull(req);
      if status != Full {
        return Stop(CutBody);
      }
      assert req[..] == start[4..4 + size] && input == start[4 + size..];
      return Request(req[..], input);
    }

    /** The lock, the backend and the reply, written unless it is too large. */
    method AnswerRequest(k: nat, request: seq<byte>, length: array<byte>, locked: Lock, backend: Backend)
      returns (size: nat, asks: seq<seq<byte>>)
      requires length.Length == 4
      modifies this`output, length
      ensures var reply := Respond(locked(k), backend(k, request));
        && size == |reply| && asks == (if locked(k) then [] else [request])
        && output == if size <= MAX_BODY then old(output) + Frame(reply) else old(output)
    {
      var resp: seq<byte>;
      asks := [];
      if locked(k) {
        resp := [AGENT_FAILURE];
      } else {
        asks := [request];
        match backend(k, request)
        case QueryFailed => resp := [AGENT_FAILURE];
        case Reply(bytes) =>
          if |bytes| > MAX_BODY {
            return |bytes|, asks;
          }
          resp := if bytes == [] then [AGENT_SUCCESS] else bytes;
      }
      size := |resp|;
      PutUint32(length, size);
      assert output + BigEndian(size) + resp == output + (BigEndian(size) + resp);
      Write(length[..]);
      Write(resp);
    }

    method ServeSSH(locked: Lock, backend: Backend) returns (exit: Exit, asked: seq<seq<byte>>)
      modifies this`input, this`output
      ensures var r := Serve(old(input), 0, locked, backend);
        output == old(output) + r.output && asked == r.asked && exit == r.exit
    {
      var length := new byte[4];
      var k := 0;
      asked := [];
      ghost var whole := Serve(input, 0, locked, backend);
      ghost var goal := output + whole.output;
      while true
        invariant fresh(length) && length.Length == 4
        invariant var r := Serve(input, k, locked, backend);
          output + r.output == goal && asked + r.asked == whole.asked && r.exit == whole.exit
        decreases |input|
      {
        ghost var before, sofar := output, asked;
        assert before + [] == before && sofar + [] == sofar;
        var next := ReadRequest(length);
        if next.Stop? {
          return next.exit, asked;
        }
        var size, asks := AnswerRequest(k, next.body, length, locked, backend);
        asked := asked + asks;
        if size > MAX_BODY {
          return ReplyTooLarge(size), asked;
        }
        k := k + 1;
        ghost var more := Serve(input, k, locked, backend);
        Associative(before, Frame(Respond(locked(k - 1), backend(k - 1, next.body))), more.output);
        Associative(sofar, asks, more.asked);
      }
    }
  }

  // ---- what it means ----

  /** The well-formed requests at the front of an input, and the rest. */
  function Split(input: seq<byte>): (seq<seq<byte>>, seq<byte>)
    decreases |input|
  {
    match NextRequest(input)
    case Stop(_) => ([], input)
    case Request(body, rest) =>
      var (bodies, tail) := Split(rest);
      ([body] + bodies, tail)
  }

  /** The number of requests that get a reply. */
  function Answered(requests: seq<seq<byte>>, k: nat, locked: Lock, backend: Backend): (n: nat)
    ensures n <= |requests|
    decreases requests
  {
    if requests == [] || |Respond(locked(k), backend(k, requests[0]))| > MAX_BODY then 0
    else 1 + Answered(requests[1..], k + 1, locked, backend)
  }

  function Replies(requests: seq<seq<byte>>, k: nat, locked: Lock, backend: Backend): (replies: seq<seq<byte>>)
    ensures |replies| == |requests|
    ensures forall i {:trigger replies[i]} :: 0 <= i < |requests| ==>
      replies[i] == Respond(locked(k + i), backend(k + i, requests[i]))
  {
    seq(|requests|, i requires 0 <= i < |requests| => Respond(locked(k + i), backend(k + i, requests[i])))
  }

  /** The requests that reach the backend. */
  function Unlocked(requests: seq<seq<byte>>, k: nat, locked: Lock): seq<seq<byte>>
    decreases requests
  {
    if requests == [] then []
    else (if locked(k) then [] else [requests[0]]) + Unlocked(requests[1..], k + 1, locked)
  }

  lemma FrameOf(body: seq<byte>, rest: seq<byte>)
    requires IsBody(body)
    ensures NextRequest(Frame(body) + rest) == Request(body, rest)
  {
    BigEndianRoundTrip(|body|);
    var input := Frame(body) + rest;
    assert input[..4] == BigEndian(|body|);
    assert input[4..4 + |body|] == body && input[4 + |body|..] == rest;
  }

  lemma BigEndianOf(b: seq<byte>)
    requires |b| == 4
    ensures FromBigEndian(b) < 0x1_0000_0000 && BigEndian(FromBigEndian(b)) == b
  {
    var n := FromBigEndian(b);
    var b0: int, b1: int, b2: int, b3: int := b[0], b[1], b[2], b[3];
    assert n / 0x100 == b0 * 0x1_0000 + b1 * 0x100 + b2 && n % 0x100 == b3;
    assert n / 0x1_0000 == b0 * 0x100 + b1;
    assert n / 0x100_0000 == b0;
  }

  lemma RequestIsFrame(input: seq<byte>)
    requires NextRequest(input).Request?
    ensures Frame(NextRequest(input).body) + NextRequest(input).rest == input
  {
    BigEndianOf(input[..4]);
    var size := FromBigEndian(input[..4]);
    assert input == input[..4] + input[4..4 + size] + input[4 + size..];
  }

  /** Every input is, in exactly one way, well-formed requests and a rest that ends the loop. */
  lemma {:induction false} SplitRebuilds(input: seq<byte>)
    ensures var (bodies, tail) := Split(input);
      AllBodies(bodies) && Frames(bodies) + tail == input && NextRequest(tail).Stop?
    decreases |input|
  {
    match NextRequest(input)
    case Stop(_) =>
      assert [] + input == input;
    case Request(body, rest) =>
      SplitRebuilds(rest);
      RequestIsFrame(input);
      var (bodies, tail) := Split(rest);
      assert ([body] + bodies)[1..] == bodies;
      Associative(Frame(body), Frames(bodies), tail);
  }

  lemma FirstFrame(bodies: seq<seq<byte>>, tail: seq<byte>)
    requires AllBodies(bodies) && bodies != []
    ensures NextRequest(Frames(bodies) + tail) == Request(bodies[0], Frames(bodies[1..]) + tail)
  {
    FrameOf(bodies[0], Frames(bodies[1..]) + tail);
    Associative(Frame(bodies[0]), Frames(bodies[1..]), tail);
  }

  lemma {:induction false} SplitOfFrames(bodies: seq<seq<byte>>, tail: seq<byte>)
    requires AllBodies(bodies) && NextRequest(tail).Stop?
    ensures Split(Frames(bodies) + tail) == (bodies, tail)
    decreases bodies
  {
    if bodies == [] {
      assert [] + tail == tail;
    } else {
      SplitOfFrames(bodies[1..], tail);
      FirstFrame(bodies, tail);
      assert [bodies[0]] + bodies[1..] == bodies;
    }
  }

  lemma RepliesAreBodies(requests: seq<seq<byte>>, k: nat, locked: Lock, backend: Backend)
    ensures AllBodies(Replies(requests, k, locked, backend)[..Answered(requests, k, locked, backend)])
  {
    var n := Answered(requests, k, locked, backend);
    forall i | 0 <= i < n ensures IsBody(Replies(requests, k, locked, backend)[i]) {
      ReplyFits(requests, k, locked, backend, i);
    }
  }

  /** The length of the reply to request `i`. */
  function ReplyLength(requests: seq<seq<byte>>, k: nat, locked: Lock, backend: Backend, i: nat): nat
    requires i < |requests|
  {
    |Respond(locked(k + i), backend(k + i, requests[i]))|
  }

  lemma {:induction false} ReplyLengths(requests: seq<seq<byte>>, k: nat, locked: Lock, backend: Backend, i: nat)
    requires i < |requests|
    ensures i < Answered(requests, k, locked, backend) ==> ReplyLength(requests, k, locked, backend, i) <= MAX_BODY
    ensures i == Answered(requests, k, locked, backend) ==> ReplyLength(requests, k, locked, backend, i) > MAX_BODY
    decreases i
  {
    if i == 0 {
    } else {
      ReplyLengths(requests[1..], k + 1, locked, backend, i - 1);
    }
  }

  lemma ReplyFits(requests: seq<seq<byte>>, k: nat, locked: Lock, backend: Backend, i: nat)
    requires i < |requests|
    ensures i < Answered(requests, k, locked, backend) ==> IsBody(Replies(requests, k, locked, backend)[i])
    ensures i == Answered(requests, k, locked, backend) ==> |Replies(requests, k, locked, backend)[i]| > MAX_BODY
  {
    ReplyLengths(requests, k, locked, backend, i);
  }

  /** The loop on requests instead of bytes. */
  function ServeBodies(requests: seq<seq<byte>>, exit: Exit, k: nat, locked: Lock, backend: Backend): Served
    decreases requests
  {
    if requests == [] then Served([], [], exit)
    else AnswerFirst(requests[0], k, locked, backend, ServeBodies(requests[1..], exit, k + 1, locked, backend))
  }

  lemma {:induction false} ServeIsServeBodies(
    requests: seq<seq<byte>>, tail: seq<byte>, k: nat, locked: Lock, backend: Backend)
    requires AllBodies(requests) && NextRequest(tail).Stop?
    ensures Serve(Frames(requests) + tail, k, locked, backend)
         == ServeBodies(requests, NextRequest(tail).exit, k, locked, backend)
    decreases requests
  {
    if requests == [] {
      assert [] + tail == tail;
    } else {
      FirstFrame(requests, tail);
      ServeIsServeBodies(requests[1..], tail, k + 1, locked, backend);
    }
  }

  /** One frame for every request, in order, up to the first reply that is too large;
      the backend asked exactly the requests seen while unlocked. */
  function InOrder(requests: seq<seq<byte>>, exit: Exit, k: nat, locked: Lock, backend: Backend): Served {
    RepliesAreBodies(requests, k, locked, backend);
    var n, replies := Answered(requests, k, locked, backend), Replies(requests, k, locked, backend);
    if n == |requests| then Served(Frames(replies[..n]), Unlocked(requests, k, locked), exit)
    else Served(Frames(replies[..n]), Unlocked(requests[..n + 1], k, locked), ReplyTooLarge(|replies[n]|))
  }

  lemma FirstTooLarge(requests: seq<seq<byte>>, exit: Exit, k: nat, locked: Lock, backend: Backend, more: Served)
    requires requests != [] && Answered(requests, k, locked, backend) == 0
    ensures AnswerFirst(requests[0], k, locked, backend, more) == InOrder(requests, exit, k, locked, backend)
  {
    assert requests[..1] == [requests[0]];
    OneUnlocked(requests[0], k, locked);
  }

  lemma LaterReply(requests: seq<seq<byte>>, k: nat, locked: Lock, backend: Backend, i: nat)
    requires 1 <= i < |requests|
    ensures Replies(requests[1..], k + 1, locked, backend)[i - 1] == Replies(requests, k, locked, backend)[i]
  {
    assert k + 1 + (i - 1) == k + i && requests[1..][i - 1] == requests[i];
  }

  lemma FirstAnswered(requests: seq<seq<byte>>, exit: Exit, k: nat, locked: Lock, backend: Backend)
    requires requests != [] && Answered(requests, k, locked, backend) > 0
    ensures AnswerFirst(requests[0], k, locked, backend, InOrder(requests[1..], exit, k + 1, locked, backend))
         == InOrder(requests, exit, k, locked, backend)
  {
    var n := Answered(requests, k, locked, backend);
    RepliesAreBodies(requests, k, locked, backend);
    RepliesAreBodies(requests[1..], k + 1, locked, backend);
    MoreReplies(requests, k, locked, backend, n);
    if n < |requests| {
      MoreUnlocked(requests, n, k, locked);
      LaterReply(requests, k, locked, backend, n);
    }
  }

  lemma {:induction false} BodiesAnsweredInOrder(
    requests: seq<seq<byte>>, exit: Exit, k: nat, locked: Lock, backend: Backend)
    ensures ServeBodies(requests, exit, k, locked, backend) == InOrder(requests, exit, k, locked, backend)
    decreases requests
  {
    if requests == [] {
    } else {
      BodiesAnsweredInOrder(requests[1..], exit, k + 1, locked, backend);
      if Answered(requests, k, locked, backend) == 0 {
        FirstTooLarge(requests, exit, k, locked, backend, ServeBodies(requests[1..], exit, k + 1, locked, backend));
      } else {
        FirstAnswered(requests, exit, k, locked, backend);
      }
    }
  }

  /** An input of well-formed requests and a rest that ends the loop is
      answered in order; what the rest is decides how the loop returns. */
  lemma ServeAnswersInOrder(
    requests: seq<seq<byte>>, tail: seq<byte>, k: nat, locked: Lock, backend: Backend)
    requires AllBodies(requests) && NextRequest(tail).Stop?
    ensures Serve(Frames(requests) + tail, k, locked, backend)
         == InOrder(requests, NextRequest(tail).exit, k, locked, backend)
  {
    ServeIsServeBodies(requests, tail, k, locked, backend);
    BodiesAnsweredInOrder(requests, NextRequest(tail).exit, k, locked, backend);
  }

  lemma OneUnlocked(request: seq<byte>, k: nat, locked: Lock)
    ensures Unlocked([request], k, locked) == if locked(k) then [] else [request]
  {
    var one := [request];
    assert one[1..] == [];
  }

  lemma MoreUnlocked(requests: seq<seq<byte>>, n: nat, k: nat, locked: Lock)
    requires n < |requests|
    ensures Unlocked(requests[..n + 1], k, locked)
         == (if locked(k) then [] else [requests[0]]) + Unlocked(requests[1..][..n], k + 1, locked)
  {
    assert requests[..n + 1][1..] == requests[1..][..n];
  }

  lemma MoreReplies(requests: seq<seq<byte>>, k: nat, locked: Lock, backend: Backend, n: nat)
    requires 1 <= n <= |requests| && IsBody(Respond(locked(k), backend(k, requests[0])))
    requires AllBodies(Replies(requests, k, locked, backend)[..n])
    requires AllBodies(Replies(requests[1..], k + 1, locked, backend)[..n - 1])
    ensures Frames(Replies(requests, k, locked, backend)[..n])
         == Frame(Respond(locked(k), backend(k, requests[0])))
            + Frames(Replies(requests[1..], k + 1, locked, backend)[..n - 1])
  {
    var replies, more := Replies(requests, k, locked, backend), Replies(requests[1..], k + 1, locked, backend);
    assert replies[..n][0] == replies[0] && replies[..n][1..] == more[..n - 1];
  }

  lemma SplitFramesAlone(bodies: seq<seq<byte>>)
    requires AllBodies(bodies)
    ensures Split(Frames(bodies)) == (bodies, [])
  {
    SplitOfFrames(bodies, []);
    assert Frames(bodies) + [] == Frames(bodies);
  }

  /** Main result, over every input: its well-formed requests are answered in order, and
      what is left of it decides how the loop returns if all of them were. */
  lemma EveryInputInOrder(input: seq<byte>, locked: Lock, backend: Backend)
    ensures var (requests, tail) := Split(input);
      NextRequest(tail).Stop?
      && Serve(input, 0, locked, backend) == InOrder(requests, NextRequest(tail).exit, 0, locked, backend)
  {
    SplitRebuilds(input);
    var (requests, tail) := Split(input);
    ServeAnswersInOrder(requests, tail, 0, locked, backend);
  }

  /** serveSSH returns nil exactly for an input that breaks off inside a header, after
      requests that were all answered. */
  lemma ReturnsNilIff(input: seq<byte>, locked: Lock, backend: Backend)
    ensures var (requests, tail) := Split(input);
      ReturnsNil(Serve(input, 0, locked, backend).exit) <==>
        Answered(requests, 0, locked, backend) == |requests| && 0 < |tail| < 4
  {
    EveryInputInOrder(input, locked, backend);
  }

  /** An empty input is an error, a single byte is not. */
  lemma CleanEndIsAnError(locked: Lock, backend: Backend)
    ensures !ReturnsNil(Serve([], 0, locked, backend).exit)
    ensures ReturnsNil(Serve([0], 0, locked, backend).exit)
  {
    assert Split([0]) == ([], [0]);
    ReturnsNilIff([], locked, backend);
    ReturnsNilIff([0], locked, backend);
  }

  lemma OutputIsFrames(input: seq<byte>, locked: Lock, backend: Backend)
    ensures var requests := Split(input).0;
      var answered := Replies(requests, 0, locked, backend)[..Answered(requests, 0, locked, backend)];
      AllBodies(answered) && Serve(input, 0, locked, backend).output == Frames(answered)
  {
    SplitRebuilds(input);
    var (requests, tail) := Split(input);
    RepliesAreBodies(requests, 0, locked, backend);
    ServeAnswersInOrder(requests, tail, 0, locked, backend);
  }

  /** For every input: the output is read back, by the same framing, as the replies to
      the requests that were answered, and every request seen while locked gets the
      one-byte failure. */
  lemma OutputIsReadBack(input: seq<byte>, locked: Lock, backend: Backend)
    ensures var requests := Split(input).0;
      var replies := Replies(requests, 0, locked, backend);
      && Split(Serve(input, 0, locked, backend).output)
         == (replies[..Answered(requests, 0, locked, backend)], [])
      && (forall i :: 0 <= i < |requests| && locked(i) ==> replies[i] == [AGENT_FAILURE])
  {
    var requests := Split(input).0;
    OutputIsFrames(input, locked, backend);
    SplitFramesAlone(Replies(requests, 0, locked, backend)[..Answered(requests, 0, locked, backend)]);
  }

  /** Main result on the replies, in bytes. The i-th reply read back from the output is the
      single byte 5 if the lock was set or the backend failed, the single byte 6 if the
      backend had nothing to say, and otherwise the backend's own bytes. An answered request
      is never refused for its size; the first one that is not answered is one whose reply
      from the backend is over 262140 bytes. */
  lemma RepliesAre(input: seq<byte>, locked: Lock, backend: Backend, i: nat)
    requires i < |Split(input).0|
    ensures var requests, bodies := Split(input).0, Split(Serve(input, 0, locked, backend).output).0;
      && |bodies| == Answered(requests, 0, locked, backend)
      && (i < |bodies| ==>
            if locked(i) then bodies[i] == [5]
            else match backend(i, requests[i])
              case QueryFailed => bodies[i] == [5]
              case Reply(bytes) => bodies[i] == (if bytes == [] then [6] else bytes) && |bytes| <= 262140)
      && (i == |bodies| ==>
            !locked(i) && backend(i, requests[i]).Reply? && |backend(i, requests[i]).bytes| > 262140)
  {
    OutputIsReadBack(input, locked, backend);
    hide Serve, Split;
    var requests := Split(input).0;
    ReplyLengths(requests, 0, locked, backend, i);
  }

  /** The frames of the output, byte by byte: a length of four bytes, most significant
      first, and the body. */
  lemma FrameBytes(body: seq<byte>)
    requires IsBody(body)
    ensures |Frame(body)| == 4 + |body| && Frame(body)[4..] == body
    ensures var b0: int, b1: int, b2: int, b3: int := Frame(body)[0], Frame(body)[1], Frame(body)[2], Frame(body)[3];
      ((b0 * 256 + b1) * 256 + b2) * 256 + b3 == |body|
  {
    BigEndianRoundTrip(|body|);
  }

  /** The number of requests seen unlocked before the i-th. */
  function UnlockedBefore(locked: Lock, i: nat): nat {
    if i == 0 then 0 else UnlockedBefore(locked, i - 1) + if locked(i - 1) then 0 else 1
  }

  /** The requests that have been looked at: those answered, and the one that was not. */
  function SeenBy(input: seq<byte>, locked: Lock, backend: Backend): (n: nat)
    ensures n <= |Split(input).0|
  {
    var n := Answered(Split(input).0, 0, locked, backend);
    if n == |Split(input).0| then n else n + 1
  }

  /** What the backend was asked: each request seen unlocked, in its place, up to the first
      reply that is too large, which it was asked as well; and nothing else. */
  lemma AskedAre(input: seq<byte>, locked: Lock, backend: Backend, i: nat)
    ensures var asked, at := Serve(input, 0, locked, backend).asked, UnlockedBefore(locked, i);
      && |asked| == UnlockedBefore(locked, SeenBy(input, locked, backend))
      && (i < SeenBy(input, locked, backend) && !locked(i) ==> at < |asked| && asked[at] == Split(input).0[i])
  {
    hide *;
    var seen := Split(input).0[..SeenBy(input, locked, backend)];
    AskedInOrder(input, locked, backend);
    UnlockedCount(seen, 0, locked);
    assert 0 + i == i && 0 + |seen| == |seen|;
    if i < |seen| && !locked(i) { UnlockedAt(seen, 0, locked, i); }
  }

  lemma AskedInOrder(input: seq<byte>, locked: Lock, backend: Backend)
    ensures Serve(input, 0, locked, backend).asked
         == Unlocked(Split(input).0[..SeenBy(input, locked, backend)], 0, locked)
  {
    EveryInputInOrder(input, locked, backend);
    assert Split(input).0[..|Split(input).0|] == Split(input).0;
    hide Serve, Split, Answered, Unlocked;
  }

  lemma {:induction false} UnlockedCount(requests: seq<seq<byte>>, k: nat, locked: Lock)
    ensures |Unlocked(requests, k, locked)| == UnlockedBefore(locked, k + |requests|) - UnlockedBefore(locked, k)
    ensures UnlockedBefore(locked, 0) == 0
    decreases |requests|
  {
    if requests == [] {
    } else {
      UnlockedCount(requests[1..], k + 1, locked);
    }
  }

  lemma {:induction false} UnlockedAt(requests: seq<seq<byte>>, k: nat, locked: Lock, i: nat)
    requires i < |requests| && !locked(k + i)
    ensures var at := UnlockedBefore(locked, k + i) - UnlockedBefore(locked, k);
      0 <= at < |Unlocked(requests, k, locked)| && Unlocked(requests, k, locked)[at] == requests[i]
    ensures UnlockedBefore(locked, 0) == 0
    decreases i
  {
    if i == 0 {
    } else {
      UnlockedAt(requests[1..], k + 1, locked, i - 1);
    }
  }

  /** Why the loop stops at a rest of the input: the size, in bytes, decides. */
  lemma StopsBecause(tail: seq<byte>)
    requires NextRequest(tail).Stop?
    ensures NextRequest(tail).exit
         == if tail == [] then CleanEnd else if |tail| < 4 then CutHeader
            else
              var b0: int, b1: int, b2: int, b3: int := tail[0], tail[1], tail[2], tail[3];
              var size := ((b0 * 256 + b1) * 256 + b2) * 256 + b3;
              if size == 0 then ZeroSize else if size > 262140 then TooLarge(size) else CutBody
  {
  }

  /** At an input: a list request and the backend's answer, framed as on the wire. */
  lemma ListRequest()
    ensures Serve([0, 0, 0, 1, 11], 0, _ => false, (k, request) => Reply([12, 0, 0, 0, 0])).output
         == [0, 0, 0, 5, 12, 0, 0, 0, 0]
  {
    var input: seq<byte> := [0, 0, 0, 1, 11];
    assert input[4..5] == [11] && input[5..] == [];
    assert NextRequest(input) == Request([11], []);
    assert NextRequest([]) == Stop(CleanEnd);
  }

  /** A session locked from the k-th request on never reaches the backend again. */
  lemma {:induction false} LockedNeverAsks(input: seq<byte>, k: nat, locked: Lock, backend: Backend)
    requires forall i: nat :: i >= k ==> locked(i)
    ensures Serve(input, k, locked, backend).asked == []
    decreases |input|
  {
    var next := NextRequest(input);
    if next.Request? { LockedNeverAsks(next.rest, k + 1, locked, backend); }
  }
}
