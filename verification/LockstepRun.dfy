/** The interleaved runs of one client and one server, and what holds in all of them. */
module LockstepRun {
  import opened Basics
  import opened Lockstep
  import opened Server
  import opened Transfer
  import opened Wire

  /** The caller: before the greeting, between calls, or inside SimpleCmd with data so far. */
  datatype Pc = Greeting | Idle | Waiting(acc: string)

  /** A command the server has handled, with its state before. */
  datatype Done<!S> = Done(srv: Srv<S>, m: Message, order: seq<string>)

  /** `pending`: lines the server has still to write before it reads again.
      `history` records the handled commands and takes no part in the steps. */
  datatype State<!S> = State(
    c2s: string, s2c: string,
    sent: nat, pc: Pc, results: seq<Answer>,
    srv: Srv<S>, alive: bool, pending: seq<string>,
    history: seq<Done<S>>)

  /** Calls whose lines the server can read. */
  ghost predicate Sendable(m: Message) {
    CleanCommand(m.cmd) && !Unseen(m) && Accepts(m) && |LineOf(m)| + 1 <= MAX_LINE_LEN
  }

  ghost predicate Setup<S(!new)>(proto: Proto<S>, calls: seq<Message>) {
    && (forall i :: 0 <= i < |calls| ==> Sendable(calls[i]))
    && |LineOf(Message("OK", proto.greeting))| + 1 <= MAX_LINE_LEN
  }

  ghost predicate Initial<S(!new)>(proto: Proto<S>, srv: Srv<S>, s: State<S>) {
    s == State("", "", 0, Greeting, [], srv, true, [LineOf(Message("OK", proto.greeting))], [])
  }

  // ---- steps ----

  ghost predicate ClientSends<S(!new)>(calls: seq<Message>, s: State<S>, t: State<S>) {
    && s.pc == Idle && s.sent < |calls|
    && t == s.(c2s := s.c2s + LineOf(calls[s.sent]) + "\n", sent := s.sent + 1, pc := Waiting(""))
  }

  function AfterRead(pc: Pc, results: seq<Answer>, m: Message): (Pc, seq<Answer>)
    requires pc != Idle
  {
    match pc
    case Greeting => (Idle, results)
    case Waiting(acc) =>
      if Final(m) then (Idle, results + [Conclude(acc, m)]) else (Waiting(Absorb(acc, m)), results)
  }

  ghost predicate ClientReads<S(!new)>(s: State<S>, t: State<S>) {
    && s.pc != Idle
    && var r := ReadLine(s.s2c, false, MAX_LINE_LEN);
    && r.Got?
    && t == Taken(s, r.message, r.rest)
  }

  function Taken<S>(s: State<S>, m: Message, rest: string): State<S>
    requires s.pc != Idle
  {
    var (pc, results) := AfterRead(s.pc, s.results, m);
    s.(s2c := rest, pc := pc, results := results)
  }

  /** The next command, if the lines it makes the server write can be read. */
  ghost predicate ServerReads<S(!new)>(proto: Proto<S>, s: State<S>, t: State<S>, order: seq<string>) {
    && s.alive && s.pending == []
    && var r := ReadLine(s.c2s, false, MAX_LINE_LEN);
    && r.Got? && IsOrder(order, HandlerNames(s.srv)) && CommandFits(proto, s.srv, r.message, order)
    && var reply := Handle(proto, s.srv, r.message, order);
    && t == s.(c2s := r.rest, srv := reply.srv, alive := reply.alive, pending := reply.lines,
               history := s.history + [Done(s.srv, r.message, order)])
  }

  ghost predicate ServerWrites<S(!new)>(s: State<S>, t: State<S>) {
    && s.pending != []
    && t == s.(s2c := s.s2c + s.pending[0] + "\n", pending := s.pending[1..])
  }

  ghost predicate Next<S(!new)>(proto: Proto<S>, calls: seq<Message>, s: State<S>, t: State<S>) {
    || ClientSends(calls, s, t)
    || ClientReads(s, t)
    || (exists order :: ServerReads(proto, s, t, order))
    || ServerWrites(s, t)
  }

  ghost predicate IsRun<S(!new)>(proto: Proto<S>, srv: Srv<S>, calls: seq<Message>, run: seq<State<S>>) {
    && Setup(proto, calls)
    && run != [] && Initial(proto, srv, run[0])
    && forall i {:trigger Next(proto, calls, run[i], run[i + 1])} :: 0 <= i < |run| - 1 ==>
         Next(proto, calls, run[i], run[i + 1])
  }

  // ---- what the history says ----

  function ReplyOf<S>(proto: Proto<S>, d: Done<S>): Reply<S> { Handle(proto, d.srv, d.m, d.order) }

  function ReplyLines<S>(proto: Proto<S>, history: seq<Done<S>>): seq<string> {
    if history == [] then []
    else ReplyLines(proto, history[..|history| - 1]) + ReplyOf(proto, history[|history| - 1]).lines
  }

  function AllAnswers<S>(proto: Proto<S>, history: seq<Done<S>>): seq<Answer> {
    if history == [] then []
    else
      var last := history[|history| - 1];
      AllAnswers(proto, history[..|history| - 1]) + Answers(proto, last.srv, last.m)
  }

  function Rejections<S>(proto: Proto<S>, history: seq<Done<S>>): nat {
    if history == [] then 0
    else
      var last := history[|history| - 1];
      Rejections(proto, history[..|history| - 1]) + if RejectsOption(proto, last.srv, last.m) then 1 else 0
  }

  /** Every command starts from the state its predecessor left, all but the last one
      left the session running, and `(srv, alive)` is what the last one left. */
  ghost predicate Chained<S(!new)>(proto: Proto<S>, srv0: Srv<S>, history: seq<Done<S>>, srv: Srv<S>, alive: bool) {
    if history == [] then srv == srv0 && alive
    else
      var last := history[|history| - 1];
      && CommandFits(proto, last.srv, last.m, last.order)
      && Chained(proto, srv0, history[..|history| - 1], last.srv, true)
      && srv == ReplyOf(proto, last).srv && alive == ReplyOf(proto, last).alive
  }

  const START := Progress([], "")

  /** The client that reads all replies gets exactly the answers, and is between calls. */
  lemma {:induction false} HistoryDelivers<S(!new)>(
    proto: Proto<S>, srv0: Srv<S>, history: seq<Done<S>>, srv: Srv<S>, alive: bool)
    requires Chained(proto, srv0, history, srv, alive)
    ensures var lines := ReplyLines(proto, history);
      var q := FeedAll(START, ParseAll(lines));
      && AllReadable(lines)
      && q.results == AllAnswers(proto, history)
      && (alive ==> q.acc == "")
      && (alive && history != [] ==> lines != [] && IsFinal(Parse(lines[|lines| - 1])))
    ensures |AllAnswers(proto, history)|
         == |history| + Rejections(proto, history) - if alive then 0 else 1
    decreases |history|
  {
    if history == [] {
    } else {
      var before, last := history[..|history| - 1], history[|history| - 1];
      HistoryDelivers(proto, srv0, before, last.srv, true);
      var lines, more := ReplyLines(proto, before), ReplyOf(proto, last).lines;
      var p := FeedAll(START, ParseAll(lines));
      HandleDelivers(proto, last.srv, last.m, last.order, p);
      AnswerCount(proto, last);
      ParseAppend(lines, more);
      FeedAppend(START, ParseAll(lines), ParseAll(more));
      LinesReadable(lines, more);
    }
  }

  lemma LinesReadable(a: seq<string>, b: seq<string>)
    requires AllReadable(a) && AllReadable(b)
    ensures AllReadable(a + b)
  {
  }

  lemma AnswerCount<S>(proto: Proto<S>, d: Done<S>)
    ensures |Answers(proto, d.srv, d.m)|
         == if Answers(proto, d.srv, d.m) == [] then 0 else if RejectsOption(proto, d.srv, d.m) then 2 else 1
    ensures Answers(proto, d.srv, d.m) == [] ==> !RejectsOption(proto, d.srv, d.m)
  {
  }

  // ---- the invariant ----

  /** The commands on their way: those sent and not yet handled. */
  ghost predicate Requests<S(!new)>(calls: seq<Message>, s: State<S>) {
    && |s.history| <= s.sent <= |calls|
    && s.c2s == Bytes(LinesOf(calls[|s.history|..s.sent]))
    && forall i :: 0 <= i < |s.history| ==> s.history[i].m == Upper(calls[i])
  }

  /** The client has made of the lines it has seen what it should have. */
  ghost predicate UpToDate(pc: Pc, sent: nat, results: seq<Answer>, seen: seq<string>) {
    match pc
    case Greeting => sent == 0 && results == [] && seen == []
    case Idle => |results| == sent && FeedAll(START, ParseAll(seen)) == Progress(results, "")
    case Waiting(acc) => |results| == sent - 1 && FeedAll(START, ParseAll(seen)) == Progress(results, acc)
  }

  /** What the client has seen, what is in the channel and what the server has still to
      write are the replies so far, the greeting first. */
  ghost predicate Stream<S(!new)>(
    proto: Proto<S>, pc: Pc, history: seq<Done<S>>, seen: seq<string>, unread: seq<string>, pending: seq<string>)
  {
    if pc == Greeting then unread + pending == [LineOf(Message("OK", proto.greeting))]
    else seen + (unread + pending) == ReplyLines(proto, history)
  }

  ghost predicate Replies<S(!new)>(proto: Proto<S>, s: State<S>, seen: seq<string>, unread: seq<string>) {
    && s.s2c == Bytes(unread)
    && AllReadable(unread) && AllReadable(s.pending)
    && UpToDate(s.pc, s.sent, s.results, seen)
    && Stream(proto, s.pc, s.history, seen, unread, s.pending)
  }

  ghost predicate Invariant<S(!new)>(
    proto: Proto<S>, srv0: Srv<S>, calls: seq<Message>, s: State<S>, seen: seq<string>, unread: seq<string>)
  {
    && Requests(calls, s)
    && Replies(proto, s, seen, unread)
    && Chained(proto, srv0, s.history, s.srv, s.alive)
  }

  lemma GreetingReadable(m: Message)
    requires m.cmd == "OK" && |LineOf(m)| + 1 <= MAX_LINE_LEN
    ensures Readable(LineOf(m)) && Parse(LineOf(m)) == Parsed(m)
  {
    assert ToUpper("OK") == "OK";
    CleanLine(m);
  }

  lemma InitialInvariant<S(!new)>(proto: Proto<S>, srv0: Srv<S>, calls: seq<Message>, s: State<S>)
    requires Setup(proto, calls) && Initial(proto, srv0, s)
    ensures Invariant(proto, srv0, calls, s, [], [])
  {
    GreetingReadable(Message("OK", proto.greeting));
    assert calls[0..0] == [];
    assert [] + s.pending == s.pending;
  }

  lemma SendBytes(on: seq<Message>, m: Message)
    ensures Bytes(LinesOf(on)) + LineOf(m) + "\n" == Bytes(LinesOf(on + [m]))
  {
    assert LinesOf(on + [m]) == LinesOf(on) + [LineOf(m)];
    WriteBytes(LinesOf(on), LineOf(m));
  }

  lemma SendRequest<S(!new)>(calls: seq<Message>, s: State<S>, t: State<S>)
    requires Requests(calls, s) && ClientSends(calls, s, t)
    ensures Requests(calls, t)
  {
    OneMoreCall(calls, |s.history|, s.sent);
    SendBytes(calls[|s.history|..s.sent], calls[s.sent]);
    hide Bytes, LinesOf, LineOf, Upper;
  }

  lemma OneMoreCall(calls: seq<Message>, from: nat, to: nat)
    requires from <= to < |calls|
    ensures calls[from..to + 1] == calls[from..to] + [calls[to]]
  {
  }

  lemma SendKeeps<S(!new)>(
    proto: Proto<S>, srv0: Srv<S>, calls: seq<Message>, s: State<S>, t: State<S>,
    seen: seq<string>, unread: seq<string>)
    requires Setup(proto, calls) && Invariant(proto, srv0, calls, s, seen, unread) && ClientSends(calls, s, t)
    ensures Invariant(proto, srv0, calls, t, seen, unread)
  {
    SendRequest(calls, s, t);
    assert Replies(proto, t, seen, unread);
  }

  lemma ReadFirst(lines: seq<string>)
    requires lines != [] && Readable(lines[0])
    ensures ReadLine(Bytes(lines), false, MAX_LINE_LEN)
         == match Parse(lines[0])
            case Skipped => ReadLine(Bytes(lines[1..]), false, MAX_LINE_LEN)
            case Malformed => Fail(BadEscape, Bytes(lines[1..]))
            case Parsed(m) => Got(m, Bytes(lines[1..]))
  {
    ReadOneLine(lines[0], Bytes(lines[1..]), false, MAX_LINE_LEN);
  }

  /** What a read of readable lines does: it passes over some ignored lines and takes
      the next one, or finds only ignored lines and waits. */
  lemma {:induction false} ReadLines(lines: seq<string>) returns (k: nat)
    requires AllReadable(lines)
    ensures k <= |lines| && forall i :: 0 <= i < k ==> ParseAll(lines)[i] == Skipped
    ensures k == |lines| ==> ReadLine(Bytes(lines), false, MAX_LINE_LEN) == Fail(Blocked, "")
    ensures k < |lines| ==>
      && ParseAll(lines)[k].Parsed?
      && ReadLine(Bytes(lines), false, MAX_LINE_LEN) == Got(ParseAll(lines)[k].message, Bytes(lines[k + 1..]))
  {
    if lines == [] {
      k := 0;
    } else {
      assert Readable(lines[0]);
      ReadFirst(lines);
      if ParseAll(lines)[0] == Skipped {
        var more := lines[1..];
        TailReadable(lines, 1);
        var k' := ReadLines(more);
        k := k' + 1;
        assert ParseAll(lines) == [Skipped] + ParseAll(more);
        if k < |lines| { assert more[k' + 1..] == lines[k + 1..]; }
      } else {
        k := 0;
      }
    }
  }

  lemma TailReadable(lines: seq<string>, k: nat)
    requires AllReadable(lines) && k <= |lines|
    ensures AllReadable(lines[k..])
  {
    forall i | 0 <= i < |lines[k..]| ensures Readable(lines[k..][i]) {
      assert Readable(lines[k + i]);
    }
  }

  lemma {:induction false} FeedSkipped(p: Progress, xs: seq<Parsed>)
    requires forall i :: 0 <= i < |xs| ==> xs[i] == Skipped
    ensures FeedAll(p, xs) == p
    decreases xs
  {
    if xs == [] {
    } else {
      FeedSkipped(p, xs[1..]);
    }
  }

  /** The client's progress over ignored lines and one message. */
  lemma FeedRead(p: Progress, xs: seq<Parsed>, k: nat)
    requires k < |xs| && forall i :: 0 <= i < k ==> xs[i] == Skipped
    ensures FeedAll(p, xs[..k + 1]) == Feed(p, xs[k])
  {
    assert xs[..k + 1] == xs[..k] + [xs[k]];
    FeedSkipped(p, xs[..k]);
    FeedAppend(p, xs[..k], [xs[k]]);
    assert [xs[k]][1..] == [];
  }

  lemma GreetingRead<S(!new)>(proto: Proto<S>, s: State<S>, t: State<S>, unread: seq<string>)
    requires Replies(proto, s, [], unread) && ClientReads(s, t) && s.pc == Greeting && s.history == []
    ensures Replies(proto, t, [], [])
  {
    var k := ReadLines(unread);
    assert |unread| == 1 && k == 0 && unread[1..] == [];
    assert [] + ([] + t.pending) == [];
  }

  /** The client's progress over what one read takes. */
  lemma ProgressOfRead(seen: seq<string>, unread: seq<string>, k: nat)
    requires k < |unread| && forall i :: 0 <= i < k ==> ParseAll(unread)[i] == Skipped
    ensures FeedAll(START, ParseAll(seen + unread[..k + 1]))
         == Feed(FeedAll(START, ParseAll(seen)), ParseAll(unread)[k])
  {
    var xs, taken := ParseAll(unread), unread[..k + 1];
    assert ParseAll(taken) == xs[..k + 1];
    ParseAppend(seen, taken);
    FeedAppend(START, ParseAll(seen), ParseAll(taken));
    FeedRead(FeedAll(START, ParseAll(seen)), xs, k);
  }

  lemma AnswerUpToDate(pc: Pc, sent: nat, results: seq<Answer>, seen: seq<string>, unread: seq<string>, k: nat)
    requires pc.Waiting? && UpToDate(pc, sent, results, seen)
    requires k < |unread| && ParseAll(unread)[k].Parsed?
    requires forall i :: 0 <= i < k ==> ParseAll(unread)[i] == Skipped
    ensures var (pc', results') := AfterRead(pc, results, ParseAll(unread)[k].message);
      pc' != Greeting && UpToDate(pc', sent, results', seen + unread[..k + 1])
  {
    ProgressOfRead(seen, unread, k);
  }

  lemma StreamMoves<S(!new)>(
    proto: Proto<S>, pc: Pc, pc': Pc, history: seq<Done<S>>,
    seen: seq<string>, unread: seq<string>, pending: seq<string>,
    k: nat)
    requires pc != Greeting && pc' != Greeting && k < |unread| && Stream(proto, pc, history, seen, unread, pending)
    ensures Stream(proto, pc', history, seen + unread[..k + 1], unread[k + 1..], pending)
  {
    assert seen + (unread + pending) == (seen + unread[..k + 1]) + (unread[k + 1..] + pending);
  }

  lemma AnswerTaken<S(!new)>(proto: Proto<S>, s: State<S>, seen: seq<string>, unread: seq<string>, k: nat)
    requires Replies(proto, s, seen, unread) && s.pc.Waiting?
    requires k < |unread| && ParseAll(unread)[k].Parsed?
    requires forall i :: 0 <= i < k ==> ParseAll(unread)[i] == Skipped
    ensures var t := Taken(s, ParseAll(unread)[k].message, Bytes(unread[k + 1..]));
      Replies(proto, t, seen + unread[..k + 1], unread[k + 1..])
  {
    TailReadable(unread, k + 1);
    AnswerUpToDate(s.pc, s.sent, s.results, seen, unread, k);
    var t := Taken(s, ParseAll(unread)[k].message, Bytes(unread[k + 1..]));
    StreamMoves(proto, s.pc, t.pc, s.history, seen, unread, s.pending, k);
  }

  lemma ReadKeeps<S(!new)>(
    proto: Proto<S>, srv0: Srv<S>, calls: seq<Message>, s: State<S>, t: State<S>,
    seen: seq<string>, unread: seq<string>)
    returns (seen': seq<string>, unread': seq<string>)
    requires Setup(proto, calls) && Invariant(proto, srv0, calls, s, seen, unread) && ClientReads(s, t)
    ensures Invariant(proto, srv0, calls, t, seen', unread')
  {
    assert Requests(calls, t);
    if s.pc == Greeting {
      GreetingRead(proto, s, t, unread);
      seen', unread' := [], [];
    } else {
      var k := ReadLines(unread);
      AnswerTaken(proto, s, seen, unread, k);
      seen', unread' := seen + unread[..k + 1], unread[k + 1..];
    }
  }

  lemma HandleKeeps<S(!new)>(
    proto: Proto<S>, srv0: Srv<S>, calls: seq<Message>, s: State<S>, t: State<S>, order: seq<string>,
    seen: seq<string>, unread: seq<string>)
    requires Setup(proto, calls) && Invariant(proto, srv0, calls, s, seen, unread) && ServerReads(proto, s, t, order)
    ensures Invariant(proto, srv0, calls, t, seen, unread)
  {
    NextRequest(calls, s);
    var last := Done(s.srv, Upper(calls[|s.history|]), order);
    assert t.history == s.history + [last] && t.history[..|s.history|] == s.history;
    HandledRequest(calls, s, t, last);
    HandleDelivers(proto, last.srv, last.m, last.order, START);
    HandledReplies(proto, s, t, last, seen, unread);
  }

  lemma HandledRequest<S(!new)>(calls: seq<Message>, s: State<S>, t: State<S>, last: Done<S>)
    requires Requests(calls, s) && |s.history| < s.sent && last.m == Upper(calls[|s.history|])
    requires t.history == s.history + [last] && t.sent == s.sent
    requires t.c2s == Bytes(LinesOf(calls[|s.history| + 1..s.sent]))
    ensures Requests(calls, t)
  {
  }

  lemma HandledReplies<S(!new)>(
    proto: Proto<S>, s: State<S>, t: State<S>, last: Done<S>, seen: seq<string>, unread: seq<string>)
    requires Replies(proto, s, seen, unread) && s.pc != Greeting && s.pending == []
    requires AllReadable(ReplyOf(proto, last).lines)
    requires t.history == s.history + [last] && t.pending == ReplyOf(proto, last).lines
    requires t.s2c == s.s2c && t.sent == s.sent && t.pc == s.pc && t.results == s.results
    ensures Replies(proto, t, seen, unread)
  {
    assert t.history[..|s.history|] == s.history;
    assert unread + s.pending == unread;
    Associative(seen, unread, t.pending);
    hide Bytes, AllReadable, FeedAll, ParseAll, ReplyOf;
  }

  /** The server reads the first command sent and not yet handled. */
  lemma NextRequest<S(!new)>(calls: seq<Message>, s: State<S>)
    requires Requests(calls, s) && (forall i :: 0 <= i < |calls| ==> Sendable(calls[i]))
    ensures ReadLine(s.c2s, false, MAX_LINE_LEN)
         == if |s.history| == s.sent then Fail(Blocked, "")
            else Got(Upper(calls[|s.history|]), Bytes(LinesOf(calls[|s.history| + 1..s.sent])))
  {
    hide *;
    PendingRequests(calls, s);
    var on := calls[|s.history|..s.sent];
    if on == [] {
      NoRequest();
    } else {
      assert Sendable(calls[|s.history|]) && on[0] == calls[|s.history|];
      assert on[1..] == calls[|s.history| + 1..s.sent];
      FirstWrite(on);
      SendableWrite(on[0]);
      WriteReadIff(on[0], Bytes(LinesOf(on[1..])), false, MAX_LINE_LEN);
    }
  }

  lemma PendingRequests<S(!new)>(calls: seq<Message>, s: State<S>)
    requires Requests(calls, s)
    ensures |s.history| <= s.sent <= |calls| && s.c2s == Bytes(LinesOf(calls[|s.history|..s.sent]))
  {
  }

  lemma NoRequest()
    ensures Bytes(LinesOf([])) == "" && ReadLine("", false, MAX_LINE_LEN) == Fail(Blocked, "")
  {
  }

  lemma SendableWrite(m: Message)
    requires Sendable(m)
    ensures CleanCommand(m.cmd) && !Unseen(m) && |LineOf(m)| + 1 <= MAX_LINE_LEN
  {
  }

  lemma WriteKeeps<S(!new)>(
    proto: Proto<S>, srv0: Srv<S>, calls: seq<Message>, s: State<S>, t: State<S>,
    seen: seq<string>, unread: seq<string>)
    returns (unread': seq<string>)
    requires Setup(proto, calls) && Invariant(proto, srv0, calls, s, seen, unread) && ServerWrites(s, t)
    ensures Invariant(proto, srv0, calls, t, seen, unread')
  {
    unread' := unread + [s.pending[0]];
    assert Requests(calls, t);
    WrittenReplies(proto, s, t, seen, unread);
  }

  lemma WrittenReplies<S(!new)>(proto: Proto<S>, s: State<S>, t: State<S>, seen: seq<string>, unread: seq<string>)
    requires Replies(proto, s, seen, unread) && ServerWrites(s, t)
    ensures Replies(proto, t, seen, unread + [s.pending[0]])
  {
    var line := s.pending[0];
    assert Readable(line);
    TailReadable(s.pending, 1);
    LinesReadable(unread, [line]);
    WriteBytes(unread, line);
    MoveFirst(unread, s.pending);
  }

  lemma NextKeeps<S(!new)>(
    proto: Proto<S>, srv0: Srv<S>, calls: seq<Message>, s: State<S>, t: State<S>,
    seen: seq<string>, unread: seq<string>)
    returns (seen': seq<string>, unread': seq<string>)
    requires Setup(proto, calls) && Invariant(proto, srv0, calls, s, seen, unread) && Next(proto, calls, s, t)
    ensures Invariant(proto, srv0, calls, t, seen', unread')
  {
    seen', unread' := seen, unread;
    if ClientSends(calls, s, t) {
      SendKeeps(proto, srv0, calls, s, t, seen, unread);
    } else if ClientReads(s, t) {
      seen', unread' := ReadKeeps(proto, srv0, calls, s, t, seen, unread);
    } else if ServerWrites(s, t) {
      unread' := WriteKeeps(proto, srv0, calls, s, t, seen, unread);
    } else {
      var order :| ServerReads(proto, s, t, order);
      HandleKeeps(proto, srv0, calls, s, t, order, seen, unread);
    }
  }

  lemma RunPrefix<S(!new)>(proto: Proto<S>, srv0: Srv<S>, calls: seq<Message>, run: seq<State<S>>)
    requires IsRun(proto, srv0, calls, run) && |run| > 1
    ensures IsRun(proto, srv0, calls, run[..|run| - 1])
    ensures Next(proto, calls, run[|run| - 2], run[|run| - 1])
  {
    var before := run[..|run| - 1];
    forall i | 0 <= i < |before| - 1 ensures Next(proto, calls, before[i], before[i + 1]) {
      assert Next(proto, calls, run[i], run[i + 1]);
    }
    var last := |run| - 2;
    assert Next(proto, calls, run[last], run[last + 1]);
  }

  lemma {:induction false} RunKeeps<S(!new)>(proto: Proto<S>, srv0: Srv<S>, calls: seq<Message>, run: seq<State<S>>)
    returns (seen: seq<string>, unread: seq<string>)
    requires IsRun(proto, srv0, calls, run)
    ensures Invariant(proto, srv0, calls, run[|run| - 1], seen, unread)
    decreases |run|
  {
    if |run| == 1 {
      seen, unread := [], [];
      InitialInvariant(proto, srv0, calls, run[0]);
    } else {
      RunPrefix(proto, srv0, calls, run);
      seen, unread := RunKeeps(proto, srv0, calls, run[..|run| - 1]);
      seen, unread := NextKeeps(proto, srv0, calls, run[|run| - 2], run[|run| - 1], seen, unread);
    }
  }

  // ---- what holds after every run ----

  /** The lines the client has still to read, in the channel or on their way to it. */
  ghost predicate Outstanding<S(!new)>(s: State<S>, unread: seq<string>) {
    s.s2c == Bytes(unread) && AllReadable(unread)
  }

  /** Main result. In every interleaving the results are, in order, a prefix of the
      answers the handled commands should get, and the OK and ERR lines still to be read
      make up the difference: one for every handled command and one more for every
      rejected OPTION, less one for every finished call. */
  lemma ResultsAreAnswers<S(!new)>(proto: Proto<S>, srv0: Srv<S>, calls: seq<Message>, run: seq<State<S>>)
    returns (unread: seq<string>)
    requires IsRun(proto, srv0, calls, run)
    ensures var s := run[|run| - 1];
      && s.results <= AllAnswers(proto, s.history)
      && Outstanding(s, unread)
      && (s.pc != Greeting && s.alive ==>
            Finals(ParseAll(unread + s.pending)) + |s.results| == |s.history| + Rejections(proto, s.history))
      && Chained(proto, srv0, s.history, s.srv, s.alive)
      && |s.history| <= s.sent <= |calls| && (forall i :: 0 <= i < |s.history| ==> s.history[i].m == Upper(calls[i]))
  {
    var s := run[|run| - 1];
    var seen;
    seen, unread := RunKeeps(proto, srv0, calls, run);
    if s.pc != Greeting {
      var coming := unread + s.pending;
      HistoryDelivers(proto, srv0, s.history, s.srv, s.alive);
      ParseAppend(seen, coming);
      FeedAppend(START, ParseAll(seen), ParseAll(coming));
      FeedGrows(FeedAll(START, ParseAll(seen)), ParseAll(coming));
    }
  }

  /** The order in which the handler names come out is the recorded one, at every command. */
  ghost predicate Ordered<S(!new)>(history: seq<Done<S>>, orders: Orders) {
    forall i :: 0 <= i < |history| ==> orders(i, HandlerNames(history[i].srv)) == history[i].order
  }

  lemma LoopStep<S(!new)>(proto: Proto<S>, d: Done<S>, orders: Orders, k: nat, call: Message, rest: string)
    requires Sendable(call) && d.m == Upper(call) && orders(k, HandlerNames(d.srv)) == d.order
    ensures var r := ReplyOf(proto, d);
      ServeLoop(proto, d.srv, orders, k, LineOf(call) + "\n" + rest)
        == r.lines + if r.alive then ServeLoop(proto, r.srv, orders, k + 1, rest) else []
  {
    WriteReadIff(call, rest, true, MAX_LINE_LEN);
    hide ReadLine, LineOf, Handle, HandlerNames, Sendable;
    assert ReplyOf(proto, d).lines + [] == ReplyOf(proto, d).lines;
  }

  lemma LastCall(calls: seq<Message>, n: nat, rest: string)
    requires n < |calls|
    ensures Bytes(LinesOf(calls[..n + 1])) + rest == Bytes(LinesOf(calls[..n])) + (LineOf(calls[n]) + "\n" + rest)
  {
    assert calls[..n + 1] == calls[..n] + [calls[n]];
    SendBytes(calls[..n], calls[n]);
    Associative(Bytes(LinesOf(calls[..n])), LineOf(calls[n]), "\n");
    Associative(Bytes(LinesOf(calls[..n])), LineOf(calls[n]) + "\n", rest);
  }

  /** Serve's loop on the lines of some calls writes the replies of their history, in which
      every command finds the state its predecessor left, and then goes on with what
      follows if the last one left the session running. */
  lemma {:induction false} ServeLoopIsHistory<S(!new)>(
    proto: Proto<S>, srv0: Srv<S>, calls: seq<Message>, history: seq<Done<S>>, srv: Srv<S>, alive: bool,
    orders: Orders, rest: string)
    requires Chained(proto, srv0, history, srv, alive) && Ordered(history, orders) && |history| <= |calls|
    requires forall i :: 0 <= i < |history| ==> Sendable(calls[i]) && history[i].m == Upper(calls[i])
    ensures ServeLoop(proto, srv0, orders, 0, Bytes(LinesOf(calls[..|history|])) + rest)
         == ReplyLines(proto, history) + if alive then ServeLoop(proto, srv, orders, |history|, rest) else []
    decreases |history|
  {
    hide *;
    if history == [] {
      NothingServed(proto, srv0, calls, srv, alive, rest);
    } else {
      var n := |history| - 1;
      var before, last := history[..n], history[n];
      ChainStep(proto, srv0, history, srv, alive);
      OrderedStep(history, orders);
      var later := LineOf(calls[n]) + "\n" + rest;
      LastCall(calls, n, rest);
      ServeLoopIsHistory(proto, srv0, calls, before, last.srv, true, orders, later);
      LoopStep(proto, last, orders, n, calls[n], rest);
      Associative(ReplyLines(proto, before), ReplyOf(proto, last).lines,
                  if alive then ServeLoop(proto, srv, orders, |history|, rest) else []);
    }
  }

  lemma NothingServed<S(!new)>(
    proto: Proto<S>, srv0: Srv<S>, calls: seq<Message>, srv: Srv<S>, alive: bool, rest: string)
    requires Chained(proto, srv0, [], srv, alive)
    ensures srv == srv0 && alive && ReplyLines(proto, []) == [] && Bytes(LinesOf(calls[..0])) + rest == rest
    ensures forall lines: seq<string> :: [] + lines == lines
  {
    assert calls[..0] == [] && LinesOf([]) == [] && "" + rest == rest;
  }

  lemma ChainStep<S(!new)>(proto: Proto<S>, srv0: Srv<S>, history: seq<Done<S>>, srv: Srv<S>, alive: bool)
    requires history != [] && Chained(proto, srv0, history, srv, alive)
    ensures var n := |history| - 1;
      var last := history[n];
      && Chained(proto, srv0, history[..n], last.srv, true)
      && srv == ReplyOf(proto, last).srv && alive == ReplyOf(proto, last).alive
      && ReplyLines(proto, history) == ReplyLines(proto, history[..n]) + ReplyOf(proto, last).lines
  {
  }

  lemma OrderedStep<S(!new)>(history: seq<Done<S>>, orders: Orders)
    requires history != [] && Ordered(history, orders)
    ensures var n := |history| - 1;
      Ordered(history[..n], orders) && orders(n, HandlerNames(history[n].srv)) == history[n].order
  {
  }

  /** Main result on Serve. In every interleaving, what the client has read after the
      greeting, what is in the channel and what the server is about to write are together
      what Serve's loop writes for the commands handled so far. */
  lemma RunsServeTheLoop<S(!new)>(
    proto: Proto<S>, srv0: Srv<S>, calls: seq<Message>, run: seq<State<S>>, orders: Orders)
    returns (seen: seq<string>, unread: seq<string>)
    requires IsRun(proto, srv0, calls, run)
    requires var s := run[|run| - 1]; s.pc != Greeting && Ordered(s.history, orders)
    ensures var s := run[|run| - 1];
      && s.s2c == Bytes(unread) && FeedAll(START, ParseAll(seen)).results == s.results
      && |s.history| <= |calls|
      && seen + (unread + s.pending)
           == ServeLoop(proto, srv0, orders, 0, Bytes(LinesOf(calls[..|s.history|])))
  {
    var s := run[|run| - 1];
    hide *;
    seen, unread := RunKeeps(proto, srv0, calls, run);
    InvariantSays(proto, srv0, calls, s, seen, unread);
    CallsSendable(proto, srv0, calls, run);
    ServeLoopIsHistory(proto, srv0, calls, s.history, s.srv, s.alive, orders, "");
    NothingMore(proto, s.srv, orders, |s.history|, Bytes(LinesOf(calls[..|s.history|])), ReplyLines(proto, s.history));
  }

  lemma InvariantSays<S(!new)>(
    proto: Proto<S>, srv0: Srv<S>, calls: seq<Message>, s: State<S>, seen: seq<string>, unread: seq<string>)
    requires Invariant(proto, srv0, calls, s, seen, unread) && s.pc != Greeting
    ensures s.s2c == Bytes(unread) && FeedAll(START, ParseAll(seen)).results == s.results
    ensures seen + (unread + s.pending) == ReplyLines(proto, s.history)
    ensures Chained(proto, srv0, s.history, s.srv, s.alive) && |s.history| <= |calls|
    ensures forall i :: 0 <= i < |s.history| ==> s.history[i].m == Upper(calls[i])
  {
    hide Chained, ReplyLines, FeedAll, ParseAll, Bytes, LinesOf;
  }

  lemma CallsSendable<S(!new)>(proto: Proto<S>, srv0: Srv<S>, calls: seq<Message>, run: seq<State<S>>)
    requires IsRun(proto, srv0, calls, run)
    ensures forall i :: 0 <= i < |calls| ==> Sendable(calls[i])
  {
    hide Next, Initial, Sendable;
  }

  lemma NothingMore<S(!new)>(
    proto: Proto<S>, srv: Srv<S>, orders: Orders, k: nat, input: string, lines: seq<string>)
    ensures input + "" == input && lines + [] == lines
    ensures ServeLoop(proto, srv, orders, k, "") == []
  {
  }

  /** Between calls, once the server has caught up, the unread OK and ERR lines number
      exactly the rejected OPTIONs. */
  lemma UnreadAreRejections<S(!new)>(proto: Proto<S>, srv0: Srv<S>, calls: seq<Message>, run: seq<State<S>>)
    returns (unread: seq<string>)
    requires IsRun(proto, srv0, calls, run)
    requires var s := run[|run| - 1]; s.pc == Idle && s.alive && s.c2s == "" && s.pending == []
    ensures var s := run[|run| - 1];
      && |s.history| == s.sent == |s.results|
      && Outstanding(s, unread)
      && Finals(ParseAll(unread)) == Rejections(proto, s.history)
  {
    var s := run[|run| - 1];
    var seen, _ := RunKeeps(proto, srv0, calls, run);
    NothingSent(calls, s);
    unread := ResultsAreAnswers(proto, srv0, calls, run);
    assert unread + s.pending == unread;
  }

  lemma NothingSent<S(!new)>(calls: seq<Message>, s: State<S>)
    requires Requests(calls, s) && s.c2s == ""
    ensures |s.history| == s.sent
  {
    var on := calls[|s.history|..s.sent];
    assert on != [] ==> |Bytes(LinesOf(on))| > 0;
  }

  /** Without rejected options, a finished call leaves both channels empty, the server
      waiting, and the k-th result is the answer to the k-th command. */
  lemma NothingLeftOver<S(!new)>(proto: Proto<S>, srv0: Srv<S>, calls: seq<Message>, run: seq<State<S>>)
    requires IsRun(proto, srv0, calls, run)
    requires var s := run[|run| - 1]; s.pc == Idle && s.alive && Rejections(proto, s.history) == 0
    ensures var s := run[|run| - 1];
      && s.c2s == "" && s.s2c == "" && s.pending == []
      && |s.results| == |s.history| == s.sent <= |calls|
      && forall k :: 0 <= k < |s.results| ==>
           s.history[k].m == Upper(calls[k]) && Answers(proto, s.history[k].srv, s.history[k].m) == [s.results[k]]
  {
    AllRead(proto, srv0, calls, run);
    AnswersOneByOne(proto, run[|run| - 1].history);
    hide AllAnswers, Rejections, Answers;
  }

  lemma AllRead<S(!new)>(proto: Proto<S>, srv0: Srv<S>, calls: seq<Message>, run: seq<State<S>>)
    requires IsRun(proto, srv0, calls, run)
    requires var s := run[|run| - 1]; s.pc == Idle && s.alive && Rejections(proto, s.history) == 0
    ensures var s := run[|run| - 1];
      && s.c2s == "" && s.s2c == "" && s.pending == []
      && |s.results| == |s.history| == s.sent <= |calls| && s.results == AllAnswers(proto, s.history)
      && forall k :: 0 <= k < |s.results| ==> s.history[k].m == Upper(calls[k])
  {
    var s := run[|run| - 1];
    var seen, unread := RunKeeps(proto, srv0, calls, run);
    HistoryDelivers(proto, srv0, s.history, s.srv, true);
    var lines := ReplyLines(proto, s.history);
    assert FeedAll(START, ParseAll(seen)) == Progress(s.results, "");
    hide FeedAll, ParseAll, AllAnswers, Rejections, ReplyLines, Chained, AllReadable;
    NothingComing(s.results, AllAnswers(proto, s.history), lines, seen, unread + s.pending);
    assert calls[|s.history|..s.sent] == [];
  }

  /** A client between calls that has at least as many results as there are answers has
      read everything. */
  lemma NothingComing(
    results: seq<Answer>, answers: seq<Answer>, lines: seq<string>, seen: seq<string>, coming: seq<string>)
    requires seen + coming == lines && FeedAll(START, ParseAll(seen)) == Progress(results, "")
    requires FeedAll(START, ParseAll(lines)).results == answers && |answers| <= |results|
    requires lines != [] ==> IsFinal(Parse(lines[|lines| - 1]))
    ensures coming == [] && results == answers
  {
    ParseAppend(seen, coming);
    FeedAppend(START, ParseAll(seen), ParseAll(coming));
    FeedGrows(Progress(results, ""), ParseAll(coming));
    if coming != [] {
      assert coming[|coming| - 1] == lines[|lines| - 1];
      FinalAtEnd(ParseAll(coming));
      assert false;
    }
  }

  lemma {:induction false} FinalAtEnd(xs: seq<Parsed>)
    requires xs != [] && IsFinal(xs[|xs| - 1])
    ensures Finals(xs) > 0
  {
    if |xs| > 1 { FinalAtEnd(xs[1..]); }
  }

  /** As many answers as commands and no rejection: one answer each. */
  lemma {:induction false} AnswersOneByOne<S>(proto: Proto<S>, history: seq<Done<S>>)
    requires Rejections(proto, history) == 0
    ensures |AllAnswers(proto, history)| <= |history|
    ensures |AllAnswers(proto, history)| == |history| ==> forall k :: 0 <= k < |history| ==>
      Answers(proto, history[k].srv, history[k].m) == [AllAnswers(proto, history)[k]]
    decreases |history|
  {
    hide Answers;
    if history == [] {
    } else {
      var before, last := history[..|history| - 1], history[|history| - 1];
      AnswersOneByOne(proto, before);
      AnswerCount(proto, last);
      var all, more := AllAnswers(proto, before), Answers(proto, last.srv, last.m);
      assert AllAnswers(proto, history) == all + more;
      if |all + more| == |history| {
        assert |all| == |before| && |more| == 1;
        forall k | 0 <= k < |history|
          ensures Answers(proto, history[k].srv, history[k].m) == [(all + more)[k]]
        {
          if k < |before| { assert history[k] == before[k] && (all + more)[k] == all[k]; }
          else { assert more == [(all + more)[k]]; }
        }
      }
    }
  }

  /** A waiting client whose commands are all handled and answered has a line to take. */
  lemma AnswerIsComing<S(!new)>(proto: Proto<S>, srv0: Srv<S>, s: State<S>, seen: seq<string>, unread: seq<string>)
    requires Replies(proto, s, seen, unread) && Chained(proto, srv0, s.history, s.srv, true)
    requires s.pc.Waiting? && s.pending == [] && |s.history| == s.sent
    ensures exists i :: 0 <= i < |unread| && ParseAll(unread)[i] != Skipped
  {
    assert unread + s.pending == unread;
    HistoryDelivers(proto, srv0, s.history, s.srv, true);
    ParseAppend(seen, unread);
    FeedAppend(START, ParseAll(seen), ParseAll(unread));
    if forall i :: 0 <= i < |unread| ==> ParseAll(unread)[i] == Skipped {
      FeedSkipped(FeedAll(START, ParseAll(seen)), ParseAll(unread));
      assert false;
    }
  }

  lemma GreetingIsComing<S(!new)>(proto: Proto<S>, s: State<S>, seen: seq<string>, unread: seq<string>)
    requires |LineOf(Message("OK", proto.greeting))| + 1 <= MAX_LINE_LEN
    requires Replies(proto, s, seen, unread) && s.pc == Greeting && s.pending == []
    ensures exists i :: 0 <= i < |unread| && ParseAll(unread)[i] != Skipped
  {
    GreetingReadable(Message("OK", proto.greeting));
    assert unread + s.pending == unread;
    assert ParseAll(unread)[0] != Skipped;
  }

  lemma ClientReadsLines(unread: seq<string>)
    requires AllReadable(unread)
    ensures var r := ReadLine(Bytes(unread), false, MAX_LINE_LEN);
      && (r.Fail? ==> r.fault == Blocked)
      && ((exists i :: 0 <= i < |unread| && ParseAll(unread)[i] != Skipped) ==> r.Got?)
  {
    var k := ReadLines(unread);
  }

  /** The next command makes the server write a line the client cannot read, in whatever
      order it goes through its handlers. */
  ghost predicate NextDoesNotFit<S(!new)>(proto: Proto<S>, s: State<S>) {
    var r := ReadLine(s.c2s, false, MAX_LINE_LEN);
    && s.pending == [] && r.Got?
    && forall order :: IsOrder(order, HandlerNames(s.srv)) ==> !CommandFits(proto, s.srv, r.message, order)
  }

  lemma StepExists<S(!new)>(proto: Proto<S>, calls: seq<Message>, s: State<S>) returns (t: State<S>)
    requires s.pc != Idle && s.alive && !NextDoesNotFit(proto, s)
    requires s.pending != [] || ReadLine(s.s2c, false, MAX_LINE_LEN).Got? || ReadLine(s.c2s, false, MAX_LINE_LEN).Got?
    ensures Next(proto, calls, s, t)
  {
    var client, server := ReadLine(s.s2c, false, MAX_LINE_LEN), ReadLine(s.c2s, false, MAX_LINE_LEN);
    if s.pending != [] {
      t := s.(s2c := s.s2c + s.pending[0] + "\n", pending := s.pending[1..]);
      assert ServerWrites(s, t);
    } else if client.Got? {
      t := Taken(s, client.message, client.rest);
      assert ClientReads(s, t);
    } else {
      var order :| IsOrder(order, HandlerNames(s.srv)) && CommandFits(proto, s.srv, server.message, order);
      var reply := Handle(proto, s.srv, server.message, order);
      t := s.(c2s := server.rest, srv := reply.srv, alive := reply.alive, pending := reply.lines,
              history := s.history + [Done(s.srv, server.message, order)]);
      assert ServerReads(proto, s, t, order);
    }
  }

  /** No call hangs and no read fails: neither side ever meets a line it cannot read, and
      while a session is alive and a call is waiting for its answer, there is a next step,
      unless the command to be handled next makes the server write too long a line. */
  lemma NoCallHangs<S(!new)>(proto: Proto<S>, srv0: Srv<S>, calls: seq<Message>, run: seq<State<S>>)
    requires IsRun(proto, srv0, calls, run)
    ensures var s := run[|run| - 1];
      var client, server := ReadLine(s.s2c, false, MAX_LINE_LEN), ReadLine(s.c2s, false, MAX_LINE_LEN);
      && (client.Fail? ==> client.fault == Blocked) && (server.Fail? ==> server.fault == Blocked)
      && (s.pc != Idle && s.alive ==> (exists t :: Next(proto, calls, s, t)) || NextDoesNotFit(proto, s))
  {
    var s := run[|run| - 1];
    SomethingToDo(proto, srv0, calls, run);
    if s.pc != Idle && s.alive && !NextDoesNotFit(proto, s) {
      var t := StepExists(proto, calls, s);
    }
  }

  lemma SomethingToDo<S(!new)>(proto: Proto<S>, srv0: Srv<S>, calls: seq<Message>, run: seq<State<S>>)
    requires IsRun(proto, srv0, calls, run)
    ensures var s := run[|run| - 1];
      var client, server := ReadLine(s.s2c, false, MAX_LINE_LEN), ReadLine(s.c2s, false, MAX_LINE_LEN);
      && (client.Fail? ==> client.fault == Blocked) && (server.Fail? ==> server.fault == Blocked)
      && (s.pc != Idle && s.alive ==> s.pending != [] || client.Got? || server.Got?)
  {
    var s := run[|run| - 1];
    var seen, unread := RunKeeps(proto, srv0, calls, run);
    ClientReadsLines(unread);
    NextRequest(calls, s);
    if s.alive && s.pending == [] && |s.history| == s.sent {
      if s.pc == Greeting {
        GreetingIsComing(proto, s, seen, unread);
      } else if s.pc.Waiting? {
        AnswerIsComing(proto, srv0, s, seen, unread);
      }
    }
  }
}
