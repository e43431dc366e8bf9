/**
 Client and server side by side: a caller making one SimpleCmd after the other
 (assuan/client/session.go) against Serve (assuan/server/server.go), over two byte
 channels, in every interleaving of their reads and writes.
 */
module Lockstep {
  import opened Basics
  import opened Errors
  import opened Server
  import opened Transfer
  import opened Wire

  // ---- lines on their way to the client ----

  predicate Readable(line: string) {
    Fits(line, MAX_LINE_LEN) && !Parse(line).Malformed?
  }

  predicate AllReadable(lines: seq<string>) {
    forall i {:trigger Readable(lines[i])} :: 0 <= i < |lines| ==> Readable(lines[i])
  }

  function ParseAll(lines: seq<string>): (parsed: seq<Parsed>)
    ensures |parsed| == |lines| && forall i {:trigger parsed[i]} :: 0 <= i < |lines| ==> parsed[i] == Parse(lines[i])
  {
    seq(|lines|, i requires 0 <= i < |lines| => Parse(lines[i]))
  }

  lemma ParseAppend(a: seq<string>, b: seq<string>)
    ensures ParseAll(a + b) == ParseAll(a) + ParseAll(b)
  {
  }

  predicate IsFinal(x: Parsed) { x.Parsed? && Final(x.message) }

  /** Number of OK and ERR lines. */
  function Finals(xs: seq<Parsed>): nat {
    if xs == [] then 0 else (if IsFinal(xs[0]) then 1 else 0) + Finals(xs[1..])
  }

  /** What the client has got out of the lines it has read. */
  datatype Progress = Progress(results: seq<Answer>, acc: string)

  function Feed(p: Progress, x: Parsed): Progress {
    if !x.Parsed? then p
    else if Final(x.message) then Progress(p.results + [Conclude(p.acc, x.message)], "")
    else p.(acc := Absorb(p.acc, x.message))
  }

  function FeedAll(p: Progress, xs: seq<Parsed>): Progress
    decreases xs
  {
    if xs == [] then p else FeedAll(Feed(p, xs[0]), xs[1..])
  }

  lemma {:induction false} FeedAppend(p: Progress, a: seq<Parsed>, b: seq<Parsed>)
    ensures FeedAll(p, a + b) == FeedAll(FeedAll(p, a), b)
    decreases a
  {
    if a == [] {
      assert a + b == b;
    } else {
      FeedAppend(Feed(p, a[0]), a[1..], b);
      assert (a + b)[1..] == a[1..] + b;
    }
  }

  /** Reading on keeps the results and adds one for every OK or ERR line. */
  lemma {:induction false} FeedGrows(p: Progress, xs: seq<Parsed>)
    ensures p.results <= FeedAll(p, xs).results
    ensures |FeedAll(p, xs).results| == |p.results| + Finals(xs)
    decreases xs
  {
    if xs == [] {
    } else {
      FeedGrows(Feed(p, xs[0]), xs[1..]);
    }
  }

  // ---- the answers a command should get ----

  function JoinBlocks(emits: seq<Emit>): string {
    if emits == [] then ""
    else BlockOf(emits[0]) + JoinBlocks(emits[1..])
  }

  function RunAnswers<S>(handlers: map<string, Handler<S>>, state: S, m: Message): seq<Answer> {
    if m.cmd !in handlers then [ErrorReply(ErrorParams(AssuanError(ASS_UNKNOWN_CMD, "unknown IPC command")))]
    else
      var h := handlers[m.cmd](state, m.params);
      match h.verdict
      case Fine => [Data(JoinBlocks(h.emits))]
      case Rejected(e) => [ErrorReply(ErrorParams(e))]
      case Fatal => []
  }

  function OptionAnswers<S>(proto: Proto<S>, state: S, params: string): seq<Answer> {
    if proto.setOption.None? then [ErrorReply(ErrorParams(AssuanError(NOT_IMPLEMENTED, "not implemented")))]
    else
      match SplitOption(params)
      case None => [ErrorReply(ErrorParams(AssuanError(ASS_INV_VALUE, "invalid OPTION syntax")))]
      case Some((key, value)) =>
        match proto.setOption.value(state, key, value).1
        case Fine => [Data("")]
        case Rejected(e) => [ErrorReply(ErrorParams(e)), Data("")]
        case Fatal => []
  }

  /** One answer for every command, two for a rejected OPTION, none when the session ends. */
  function Answers<S>(proto: Proto<S>, srv: Srv<S>, m: Message): seq<Answer> {
    if m.cmd == "BYE" || m.cmd == "NOP" then [Data("")]
    else if m.cmd == "OPTION" then OptionAnswers(proto, srv.state, m.params)
    else if m.cmd == "HELP" then
      if m.params == "" || m.params in proto.help then [Data("")]
      else [ErrorReply(ErrorParams(AssuanError(NOT_FOUND, "not found")))]
    else if m.cmd == "RESET" then RunAnswers(WithReset(srv.handlers), srv.state, m)
    else RunAnswers(if srv.handlers.None? then map[] else srv.handlers.value, srv.state, m)
  }

  // ---- what keeps the server's lines within the pipe's limits ----

  predicate ErrorFits(e: Error) { |LineOf(ErrorMessage(e))| + 1 <= MAX_LINE_LEN }

  predicate CommentFits(text: string) { |LineOf(Message("#", text))| + 1 <= MAX_LINE_LEN }

  ghost predicate EmitFits(emit: Emit) {
    match emit
    case Status(text) => |LineOf(Message("S", text))| + 1 <= MAX_LINE_LEN
    case Block(bytes) => CutFree(bytes)
  }

  ghost predicate AllFit(emits: seq<Emit>) {
    forall e :: e in emits ==> EmitFits(e)
  }

  ghost predicate VerdictFits(verdict: Verdict) {
    verdict.Rejected? ==> ErrorFits(verdict.error)
  }

  ghost predicate RunFits<S>(handlers: map<string, Handler<S>>, state: S, m: Message) {
    m.cmd in handlers ==>
      var h := handlers[m.cmd](state, m.params);
      AllFit(h.emits) && VerdictFits(h.verdict)
  }

  /** Every line the command makes the server write can be read by the client. */
  ghost predicate CommandFits<S>(proto: Proto<S>, srv: Srv<S>, m: Message, order: seq<string>) {
    if m.cmd == "BYE" || m.cmd == "NOP" then true
    else if m.cmd == "OPTION" then
      proto.setOption.Some? && SplitOption(m.params).Some? ==>
        var (key, value) := SplitOption(m.params).value;
        VerdictFits(proto.setOption.value(srv.state, key, value).1)
    else if m.cmd == "HELP" then
      var texts := if m.params == "" then BUILTIN + order
                   else if m.params in proto.help then proto.help[m.params] else [];
      forall i :: 0 <= i < |texts| ==> CommentFits(texts[i])
    else if m.cmd == "RESET" then RunFits(WithReset(srv.handlers), srv.state, m)
    else RunFits(if srv.handlers.None? then map[] else srv.handlers.value, srv.state, m)
  }

  // ---- one command, seen from the client ----

  /** What some lines are for the client. */
  ghost predicate Reads(lines: seq<string>, xs: seq<Parsed>) {
    AllReadable(lines) && ParseAll(lines) == xs
  }

  lemma ReadsAppend(a: seq<string>, xs: seq<Parsed>, b: seq<string>, ys: seq<Parsed>)
    requires Reads(a, xs) && Reads(b, ys)
    ensures Reads(a + b, xs + ys)
  {
    ParseAppend(a, b);
  }

  lemma FinalLine(m: Message)
    requires m == OK || m.cmd == "ERR"
    requires |LineOf(m)| + 1 <= MAX_LINE_LEN
    ensures WriteSeq([m]) == ([LineOf(m)], true) && Reads([LineOf(m)], [Parsed(m)])
  {
    assert ToUpper("OK") == "OK" && ToUpper("ERR") == "ERR";
    CleanLine(m);
    LineLength(m);
    assert [m][1..] == [] && [LineOf(m)] + [] == [LineOf(m)];
  }

  lemma ErrorLineFits(code: bv16, message: string)
    requires |message| <= 100
    ensures ErrorFits(AssuanError(code, message))
  {
    var e := AssuanError(code, message);
    SplitPacked(e.src, e.code);
    NumberMatches(MakeErrCode(e.src, e.code) as int);
    LineLength(ErrorMessage(e));
    EscapablesBound(ErrorParams(e));
  }

  /** Comments, then OK: for the client, only the OK. */
  lemma {:induction false} CommentLines(texts: seq<string>) returns (xs: seq<Parsed>)
    requires forall i :: 0 <= i < |texts| ==> CommentFits(texts[i])
    ensures var (lines, ok) := WriteSeq(Comments(texts) + [OK]);
      ok && Reads(lines, xs)
    ensures |xs| == |texts| + 1 && xs[|texts|] == Parsed(OK)
    ensures forall i :: 0 <= i < |texts| ==> xs[i] == Skipped
  {
    var ms := Comments(texts) + [OK];
    if texts == [] {
      assert ms == [OK];
      FinalLine(OK);
      xs := [Parsed(OK)];
    } else {
      var m := Message("#", texts[0]);
      assert CommentFits(texts[0]);
      assert ms[1..] == Comments(texts[1..]) + [OK];
      CleanLine(m);
      LineLength(m);
      var more := CommentLines(texts[1..]);
      var (lines, ok) := WriteSeq(ms[1..]);
      xs := [Skipped] + more;
      ReadsAppend([LineOf(m)], [Skipped], lines, more);
    }
  }

  lemma {:induction false} SkippedThenFinal(xs: seq<Parsed>, p: Progress)
    requires xs != [] && IsFinal(xs[|xs| - 1])
    requires forall i :: 0 <= i < |xs| - 1 ==> xs[i] == Skipped
    ensures FeedAll(p, xs) == Progress(p.results + [Conclude(p.acc, xs[|xs| - 1].message)], "")
  {
    if |xs| > 1 {
      SkippedThenFinal(xs[1..], p);
    } else {
      assert xs[1..] == [];
    }
  }

  function DataParsed(blocks: seq<string>): (xs: seq<Parsed>)
    ensures |xs| == |blocks| && forall i :: 0 <= i < |blocks| ==> xs[i] == Parsed(Message("D", blocks[i]))
  {
    seq(|blocks|, i requires 0 <= i < |blocks| => Parsed(Message("D", blocks[i])))
  }

  lemma BlocksRead(blocks: seq<string>)
    requires forall b :: b in blocks ==> |Escape.EscapeParameters(b)| <= CHUNK_LEN
    ensures Reads(BlockLines(blocks), DataParsed(blocks))
  {
    forall i | 0 <= i < |blocks|
      ensures Readable(BlockLines(blocks)[i]) && Parse(BlockLines(blocks)[i]) == DataParsed(blocks)[i]
    {
      Escape.EscapeAlphabet(blocks[i]);
      Escape.UnescapeEscape(blocks[i]);
      DataLineParses(Escape.EscapeParameters(blocks[i]));
    }
  }

  lemma {:induction false} BlocksFeed(blocks: seq<string>, p: Progress)
    ensures FeedAll(p, DataParsed(blocks)) == p.(acc := p.acc + Concat(blocks))
    decreases blocks
  {
    if blocks == [] {
      assert p.acc + "" == p.acc;
    } else {
      assert DataParsed(blocks)[1..] == DataParsed(blocks[1..]);
      BlocksFeed(blocks[1..], p.(acc := p.acc + blocks[0]));
      assert p.acc + blocks[0] + Concat(blocks[1..]) == p.acc + Concat(blocks);
    }
  }

  function BlockOf(emit: Emit): string { if emit.Block? then emit.bytes else "" }

  /** A status line adds nothing to the client's data, a block adds its bytes. */
  lemma EmitReads(emit: Emit, p: Progress) returns (xs: seq<Parsed>)
    requires EmitFits(emit)
    ensures Reads(EmitLine(emit), xs) && FeedAll(p, xs) == p.(acc := p.acc + BlockOf(emit))
    ensures forall i :: 0 <= i < |xs| ==> !IsFinal(xs[i])
  {
    match emit {
      case Block(bytes) =>
        var blocks := CutFreeBlocks(bytes);
        BlocksRead(blocks);
        BlocksFeed(blocks, p);
        xs := DataParsed(blocks);
      case Status(text) =>
        var m := Message("S", text);
        assert ToUpper("S") == "S";
        CleanLine(m);
        LineLength(m);
        assert p.acc + "" == p.acc;
        xs := [Parse(LineOf(m))];
        assert xs[1..] == [];
    }
  }

  lemma {:induction false} EmitsRead(emits: seq<Emit>, p: Progress) returns (xs: seq<Parsed>)
    requires AllFit(emits)
    ensures Reads(EmitLines(emits), xs) && FeedAll(p, xs) == p.(acc := p.acc + JoinBlocks(emits))
    ensures forall i :: 0 <= i < |xs| ==> !IsFinal(xs[i])
    decreases emits
  {
    if emits == [] {
      assert p.acc + "" == p.acc;
      xs := [];
    } else {
      var q := p.(acc := p.acc + BlockOf(emits[0]));
      assert EmitFits(emits[0]) && AllFit(emits[1..]);
      var first := EmitReads(emits[0], p);
      var rest := EmitsRead(emits[1..], q);
      xs := first + rest;
      assert EmitLines(emits) == EmitLine(emits[0]) + EmitLines(emits[1..]);
      ReadsAppend(EmitLine(emits[0]), first, EmitLines(emits[1..]), rest);
      EmitsJoin(emits, first, rest, p);
    }
  }

  lemma EmitsJoin(emits: seq<Emit>, xs: seq<Parsed>, ys: seq<Parsed>, p: Progress)
    requires emits != []
    requires FeedAll(p, xs) == p.(acc := p.acc + BlockOf(emits[0]))
    requires FeedAll(FeedAll(p, xs), ys) == p.(acc := (p.acc + BlockOf(emits[0])) + JoinBlocks(emits[1..]))
    ensures FeedAll(p, xs + ys) == p.(acc := p.acc + JoinBlocks(emits))
  {
    FeedAppend(p, xs, ys);
    JoinAfter(p.acc, emits);
  }

  lemma JoinAfter(acc: string, emits: seq<Emit>)
    requires emits != []
    ensures (acc + BlockOf(emits[0])) + JoinBlocks(emits[1..]) == acc + JoinBlocks(emits)
  {
    Associative(acc, BlockOf(emits[0]), JoinBlocks(emits[1..]));
  }

  /** The lines of a reply, from the client's side: readable, worth `answers`. */
  ghost predicate Delivers<S>(r: Reply<S>, answers: seq<Answer>, p: Progress) {
    var q := FeedAll(p, ParseAll(r.lines));
    && AllReadable(r.lines)
    && q.results == p.results + answers
    && (r.alive ==> q.acc == "" && r.lines != [] && IsFinal(Parse(r.lines[|r.lines| - 1])))
    && (r.alive <==> answers != [])
  }

  lemma OneFinal<S>(r: Reply<S>, m: Message, p: Progress)
    requires m == OK || m.cmd == "ERR"
    requires |LineOf(m)| + 1 <= MAX_LINE_LEN
    requires r.alive && r.lines == WriteSeq([m]).0
    ensures Delivers(r, [Conclude(p.acc, m)], p)
  {
    FinalLine(m);
    assert [Parsed(m)][1..] == [];
  }

  lemma RunDelivers<S>(handlers: map<string, Handler<S>>, srv: Srv<S>, m: Message, p: Progress)
    requires RunFits(handlers, srv.state, m) && p.acc == ""
    ensures Delivers(RunReply(handlers, srv, m), RunAnswers(handlers, srv.state, m), p)
  {
    var r := RunReply(handlers, srv, m);
    if m.cmd !in handlers {
      var e := AssuanError(ASS_UNKNOWN_CMD, "unknown IPC command");
      ErrorLineFits(ASS_UNKNOWN_CMD, "unknown IPC command");
      FinalLine(ErrorMessage(e));
      OneFinal(r, ErrorMessage(e), p);
    } else {
      var h := handlers[m.cmd](srv.state, m.params);
      var xs := EmitsRead(h.emits, p);
      assert "" + JoinBlocks(h.emits) == JoinBlocks(h.emits);
      if h.verdict.Fatal? {
        assert p.results + [] == p.results;
      } else {
        var last := if h.verdict.Rejected? then ErrorMessage(h.verdict.error) else OK;
        FinalLine(last);
        ReadsAppend(EmitLines(h.emits), xs, [LineOf(last)], [Parsed(last)]);
        FeedAppend(p, xs, [Parsed(last)]);
        assert [Parsed(last)][1..] == [];
      }
    }
  }

  lemma RejectDelivers<S>(r: Reply<S>, e: Error, p: Progress)
    requires ErrorFits(e) && p.acc == ""
    requires r.alive && r.lines == WriteSeq([ErrorMessage(e), OK]).0
    ensures WriteSeq([ErrorMessage(e), OK]).1
    ensures Delivers(r, [ErrorReply(ErrorParams(e)), Data("")], p)
  {
    var err := ErrorMessage(e);
    FinalLine(err);
    FinalLine(OK);
    assert [err, OK][1..] == [OK];
    ReadsAppend([LineOf(err)], [Parsed(err)], [LineOf(OK)], [Parsed(OK)]);
    var xs := [Parsed(err)] + [Parsed(OK)];
    assert xs[1..] == [Parsed(OK)] && xs[1..][1..] == [];
    var q := Feed(p, Parsed(err));
    assert FeedAll(p, xs) == FeedAll(q, xs[1..]) == Feed(q, Parsed(OK));
    assert p.results + [ErrorReply(err.params)] + [Data("")] == p.results + [ErrorReply(err.params), Data("")];
  }

  lemma OptionDelivers<S>(proto: Proto<S>, srv: Srv<S>, m: Message, order: seq<string>, p: Progress)
    requires m.cmd == "OPTION" && CommandFits(proto, srv, m, order) && p.acc == ""
    ensures Delivers(OptionReply(proto, srv, m.params), OptionAnswers(proto, srv.state, m.params), p)
  {
    var r := OptionReply(proto, srv, m.params);
    if proto.setOption.None? {
      ErrorLineFits(NOT_IMPLEMENTED, "not implemented");
      FinalLine(ErrorMessage(AssuanError(NOT_IMPLEMENTED, "not implemented")));
      OneFinal(r, ErrorMessage(AssuanError(NOT_IMPLEMENTED, "not implemented")), p);
    } else if SplitOption(m.params).None? {
      ErrorLineFits(ASS_INV_VALUE, "invalid OPTION syntax");
      FinalLine(ErrorMessage(AssuanError(ASS_INV_VALUE, "invalid OPTION syntax")));
      OneFinal(r, ErrorMessage(AssuanError(ASS_INV_VALUE, "invalid OPTION syntax")), p);
    } else {
      var (key, value) := SplitOption(m.params).value;
      match proto.setOption.value(srv.state, key, value).1 {
        case Fatal => assert p.results + [] == p.results;
        case Fine =>
          FinalLine(OK);
          OneFinal(r, OK, p);
        case Rejected(e) =>
          RejectWrites(e);
          RejectDelivers(r, e, p);
      }
    }
  }

  lemma RejectWrites(e: Error)
    requires ErrorFits(e)
    ensures WriteSeq([ErrorMessage(e), OK]).1
  {
    FinalLine(ErrorMessage(e));
    FinalLine(OK);
    assert [ErrorMessage(e), OK][1..] == [OK];
  }

  lemma HelpDelivers<S>(r: Reply<S>, texts: seq<string>, p: Progress)
    requires forall i :: 0 <= i < |texts| ==> CommentFits(texts[i])
    requires r.lines == WriteSeq(Comments(texts) + [OK]).0 && r.alive == WriteSeq(Comments(texts) + [OK]).1
    ensures Delivers(r, [Data(p.acc)], p)
  {
    var xs := CommentLines(texts);
    SkippedThenFinal(xs, p);
  }

  /** Whatever the command: its reply is worth exactly its answers. */
  lemma HandleDelivers<S>(proto: Proto<S>, srv: Srv<S>, m: Message, order: seq<string>, p: Progress)
    requires CommandFits(proto, srv, m, order) && p.acc == ""
    ensures Delivers(Handle(proto, srv, m, order), Answers(proto, srv, m), p)
  {
    var r := Handle(proto, srv, m, order);
    if m.cmd == "BYE" || m.cmd == "NOP" {
      FinalLine(OK);
      OneFinal(r, OK, p);
    } else if m.cmd == "OPTION" {
      OptionDelivers(proto, srv, m, order, p);
    } else if m.cmd == "HELP" {
      if m.params == "" {
        HelpDelivers(r, BUILTIN + order, p);
      } else if m.params in proto.help {
        HelpDelivers(r, proto.help[m.params], p);
      } else {
        ErrorLineFits(NOT_FOUND, "not found");
        FinalLine(ErrorMessage(AssuanError(NOT_FOUND, "not found")));
        OneFinal(r, ErrorMessage(AssuanError(NOT_FOUND, "not found")), p);
      }
    } else if m.cmd == "RESET" {
      var handlers := WithReset(srv.handlers);
      RunDelivers(handlers, srv.(handlers := if srv.handlers.None? then None else Some(handlers)), m, p);
    } else {
      RunDelivers(if srv.handlers.None? then map[] else srv.handlers.value, srv, m, p);
    }
  }
}
