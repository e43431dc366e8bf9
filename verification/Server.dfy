/** The server's command loop (assuan/server/server.go), over any protocol state. */
module Server {
  import opened Basics
  import opened Errors
  import opened Escape
  import opened Pipes
  import opened Transfer
  import opened Wire

  /** What a handler writes before it returns. */
  datatype Emit = Status(text: string) | Block(bytes: string)

  /** A handler's error result: nil, a *common.Error, or any other error. */
  datatype Verdict = Fine | Rejected(error: Error) | Fatal

  datatype Handled<S> = Handled(state: S, emits: seq<Emit>, verdict: Verdict)

  type Handler<!S> = (S, string) -> Handled<S>

  type OptionSetter<!S> = (S, string, string) -> (S, Verdict)

  datatype Proto<!S> = Proto(
    greeting: string,
    help: map<string, seq<string>>,
    setOption: Option<OptionSetter<S>>)

  /** What changes during a session. `handlers` is a Go map, None standing for nil. */
  datatype Srv<!S> = Srv(handlers: Option<map<string, Handler<S>>>, state: S)

  /** The lines one command makes the server write, and whether the session goes on. */
  datatype Reply<!S> = Reply(lines: seq<string>, srv: Srv<S>, alive: bool)

  const OK := Message("OK", "")

  function AssuanError(code: bv16, message: string): Error {
    Error(SRC_ASSUAN, code, "assuan", message)
  }

  // ---- writing ----

  /** Consecutive WriteLine calls that stop at the first refusal. */
  function WriteSeq(ms: seq<Message>): (seq<string>, bool) {
    if ms == [] then ([], true)
    else if !Accepts(ms[0]) then ([], false)
    else
      var (lines, ok) := WriteSeq(ms[1..]);
      ([LineOf(ms[0])] + lines, ok)
  }

  /** The lines up to the first refusal are written, and no other. */
  lemma {:induction false} WritesUpTo(ms: seq<Message>, n: nat)
    requires n <= |ms| && (forall i :: 0 <= i < n ==> Accepts(ms[i])) && (n < |ms| ==> !Accepts(ms[n]))
    ensures WriteSeq(ms) == (LinesOf(ms[..n]), n == |ms|)
    decreases n
  {
    if n == 0 {
      assert LinesOf(ms[..0]) == [];
    } else {
      WritesUpTo(ms[1..], n - 1);
      assert ms[..n][0] == ms[0] && ms[..n][1..] == ms[1..][..n - 1];
      assert LinesOf(ms[..n]) == [LineOf(ms[0])] + LinesOf(ms[1..][..n - 1]);
      hide LineOf, Accepts;
    }
  }

  function EmitLine(emit: Emit): seq<string> {
    match emit
    case Status(text) => if Accepts(Message("S", text)) then [LineOf(Message("S", text))] else []
    case Block(bytes) => DataLines(bytes)
  }

  /** A status line is written unless it is too long before escaping. */
  lemma StatusWritten(text: string)
    ensures EmitLine(Status(text)) == if |text| <= 997 then [LineOf(Message("S", text))] else []
  {
    hide LineOf;
  }

  function EmitLines(emits: seq<Emit>): seq<string> {
    if emits == [] then [] else EmitLine(emits[0]) + EmitLines(emits[1..])
  }

  function Comments(texts: seq<string>): (ms: seq<Message>)
    ensures |ms| == |texts| && forall i :: 0 <= i < |ms| ==> ms[i] == Message("#", texts[i])
  {
    seq(|texts|, i requires 0 <= i < |texts| => Message("#", texts[i]))
  }

  // ---- OPTION ----

  predicate IsOptionChar(c: char) {
    '0' <= c <= '9' || 'a' <= c <= 'z' || 'A' <= c <= 'Z' || c == '_' || c == '-'
  }

  function OptionSpan(params: string): (n: nat)
    ensures n <= |params|
    ensures forall i :: 0 <= i < n ==> IsOptionChar(params[i])
    ensures n < |params| ==> !IsOptionChar(params[n])
  {
    if params == "" || !IsOptionChar(params[0]) then 0 else 1 + OptionSpan(params[1..])
  }

  /** Key and value; None is "invalid OPTION syntax". One blank or `=` separates them. */
  function SplitOption(params: string): Option<(string, string)> {
    var n := OptionSpan(params);
    if n == 0 then None
    else if n == |params| then Some((params, ""))
    else if (params[n] == ' ' || params[n] == '=') && '\n' !in params[n + 1..] then
      Some((params[..n], params[n + 1..]))
    else None
  }

  /** A rejected option is answered with ERR and then with OK as well. */
  function OptionMessages(verdict: Verdict): seq<Message>
    requires !verdict.Fatal?
  {
    if verdict.Rejected? then [ErrorMessage(verdict.error), OK] else [OK]
  }

  function OptionReply<S>(proto: Proto<S>, srv: Srv<S>, params: string): Reply<S> {
    if proto.setOption.None? then
      var (lines, ok) := WriteSeq([ErrorMessage(AssuanError(NOT_IMPLEMENTED, "not implemented"))]);
      Reply(lines, srv, ok)
    else
      match SplitOption(params)
      case None =>
        var (lines, ok) := WriteSeq([ErrorMessage(AssuanError(ASS_INV_VALUE, "invalid OPTION syntax"))]);
        Reply(lines, srv, ok)
      case Some((key, value)) =>
        var (state, verdict) := proto.setOption.value(srv.state, key, value);
        if verdict.Fatal? then Reply([], srv.(state := state), false)
        else
          var (lines, ok) := WriteSeq(OptionMessages(verdict));
          Reply(lines, srv.(state := state), ok)
  }

  // ---- HELP ----

  /** The eighth element of the array is the empty string. */
  const BUILTIN := ["NOP", "OPTION", "CANCEL", "BYE", "RESET", "END", "HELP", ""]

  function HandlerNames<S>(srv: Srv<S>): set<string> {
    if srv.handlers.None? then {} else srv.handlers.value.Keys
  }

  function HelpMessages<S>(proto: Proto<S>, params: string, order: seq<string>): seq<Message> {
    if params == "" then Comments(BUILTIN + order) + [OK]
    else if params !in proto.help then [ErrorMessage(AssuanError(NOT_FOUND, "not found"))]
    else Comments(proto.help[params]) + [OK]
  }

  /** `order` is the order in which Go happens to iterate over the handler names. */
  ghost predicate IsOrder(order: seq<string>, names: set<string>) {
    (forall n :: n in order <==> n in names) && (forall i, j :: 0 <= i < j < |order| ==> order[i] != order[j])
  }

  // ---- handlers ----

  function DefaultReset<S>(state: S, params: string): Handled<S> { Handled(state, [], Fine) }

  /** RESET gets a handler if it has none; a nil map stays nil for the next command. */
  function WithReset<S>(handlers: Option<map<string, Handler<S>>>): map<string, Handler<S>> {
    match handlers
    case None => map["RESET" := (s, p) => DefaultReset(s, p)]
    case Some(hs) => if "RESET" in hs then hs else hs["RESET" := (s, p) => DefaultReset(s, p)]
  }

  function RunReply<S>(handlers: map<string, Handler<S>>, srv: Srv<S>, m: Message): Reply<S> {
    if m.cmd !in handlers then
      var (lines, ok) := WriteSeq([ErrorMessage(AssuanError(ASS_UNKNOWN_CMD, "unknown IPC command"))]);
      Reply(lines, srv, ok)
    else
      var h := handlers[m.cmd](srv.state, m.params);
      var emitted := EmitLines(h.emits);
      match h.verdict
      case Fatal => Reply(emitted, srv.(state := h.state), false)
      case Rejected(e) =>
        var (lines, ok) := WriteSeq([ErrorMessage(e)]);
        Reply(emitted + lines, srv.(state := h.state), ok)
      case Fine =>
        var (lines, ok) := WriteSeq([OK]);
        Reply(emitted + lines, srv.(state := h.state), ok)
  }

  // ---- handleCmd ----

  function Handle<S>(proto: Proto<S>, srv: Srv<S>, m: Message, order: seq<string>): Reply<S> {
    if m.cmd == "BYE" || m.cmd == "NOP" then
      var (lines, ok) := WriteSeq([OK]);
      Reply(lines, srv, ok)
    else if m.cmd == "OPTION" then OptionReply(proto, srv, m.params)
    else if m.cmd == "HELP" then
      var (lines, ok) := WriteSeq(HelpMessages(proto, m.params, order));
      Reply(lines, srv, ok)
    else if m.cmd == "RESET" then
      var handlers := WithReset(srv.handlers);
      RunReply(handlers, srv.(handlers := if srv.handlers.None? then None else Some(handlers)), m)
    else RunReply(if srv.handlers.None? then map[] else srv.handlers.value, srv, m)
  }

  /** The commands that make the server answer twice. */
  predicate RejectsOption<S>(proto: Proto<S>, srv: Srv<S>, m: Message) {
    && m.cmd == "OPTION" && proto.setOption.Some?
    && match SplitOption(m.params)
       case None => false
       case Some((key, value)) => proto.setOption.value(srv.state, key, value).1.Rejected?
  }

  // ---- Serve ----

  type Orders = (nat, set<string>) -> seq<string>

  /** All the server writes for an input, after its greeting; `k` commands are done. */
  function ServeLoop<S>(proto: Proto<S>, srv: Srv<S>, orders: Orders, k: nat, input: string): seq<string>
    decreases |input|
  {
    match ReadLine(input, true, MAX_LINE_LEN)
    case Fail(_, _) => []
    case Got(m, rest) =>
      var r := Handle(proto, srv, m, orders(k, HandlerNames(srv)));
      if r.alive then r.lines + ServeLoop(proto, r.srv, orders, k + 1, rest) else r.lines
  }

  lemma BareOk(word: string, rest: string)
    requires word in ["BYE", "NOP"]
    ensures ReadLine(word + "\n" + rest, true, MAX_LINE_LEN) == Got(Message(word, ""), rest)
  {
    CleanBareLine(word);
    assert ToUpper("BYE") == "BYE" && ToUpper("NOP") == "NOP";
    ReadOneLine(word, rest, true, MAX_LINE_LEN);
  }

  /** BYE does not end the session: what comes after it is still answered. */
  lemma ByeGoesOn<S>(proto: Proto<S>, srv: Srv<S>, orders: Orders, k: nat, rest: string)
    ensures ServeLoop(proto, srv, orders, k, "BYE" + "\n" + rest)
         == ["OK"] + ServeLoop(proto, srv, orders, k + 1, rest)
  {
    BareOk("BYE", rest);
    ByeAnswered(proto, srv, orders(k, HandlerNames(srv)));
    hide ReadLine, Handle;
  }

  lemma ByeAnswered<S>(proto: Proto<S>, srv: Srv<S>, order: seq<string>)
    ensures Handle(proto, srv, Message("BYE", ""), order) == Reply(["OK"], srv, true)
  {
    assert LineOf(OK) == "OK" by { assert ToUpper("OK") == "OK"; }
    assert [OK][1..] == [] && [LineOf(OK)] + [] == ["OK"];
    assert WriteSeq([]) == ([], true) && WriteSeq([OK]) == (["OK"], true);
  }

  lemma {:induction false} AllWritten(ms: seq<Message>)
    requires forall m :: m in ms ==> Accepts(m)
    ensures var (lines, ok) := WriteSeq(ms);
      ok && |lines| == |ms| && forall i :: 0 <= i < |ms| ==> lines[i] == LineOf(ms[i])
  {
    if ms == [] {
    } else {
      assert ms[0] in ms && forall m :: m in ms[1..] ==> m in ms;
      AllWritten(ms[1..]);
      hide Accepts, LineOf;
      var (lines, more) := (WriteSeq(ms).0, WriteSeq(ms[1..]).0);
      assert lines == [LineOf(ms[0])] + more;
      forall i | 0 <= i < |ms| ensures lines[i] == LineOf(ms[i]) {
        if i > 0 { assert lines[i] == more[i - 1] && ms[i] == ms[1..][i - 1]; }
      }
    }
  }

  lemma BuiltinLine(i: nat)
    requires i < 8
    ensures Accepts(Message("#", BUILTIN[i]))
    ensures LineOf(Message("#", BUILTIN[i])) == if i == 7 then "#" else "# " + BUILTIN[i]
  {
    assert ToUpper("#") == "#";
    NothingToEscape(BUILTIN[i]);
    hide EscapeParameters;
  }

  /** HELP lists seven built-in names, sends a bare `#` for the eighth element of the array,
      lists every handler, and goes on after OK. */
  lemma HelpListsAll<S>(proto: Proto<S>, srv: Srv<S>, order: seq<string>)
    requires forall name :: name in order ==> Accepts(Message("#", name))
    ensures var r := Handle(proto, srv, Message("HELP", ""), order);
      && r.alive && r.srv == srv && |r.lines| == 9 + |order| && r.lines[7] == "#" && r.lines[8 + |order|] == "OK"
      && (forall i :: 0 <= i < 7 ==> r.lines[i] == "# " + BUILTIN[i])
      && (forall i :: 0 <= i < |order| ==> r.lines[8 + i] == LineOf(Message("#", order[i])))
  {
    var texts := BUILTIN + order;
    var ms := Comments(texts) + [OK];
    hide LineOf, Accepts, WriteSeq;
    assert LineOf(OK) == "OK" && Accepts(OK) by { OkLine(); }
    forall i | 0 <= i < 8 ensures Accepts(ms[i]) && LineOf(ms[i]) == if i == 7 then "#" else "# " + BUILTIN[i] {
      BuiltinLine(i);
    }
    forall m | m in ms ensures Accepts(m) {
      var i :| 0 <= i < |ms| && ms[i] == m;
      if 8 <= i < |texts| { assert texts[i] in order; }
    }
    AllWritten(ms);
    assert HelpMessages(proto, "", order) == ms;
    forall i | 0 <= i < |order| ensures WriteSeq(ms).0[8 + i] == LineOf(Message("#", order[i])) {
      assert texts[8 + i] == order[i];
    }
    forall i | 0 <= i < 8 ensures WriteSeq(ms).0[i] == LineOf(ms[i]) {}
  }

  lemma OkLine()
    ensures LineOf(OK) == "OK" && Accepts(OK)
  {
    assert ToUpper("OK") == "OK";
  }

  class Server<!S> {
    const proto: Proto<S>
    const pipe: Pipe
    var srv: Srv<S>

    constructor (proto: Proto<S>, handlers: Option<map<string, Handler<S>>>, state: S, pipe: Pipe)
      ensures this.proto == proto && this.pipe == pipe && srv == Srv(handlers, state)
    {
      this.proto := proto;
      this.pipe := pipe;
      srv := Srv(handlers, state);
    }

    /** Successive WriteLine calls, each checked, as helpCmd and optionCmd make them. */
    method WriteLines(ms: seq<Message>) returns (ok: bool)
      modifies pipe`output
      ensures pipe.output == old(pipe.output) + Bytes(WriteSeq(ms).0) && ok == WriteSeq(ms).1
    {
      var k := 0;
      ghost var goal := pipe.output + Bytes(WriteSeq(ms).0);
      assert ms[0..] == ms;
      while k < |ms|
        invariant k <= |ms|
        invariant pipe.output + Bytes(WriteSeq(ms[k..]).0) == goal
        invariant WriteSeq(ms[k..]).1 == WriteSeq(ms).1
      {
        assert ms[k..][1..] == ms[k + 1..];
        PrependLine(pipe.output, LineOf(ms[k]), WriteSeq(ms[k + 1..]).0);
        var written := pipe.WriteLine(ms[k].cmd, ms[k].params);
        if !written {
          assert pipe.output + "" == pipe.output;
          return false;
        }
        k := k + 1;
      }
      assert ms[k..] == [] && pipe.output + "" == pipe.output;
      return true;
    }

    method WriteEmit(emit: Emit)
      modifies pipe`output
      ensures pipe.output == old(pipe.output) + Bytes(EmitLine(emit))
    {
      ghost var before := pipe.output;
      match emit
      case Block(bytes) => pipe.WriteData(bytes);
      case Status(text) =>
        var written := pipe.WriteLine("S", text);
        ghost var line := LineOf(Message("S", text));
        assert Bytes([line]) == line + "\n" && before + "" == before;
    }

    /** What the handler writes to the pipe it is given. */
    method WriteEmits(emits: seq<Emit>)
      modifies pipe`output
      ensures pipe.output == old(pipe.output) + Bytes(EmitLines(emits))
    {
      var k := 0;
      ghost var goal := pipe.output + Bytes(EmitLines(emits));
      assert emits[0..] == emits;
      while k < |emits|
        invariant k <= |emits|
        invariant pipe.output + Bytes(EmitLines(emits[k..])) == goal
      {
        assert emits[k..][1..] == emits[k + 1..];
        OutputGrows(pipe.output, EmitLine(emits[k]), EmitLines(emits[k + 1..]));
        WriteEmit(emits[k]);
        k := k + 1;
      }
      assert emits[k..] == [] && pipe.output + "" == pipe.output;
    }

    method HelpCmd(params: string, order: seq<string>) returns (alive: bool)
      modifies pipe`output
      ensures pipe.output == old(pipe.output) + Bytes(WriteSeq(HelpMessages(proto, params, order)).0)
      ensures alive == WriteSeq(HelpMessages(proto, params, order)).1
    {
      if params != "" {
        if params !in proto.help {
          alive := WriteLines([ErrorMessage(AssuanError(NOT_FOUND, "not found"))]);
        } else {
          alive := WriteLines(Comments(proto.help[params]) + [OK]);
        }
      } else {
        alive := WriteLines(Comments(BUILTIN + order) + [OK]);
      }
    }

    method OptionCmd(params: string) returns (alive: bool)
      modifies this`srv, pipe`output
      ensures var r := OptionReply(proto, old(srv), params);
        pipe.output == old(pipe.output) + Bytes(r.lines) && srv == r.srv && alive == r.alive
    {
      if proto.setOption.None? {
        alive := WriteLines([ErrorMessage(AssuanError(NOT_IMPLEMENTED, "not implemented"))]);
        return;
      }
      var split := SplitOption(params);
      if split.None? {
        alive := WriteLines([ErrorMessage(AssuanError(ASS_INV_VALUE, "invalid OPTION syntax"))]);
        return;
      }
      var (state, verdict) := proto.setOption.value(srv.state, split.value.0, split.value.1);
      srv := srv.(state := state);
      if verdict.Fatal? {
        assert pipe.output + "" == pipe.output;
        return false;
      }
      alive := WriteLines(OptionMessages(verdict));
    }

    /** The default branch of handleCmd. */
    method RunHandler(handlers: map<string, Handler<S>>, m: Message) returns (alive: bool)
      modifies this`srv, pipe`output
      ensures var r := RunReply(handlers, old(srv), m);
        pipe.output == old(pipe.output) + Bytes(r.lines) && srv == r.srv && alive == r.alive
    {
      if m.cmd !in handlers {
        alive := WriteLines([ErrorMessage(AssuanError(ASS_UNKNOWN_CMD, "unknown IPC command"))]);
        return;
      }
      var h := handlers[m.cmd](srv.state, m.params);
      ghost var start := pipe.output;
      srv := srv.(state := h.state);
      WriteEmits(h.emits);
      if h.verdict.Fatal? {
        return false;
      }
      var last := if h.verdict.Rejected? then ErrorMessage(h.verdict.error) else OK;
      alive := WriteLines([last]);
      OutputGrows(start, EmitLines(h.emits), WriteSeq([last]).0);
    }

    method HandleCmd(m: Message, order: seq<string>) returns (alive: bool)
      requires IsOrder(order, HandlerNames(srv))
      modifies this`srv, pipe`output
      ensures var r := Handle(proto, old(srv), m, order);
        pipe.output == old(pipe.output) + Bytes(r.lines) && srv == r.srv && alive == r.alive
    {
      if m.cmd == "BYE" || m.cmd == "NOP" {
        alive := WriteLines([OK]);
      } else if m.cmd == "OPTION" {
        alive := OptionCmd(m.params);
      } else if m.cmd == "HELP" {
        alive := HelpCmd(m.params, order);
      } else if m.cmd == "RESET" {
        var handlers := WithReset(srv.handlers);
        if srv.handlers.Some? {
          srv := srv.(handlers := Some(handlers));
        }
        alive := RunHandler(handlers, m);
      } else {
        alive := RunHandler(if srv.handlers.None? then map[] else srv.handlers.value, m);
      }
    }

    /** Serve's loop: one command after the other until the input ends or one is fatal. */
    method ServeCommands(orders: Orders)
      requires pipe.limit == MAX_LINE_LEN
      requires forall k: nat, names :: IsOrder(orders(k, names), names)
      modifies this`srv, pipe`input, pipe`output
      ensures pipe.output == old(pipe.output) + Bytes(ServeLoop(proto, old(srv), orders, 0, old(pipe.input)))
    {
      var k := 0;
      ghost var goal := pipe.output + Bytes(ServeLoop(proto, srv, orders, 0, pipe.input));
      while true
        invariant pipe.output + Bytes(ServeLoop(proto, srv, orders, k, pipe.input)) == goal
        decreases |pipe.input|
      {
        ghost var output := pipe.output;
        assert output + "" == output;
        var r := pipe.ReadLine();
        if r.Fail? {
          return;
        }
        var order := orders(k, HandlerNames(srv));
        ghost var reply := Handle(proto, srv, r.message, order);
        var alive := HandleCmd(r.message, order);
        if !alive {
          return;
        }
        k := k + 1;
        OutputGrows(output, reply.lines, ServeLoop(proto, srv, orders, k, pipe.input));
      }
    }

    /** The session: a greeting, then the commands. BYE is answered like NOP. */
    method Serve(orders: Orders)
      requires pipe.limit == MAX_LINE_LEN
      requires forall k: nat, names :: IsOrder(orders(k, names), names)
      modifies this`srv, pipe`input, pipe`output
      ensures var (greeting, ok) := WriteSeq([Message("OK", proto.greeting)]);
        pipe.output == old(pipe.output) + Bytes(greeting)
          + Bytes(if ok then ServeLoop(proto, old(srv), orders, 0, old(pipe.input)) else [])
    {
      var ok := WriteLines([Message("OK", proto.greeting)]);
      if !ok {
        assert pipe.output + "" == pipe.output;
        return;
      }
      ServeCommands(orders);
    }
  }
}
