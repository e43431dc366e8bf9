/**
 What the servers write, line by line: the built-in commands of any protocol
 (assuan/server/server.go), then every command of the pinentry (pinentry/server.go,
 cmd/pinentry/main.go).
 */
module Replies {
  import opened Basics
  import opened Errors
  import opened Escape
  import opened Lockstep
  import opened Server
  import opened Transfer
  import opened Wire

  /** An ERR line. */
  function ErrText(number: nat, text: string, source: string): string {
    "ERR " + (Digits(number) + " " + text + " <" + source + ">")
  }

  ghost predicate PlainText(text: string) {
    forall c :: c in text ==> !Escapable(c)
  }

  lemma PlainParts(number: string, text: string, source: string)
    requires PlainText(number) && PlainText(text) && PlainText(source)
    ensures PlainText(number + " " + text + " <" + source + ">")
  {
  }

  lemma {:induction false} DigitsArePlain(n: nat)
    ensures PlainText(Digits(n))
  {
    DigitsRoundTrip(n);
  }

  /** An error with a plain message is written as it is, its code in decimal. */
  lemma ErrLine(e: Error)
    requires PlainText(e.message) && PlainText(e.srcName) && |e.message| + |e.srcName| <= 900
    ensures var line := ErrText(MakeErrCode(e.src, e.code) as int, e.message, e.srcName);
      && WriteSeq([ErrorMessage(e)]) == ([line], true) && LineOf(ErrorMessage(e)) == line && ErrorFits(e)
  {
    var number := Digits(MakeErrCode(e.src, e.code) as int);
    SplitPacked(e.src, e.code);
    NumberMatches(MakeErrCode(e.src, e.code) as int);
    DigitsArePlain(MakeErrCode(e.src, e.code) as int);
    PlainParts(number, e.message, e.srcName);
    NothingToEscape(ErrorParams(e));
    ErrIsUpper();
    hide EscapeParameters, ToUpper, Digits, PlainText;
    assert LineOf(ErrorMessage(e)) == "ERR" + " " + ErrorParams(e);
    assert "ERR" + " " == "ERR ";
    FinalLine(ErrorMessage(e));
  }

  lemma ErrIsUpper()
    ensures ToUpper("ERR") == "ERR" && ToUpper("OK") == "OK"
  {
  }

  // ---- the server's own errors, as lines ----

  lemma AssuanFields(code: bv16, text: string)
    ensures AssuanError(code, text).src == SRC_ASSUAN && AssuanError(code, text).code == code
    ensures AssuanError(code, text).message == text && AssuanError(code, text).srcName == "assuan"
    ensures PlainText("assuan")
  {
  }

  lemma AssuanLine(code: bv16, text: string, n: nat)
    requires MakeErrCode(SRC_ASSUAN, code) as int == n && PlainText(text) && |text| <= 100
    ensures WriteSeq([ErrorMessage(AssuanError(code, text))]) == ([ErrText(n, text, "assuan")], true)
  {
    hide *;
    AssuanFields(code, text);
    ErrLine(AssuanError(code, text));
  }

  lemma UnknownNumber()
    ensures MakeErrCode(SRC_ASSUAN, ASS_UNKNOWN_CMD) as int == 251658515
  {
  }

  lemma UnknownPlain()
    ensures PlainText("unknown IPC command")
  {
  }

  lemma UnknownLine()
    ensures WriteSeq([ErrorMessage(AssuanError(ASS_UNKNOWN_CMD, "unknown IPC command"))])
         == ([ErrText(251658515, "unknown IPC command", "assuan")], true)
  {
    hide *;
    UnknownNumber();
    UnknownPlain();
    AssuanLine(ASS_UNKNOWN_CMD, "unknown IPC command", 251658515);
  }

  lemma NotFoundNumber()
    ensures MakeErrCode(SRC_ASSUAN, NOT_FOUND) as int == 251658267
  {
  }

  lemma NotFoundPlain()
    ensures PlainText("not found")
  {
  }

  lemma NotFoundLine()
    ensures WriteSeq([ErrorMessage(AssuanError(NOT_FOUND, "not found"))])
         == ([ErrText(251658267, "not found", "assuan")], true)
  {
    hide *;
    NotFoundNumber();
    NotFoundPlain();
    AssuanLine(NOT_FOUND, "not found", 251658267);
  }

  lemma NotImplementedNumber()
    ensures MakeErrCode(SRC_ASSUAN, NOT_IMPLEMENTED) as int == 251658309
  {
  }

  lemma NotImplementedPlain()
    ensures PlainText("not implemented")
  {
  }

  lemma NotImplementedLine()
    ensures WriteSeq([ErrorMessage(AssuanError(NOT_IMPLEMENTED, "not implemented"))])
         == ([ErrText(251658309, "not implemented", "assuan")], true)
  {
    hide *;
    NotImplementedNumber();
    NotImplementedPlain();
    AssuanLine(NOT_IMPLEMENTED, "not implemented", 251658309);
  }

  lemma InvalidNumber()
    ensures MakeErrCode(SRC_ASSUAN, ASS_INV_VALUE) as int == 251658501
  {
  }

  lemma InvalidPlain()
    ensures PlainText("invalid OPTION syntax")
  {
  }

  lemma InvalidLine()
    ensures WriteSeq([ErrorMessage(AssuanError(ASS_INV_VALUE, "invalid OPTION syntax"))])
         == ([ErrText(251658501, "invalid OPTION syntax", "assuan")], true)
  {
    hide *;
    InvalidNumber();
    InvalidPlain();
    AssuanLine(ASS_INV_VALUE, "invalid OPTION syntax", 251658501);
  }

  // ---- OPTION's parameter ----

  /** A letter, a digit, an underscore or a hyphen. */
  predicate KeyChar(c: char) {
    48 <= c as int <= 57 || 65 <= c as int <= 90 || 97 <= c as int <= 122 || c as int == 95 || c as int == 45
  }

  lemma OptionSpanIs(params: string, n: nat)
    requires n <= |params| && (forall i :: 0 <= i < n ==> KeyChar(params[i]))
    requires n < |params| ==> !KeyChar(params[n])
    ensures OptionSpan(params) == n
  {
    assert forall c :: KeyChar(c) <==> IsOptionChar(c);
  }

  /** A parameter of OPTION is a key alone, or a key, one blank or equals sign, and a value
      without a line feed; anything else is refused. */
  lemma SplitOptionIff(params: string, key: string, value: string)
    ensures SplitOption(params) == Some((key, value)) <==>
      && key != "" && (forall c :: c in key ==> KeyChar(c))
      && ((params == key && value == "")
          || ('\n' !in value && (params == key + " " + value || params == key + "=" + value)))
  {
    if key != "" && forall c :: c in key ==> KeyChar(c) {
      assert forall i :: 0 <= i < |key| ==> key[i] in key;
      if params == key && value == "" {
        OptionSpanIs(params, |key|);
      } else if params == key + " " + value || params == key + "=" + value {
        assert params[..|key|] == key && params[|key| + 1..] == value;
        assert forall i :: 0 <= i < |key| ==> params[i] == key[i];
        OptionSpanIs(params, |key|);
      }
    }
    var n := OptionSpan(params);
    if SplitOption(params) == Some((key, value)) {
      assert key == params[..n];
      forall c | c in key ensures KeyChar(c) {
        var i :| 0 <= i < |key| && key[i] == c;
        assert IsOptionChar(params[i]);
      }
      if n < |params| {
        assert params == params[..n] + [params[n]] + params[n + 1..];
      }
    }
  }

  // ---- the built-in commands ----

  lemma OkWritten()
    ensures WriteSeq([OK]) == (["OK"], true)
  {
    FinalLine(OK);
    OkLine();
  }

  lemma ByeAndNop<S>(proto: Proto<S>, srv: Srv<S>, cmd: string, params: string, order: seq<string>)
    requires cmd == "BYE" || cmd == "NOP"
    ensures Handle(proto, srv, Message(cmd, params), order) == Reply(["OK"], srv, true)
  {
    OkWritten();
  }

  lemma UnknownCommand<S>(proto: Proto<S>, srv: Srv<S>, m: Message, order: seq<string>)
    requires m.cmd !in ["BYE", "NOP", "OPTION", "HELP", "RESET"]
    requires srv.handlers.None? || m.cmd !in srv.handlers.value
    ensures Handle(proto, srv, m, order)
         == Reply([ErrText(251658515, "unknown IPC command", "assuan")], srv, true)
  {
    hide WriteSeq, ErrText, ErrorMessage, AssuanError;
    UnknownLine();
  }

  lemma HelpOfCommand<S>(proto: Proto<S>, srv: Srv<S>, cmd: string, order: seq<string>)
    requires cmd != ""
    ensures cmd !in proto.help ==>
      Handle(proto, srv, Message("HELP", cmd), order)
        == Reply([ErrText(251658267, "not found", "assuan")], srv, true)
    ensures cmd in proto.help && (forall text :: text in proto.help[cmd] ==> Accepts(Message("#", text))) ==>
      var texts, r := proto.help[cmd], Handle(proto, srv, Message("HELP", cmd), order);
      && r.alive && r.srv == srv && |r.lines| == |texts| + 1 && r.lines[|texts|] == "OK"
      && forall i :: 0 <= i < |texts| ==> r.lines[i] == LineOf(Message("#", texts[i]))
  {
    hide WriteSeq, ErrText, ErrorMessage, AssuanError;
    NotFoundLine();
    if cmd in proto.help && forall text :: text in proto.help[cmd] ==> Accepts(Message("#", text)) {
      HelpTexts(proto.help[cmd]);
    }
  }

  lemma HelpTexts(texts: seq<string>)
    requires forall text :: text in texts ==> Accepts(Message("#", text))
    ensures var (lines, ok) := WriteSeq(Comments(texts) + [OK]);
      && ok && |lines| == |texts| + 1 && lines[|texts|] == "OK"
      && forall i :: 0 <= i < |texts| ==> lines[i] == LineOf(Message("#", texts[i]))
  {
    var ms := Comments(texts) + [OK];
    OkLine();
    hide Accepts, LineOf, WriteSeq;
    forall m | m in ms ensures Accepts(m) {
      var i :| 0 <= i < |ms| && ms[i] == m;
      if i < |texts| { assert texts[i] in texts; }
    }
    AllWritten(ms);
    forall i | 0 <= i < |texts| ensures WriteSeq(ms).0[i] == LineOf(Message("#", texts[i])) {
      assert ms[i] == Message("#", texts[i]);
    }
  }

  /** RESET without a handler of the protocol's own: OK, and the session as it was. */
  lemma ResetByDefault<S>(proto: Proto<S>, srv: Srv<S>, params: string, order: seq<string>)
    requires srv.handlers.None? || "RESET" !in srv.handlers.value
    ensures var r := Handle(proto, srv, Message("RESET", params), order);
      && r.lines == ["OK"] && r.alive && r.srv.state == srv.state
      && (srv.handlers.None? ==> r.srv.handlers.None?)
      && (srv.handlers.Some? ==>
            && r.srv.handlers.Some?
            && r.srv.handlers.value.Keys == srv.handlers.value.Keys + {"RESET"}
            && forall k :: k in srv.handlers.value ==> r.srv.handlers.value[k] == srv.handlers.value[k])
  {
    OkWritten();
    assert EmitLines([]) == [] && [] + ["OK"] == ["OK"];
    hide WriteSeq;
  }

  /** OPTION in every branch: the lines and the state it leaves. */
  lemma OptionReplies<S>(proto: Proto<S>, srv: Srv<S>, params: string, order: seq<string>)
    ensures var r := Handle(proto, srv, Message("OPTION", params), order);
      if proto.setOption.None? then
        r == Reply([ErrText(251658309, "not implemented", "assuan")], srv, true)
      else if SplitOption(params).None? then
        r == Reply([ErrText(251658501, "invalid OPTION syntax", "assuan")], srv, true)
      else
        var (key, value) := SplitOption(params).value;
        var (state, verdict) := proto.setOption.value(srv.state, key, value);
        match verdict
        case Fine => r == Reply(["OK"], srv.(state := state), true)
        case Fatal => r == Reply([], srv.(state := state), false)
        case Rejected(e) =>
          ErrorFits(e) ==> r == Reply([LineOf(ErrorMessage(e)), "OK"], srv.(state := state), true)
  {
    hide WriteSeq, SplitOption, ErrText, LineOf, ErrorMessage, AssuanError, ErrorFits;
    NotImplementedLine();
    InvalidLine();
    OkWritten();
    if proto.setOption.Some? && SplitOption(params).Some? {
      var (key, value) := SplitOption(params).value;
      var verdict := proto.setOption.value(srv.state, key, value).1;
      if verdict.Rejected? && ErrorFits(verdict.error) { ErrThenOk(verdict.error); }
    }
  }

  lemma ErrThenOk(e: Error)
    requires ErrorFits(e)
    ensures WriteSeq([ErrorMessage(e), OK]) == ([LineOf(ErrorMessage(e)), "OK"], true)
  {
    FinalLine(ErrorMessage(e));
    OkWritten();
    RejectWrites(e);
    assert [ErrorMessage(e), OK][1..] == [OK];
    assert [LineOf(ErrorMessage(e))] + ["OK"] == [LineOf(ErrorMessage(e)), "OK"];
  }
}
