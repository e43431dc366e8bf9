/**
 What the pinentry server answers to each of its commands, over its command loop
 (pinentry/server.go, cmd/pinentry/main.go): the lines, and the world they leave.
 */
module PinReplies {
  import opened Basics
  import opened Errors
  import opened Escape
  import H = PinentryHistory
  import opened Lockstep
  import P = Pinentry
  import opened PinClient
  import opened Replies
  import opened Server
  import opened Transfer
  import opened Wire

  function Session(program: P.Program, w: P.World): Srv<P.World> { Srv(Some(P.PinHandlers(program)), w) }

  /** The reply of the command loop. */
  function ReplyTo(program: P.Program, w: P.World, cmd: string, params: string): Reply<P.World> {
    Handle(P.PinProto(), Session(program, w), Message(cmd, params), [])
  }

  lemma HandlerIs(program: P.Program, w: P.World, cmd: string, params: string)
    requires cmd in P.Commands()
    ensures var handlers := P.PinHandlers(program);
      cmd in handlers && handlers[cmd](w, params) == P.Run(program, cmd, w, params)
  {
    hide P.Run, P.Commands;
  }

  lemma CommandsAre(cmd: string)
    requires cmd in P.Commands()
    ensures cmd !in ["BYE", "NOP", "OPTION", "HELP"] && "RESET" in P.Commands()
  {
  }

  lemma RunsHandler(program: P.Program, w: P.World, cmd: string, params: string)
    requires cmd in P.Commands()
    ensures ReplyTo(program, w, cmd, params)
         == RunReply(P.PinHandlers(program), Session(program, w), Message(cmd, params))
    ensures var handlers := P.PinHandlers(program);
      cmd in handlers && handlers[cmd](w, params) == P.Run(program, cmd, w, params)
  {
    CommandsAre(cmd);
    HandlerIs(program, w, cmd, params);
    HandlerIs(program, w, "RESET", params);
    hide P.Run, RunReply, P.Commands, P.PinHandlers;
  }

  lemma NoEmits(lines: seq<string>)
    ensures EmitLines([]) == [] && [] + lines == lines
  {
  }

  /** A command that does its work without a line of its own. */
  lemma Silent(program: P.Program, w: P.World, cmd: string, params: string)
    requires cmd in P.Commands()
    requires var h := P.Run(program, cmd, w, params); h.emits == [] && h.verdict == Fine
    ensures ReplyTo(program, w, cmd, params)
         == Reply(["OK"], Session(program, P.Run(program, cmd, w, params).state), true)
  {
    RunsHandler(program, w, cmd, params);
    hide P.Run, P.PinHandlers, Handle, WriteSeq, EmitLines;
    OkWritten();
    NoEmits(["OK"]);
  }

  lemma PinFields(code: bv16, text: string)
    ensures var e := P.PinError(code, text);
      e.src == SRC_PINENTRY && e.code == code && e.message == text && e.srcName == "pinentry"
    ensures PlainText("pinentry")
  {
  }

  /** A command that is refused. */
  lemma Refused(program: P.Program, w: P.World, cmd: string, params: string, code: bv16, text: string, n: nat)
    requires cmd in P.Commands() && MakeErrCode(SRC_PINENTRY, code) as int == n && PlainText(text) && |text| <= 100
    requires var h := P.Run(program, cmd, w, params); h.emits == [] && h.verdict == Rejected(P.PinError(code, text))
    ensures ReplyTo(program, w, cmd, params)
         == Reply([ErrText(n, text, "pinentry")], Session(program, P.Run(program, cmd, w, params).state), true)
  {
    RunsHandler(program, w, cmd, params);
    PinFields(code, text);
    hide P.Run, P.PinHandlers, Handle, WriteSeq, EmitLines, P.PinError, ErrText, ErrorMessage, PlainText;
    ErrLine(P.PinError(code, text));
    NoEmits([ErrText(n, text, "pinentry")]);
  }

  // ---- the codes of the refusals ----

  lemma CanceledNumber()
    ensures MakeErrCode(SRC_PINENTRY, CANCELED) as int == 83886179
  {
  }

  lemma AssGeneralNumber()
    ensures MakeErrCode(SRC_PINENTRY, ASS_GENERAL) as int == 83886337
  {
  }

  lemma AssInvValueNumber()
    ensures MakeErrCode(SRC_PINENTRY, ASS_INV_VALUE) as int == 83886341
  {
  }

  lemma AssParameterNumber()
    ensures MakeErrCode(SRC_PINENTRY, ASS_PARAMETER) as int == 83886360
  {
  }

  // ---- CONFIRM ----

  lemma CanceledPlain()
    ensures PlainText("operation canceled")
  {
  }

  /** CONFIRM is answered OK if and only if the user confirms; its parameters are kept for
      the dialog, and one answer of the user is used up. */
  lemma ConfirmReply(program: P.Program, w: P.World, params: string)
    ensures ReplyTo(program, w, "CONFIRM", params)
         == var later := if w.envs == [] then [] else w.envs[1..];
            Reply(if w.envs != [] && w.envs[0].confirmed then ["OK"]
                  else [ErrText(83886179, "operation canceled", "pinentry")],
                  Session(program, P.World(w.s.(cmdArgs := params), w.vault, later)), true)
  {
    ConfirmRuns(program, w, params);
    hide *;
    CanceledNumber();
    CanceledPlain();
    if w.envs != [] && w.envs[0].confirmed {
      Silent(program, w, "CONFIRM", params);
    } else {
      Refused(program, w, "CONFIRM", params, CANCELED, "operation canceled", 83886179);
    }
  }

  lemma ConfirmRuns(program: P.Program, w: P.World, params: string)
    ensures "CONFIRM" in P.Commands() && |"operation canceled"| <= 100
    ensures var h := P.Run(program, "CONFIRM", w, params);
      && h.state == P.World(w.s.(cmdArgs := params), w.vault, if w.envs == [] then [] else w.envs[1..])
      && h.emits == []
      && h.verdict == if w.envs != [] && w.envs[0].confirmed then Fine
                      else Rejected(P.PinError(CANCELED, "operation canceled"))
  {
  }

  // ---- SETKEYINFO, RESET and the setters ----

  /** SETKEYINFO is always answered OK; `--clear` and an empty parameter leave no key in
      force, anything else is the key, and nothing else changes. */
  lemma SetKeyInfoReply(program: P.Program, w: P.World, params: string)
    ensures ReplyTo(program, w, "SETKEYINFO", params)
         == Reply(["OK"], Session(program, w.(s := w.s.(keyInfo := if params == "--clear" then "" else params))), true)
  {
    KeyInfoRuns(program, w, params);
    hide *;
    Silent(program, w, "SETKEYINFO", params);
  }

  lemma KeyInfoRuns(program: P.Program, w: P.World, params: string)
    ensures "SETKEYINFO" in P.Commands()
    ensures P.Run(program, "SETKEYINFO", w, params)
         == Handled(w.(s := w.s.(keyInfo := if params == "--clear" then "" else params)), [], Fine)
  {
  }

  /** RESET goes back to the settings the program starts with; the vault stays. */
  lemma ResetReply(program: P.Program, w: P.World, params: string)
    ensures ReplyTo(program, w, "RESET", params)
         == Reply(["OK"], Session(program, P.World(program.defaults, w.vault, w.envs)), true)
  {
    ResetRuns(program, w, params);
    hide *;
    Silent(program, w, "RESET", params);
  }

  lemma ResetRuns(program: P.Program, w: P.World, params: string)
    ensures "RESET" in P.Commands()
    ensures P.Run(program, "RESET", w, params) == Handled(P.World(program.defaults, w.vault, w.envs), [], Fine)
  {
  }

  /** What each setter sets. */
  function SetBy(cmd: string, s: P.Settings, text: string): Option<P.Settings> {
    match cmd
    case "SETTITLE" => Some(s.(title := text))
    case "SETDESC" => Some(s.(desc := text))
    case "SETPROMPT" => Some(s.(prompt := text))
    case "SETERROR" => Some(s.(error := text))
    case "SETREPEAT" => Some(s.(repeatPrompt := text))
    case "SETREPEATERROR" => Some(s.(repeatError := text))
    case "SETOK" => Some(s.(okBtn := text))
    case "SETNOTOK" => Some(s.(notOkBtn := text))
    case "SETCANCEL" => Some(s.(cancelBtn := text))
    case "SETGENPIN" => Some(s.(genPINLabel := text))
    case "SETGENPIN_TT" => Some(s.(genPINToolTip := text))
    case "SETQUALITYBAR" => Some(s.(qualityBar := text))
    case "SETQUALITYBAR_TT" => Some(s.(qualityBarToolTip := text))
    case _ => None
  }

  lemma SetterRuns(program: P.Program, w: P.World, cmd: string, text: string)
    requires SetBy(cmd, w.s, text).Some?
    ensures cmd in P.Commands()
    ensures P.Run(program, cmd, w, text) == Handled(w.(s := SetBy(cmd, w.s, text).value), [], Fine)
  {
  }

  /** A setter is answered OK, changes its own setting, and nothing else. */
  lemma SetterReply(program: P.Program, w: P.World, cmd: string, text: string)
    requires SetBy(cmd, w.s, text).Some?
    ensures ReplyTo(program, w, cmd, text)
         == Reply(["OK"], Session(program, w.(s := SetBy(cmd, w.s, text).value)), true)
  {
    SetterRuns(program, w, cmd, text);
    hide *;
    Silent(program, w, cmd, text);
  }

  // ---- SETTIMEOUT ----

  lemma TimeoutPlain()
    ensures PlainText("invalid timeout value")
  {
  }

  /** A number, as strconv.Atoi reads one, is a timeout in seconds; anything else is refused
      and changes nothing. */
  lemma TimeoutReply(program: P.Program, w: P.World, params: string)
    ensures ReplyTo(program, w, "SETTIMEOUT", params)
         == match P.Atoi(params)
            case Some(n) => Reply(["OK"], Session(program, w.(s := w.s.(timeout := P.Seconds(n)))), true)
            case None => Reply([ErrText(83886341, "invalid timeout value", "pinentry")], Session(program, w), true)
  {
    TimeoutRuns(program, w, params);
    hide *;
    AssInvValueNumber();
    TimeoutPlain();
    if P.Atoi(params).Some? {
      Silent(program, w, "SETTIMEOUT", params);
    } else {
      Refused(program, w, "SETTIMEOUT", params, ASS_INV_VALUE, "invalid timeout value", 83886341);
    }
  }

  lemma TimeoutRuns(program: P.Program, w: P.World, params: string)
    ensures "SETTIMEOUT" in P.Commands() && |"invalid timeout value"| <= 100
    ensures P.Run(program, "SETTIMEOUT", w, params)
         == match P.Atoi(params)
            case Some(n) => Handled(w.(s := w.s.(timeout := P.Seconds(n))), [], Fine)
            case None => Handled(w, [], Rejected(P.PinError(ASS_INV_VALUE, "invalid timeout value")))
  {
    hide P.Atoi, P.Seconds;
  }

  /** A text is a number only if it is digits after at most one sign; with a hyphen it is
      the negative, and leading zeros do not matter. */
  lemma NumbersAre(text: string, n: int)
    requires P.Atoi(text) == Some(n)
    ensures var signed := text != "" && (text[0] == '-' || text[0] == '+');
      var digits := if signed then text[1..] else text;
      && digits != "" && (forall c :: c in digits ==> IsDigit(c))
      && (var value: int := ParseDigits(digits); n == if text[0] == '-' then -value else value)
      && -0x8000_0000_0000_0000 <= n < 0x8000_0000_0000_0000
  {
    var signed := text != "" && (text[0] == '-' || text[0] == '+');
    var digits := if signed then text[1..] else text;
    assert DigitSpan(digits) == |digits|;
  }

  /** And digits after at most one sign are a number, if 64 bits hold it. */
  lemma NumbersRead(digits: string)
    requires digits != "" && forall c :: c in digits ==> IsDigit(c)
    ensures var value: int := ParseDigits(digits);
      && P.Atoi(digits) == (if value < 0x8000_0000_0000_0000 then Some(value) else None)
      && P.Atoi("+" + digits) == (if value < 0x8000_0000_0000_0000 then Some(value) else None)
      && P.Atoi("-" + digits) == (if value <= 0x8000_0000_0000_0000 then Some(-value) else None)
  {
    hide ParseDigits;
    assert IsDigit(digits[0]);
    assert ("+" + digits)[1..] == digits && ("-" + digits)[1..] == digits;
  }

  // ---- CLEARPASSPHRASE ----

  lemma ClearPlain()
    ensures PlainText("CLEARPASSPHRASE cannot access vault")
    ensures PlainText("CLEARPASSPHRASE cannot delete credential")
  {
  }

  /** CLEARPASSPHRASE is answered OK if the vault can be read and holds nothing under the
      trimmed key, or what it holds can be deleted, and then is; the two failures have
      errors of their own and leave the vault as it is. */
  lemma ClearReply(program: P.Program, w: P.World, params: string)
    ensures var name := "GnuPG:PinGO=" + P.TrimBlanks(params);
      var env := if w.envs == [] then P.NO_ENV else w.envs[0];
      var after := w.(envs := if w.envs == [] then [] else w.envs[1..]);
      var r := ReplyTo(program, w, "CLEARPASSPHRASE", params);
      if env.readFails then
        r == Reply([ErrText(83886337, "CLEARPASSPHRASE cannot access vault", "pinentry")],
                   Session(program, after), true)
      else if name in w.vault && env.deleteFails then
        r == Reply([ErrText(83886341, "CLEARPASSPHRASE cannot delete credential", "pinentry")],
                   Session(program, after), true)
      else
        r == Reply(["OK"], Session(program, after.(vault := w.vault - {name})), true)
  {
    ClearRuns(program, w, params);
    hide *;
    AssGeneralNumber();
    AssInvValueNumber();
    ClearPlain();
    var name := "GnuPG:PinGO=" + P.TrimBlanks(params);
    var env := if w.envs == [] then P.NO_ENV else w.envs[0];
    if env.readFails {
      Refused(program, w, "CLEARPASSPHRASE", params, ASS_GENERAL, "CLEARPASSPHRASE cannot access vault", 83886337);
    } else if name in w.vault && env.deleteFails {
      Refused(program, w, "CLEARPASSPHRASE", params, ASS_INV_VALUE,
              "CLEARPASSPHRASE cannot delete credential", 83886341);
    } else {
      Silent(program, w, "CLEARPASSPHRASE", params);
    }
  }

  lemma ClearRuns(program: P.Program, w: P.World, params: string)
    ensures "CLEARPASSPHRASE" in P.Commands()
    ensures |"CLEARPASSPHRASE cannot access vault"| <= 100 && |"CLEARPASSPHRASE cannot delete credential"| <= 100
    ensures var name := "GnuPG:PinGO=" + P.TrimBlanks(params);
      var env := if w.envs == [] then P.NO_ENV else w.envs[0];
      var after := w.(envs := if w.envs == [] then [] else w.envs[1..]);
      P.Run(program, "CLEARPASSPHRASE", w, params)
        == if env.readFails then
             Handled(after, [], Rejected(P.PinError(ASS_GENERAL, "CLEARPASSPHRASE cannot access vault")))
           else if name in w.vault && env.deleteFails then
             Handled(after, [], Rejected(P.PinError(ASS_INV_VALUE, "CLEARPASSPHRASE cannot delete credential")))
           else Handled(after.(vault := w.vault - {name}), [], Fine)
  {
    var name := "GnuPG:PinGO=" + P.TrimBlanks(params);
    hide P.TrimBlanks;
    if name !in w.vault { assert w.vault - {name} == w.vault; }
  }

  ghost predicate Blanks(text: string) {
    forall c :: c in text ==> c == ' '
  }

  lemma {:induction false} TrimBlanksLeftIs(text: string) returns (front: string)
    ensures text == front + P.TrimBlanksLeft(text) && Blanks(front)
    ensures P.TrimBlanksLeft(text) != "" ==> P.TrimBlanksLeft(text)[0] != ' '
  {
    if text != "" && text[0] == ' ' {
      var more := TrimBlanksLeftIs(text[1..]);
      front := " " + more;
      assert text == " " + text[1..];
    } else {
      front := "";
      assert text == "" + text;
    }
  }

  lemma {:induction false} TrimBlanksRightIs(text: string) returns (back: string)
    ensures text == P.TrimBlanksRight(text) + back && Blanks(back)
    ensures P.TrimBlanksRight(text) != "" ==>
      P.TrimBlanksRight(text)[|P.TrimBlanksRight(text)| - 1] != ' ' && P.TrimBlanksRight(text)[0] == text[0]
  {
    if text != "" && text[|text| - 1] == ' ' {
      var trimmed := P.TrimBlanksRight(text[..|text| - 1]);
      var more := TrimBlanksRightIs(text[..|text| - 1]);
      back := more + " ";
      assert text == text[..|text| - 1] + " ";
      Associative(trimmed, more, " ");
      hide P.TrimBlanksRight;
    } else {
      back := "";
      assert text == text + "";
    }
  }

  /** Trimming takes the blanks off both ends, all of them and nothing else. */
  lemma TrimBlanksIs(text: string) returns (front: string, back: string)
    ensures var trimmed := P.TrimBlanks(text);
      && text == front + trimmed + back && Blanks(front) && Blanks(back)
      && (trimmed != "" ==> trimmed[0] != ' ' && trimmed[|trimmed| - 1] != ' ')
  {
    front := TrimBlanksLeftIs(text);
    back := TrimBlanksRightIs(P.TrimBlanksLeft(text));
    Associative(front, P.TrimBlanks(text), back);
  }

  // ---- GETPIN ----

  /** The vault is asked, can be read and holds something under the key in force. */
  predicate Found(s: P.Settings, vault: P.Vault, env: P.Env) {
    && s.error == "" && s.repeatPrompt == "" && s.opts.allowExtPasswdCache && s.keyInfo != ""
    && !env.readFails && "GnuPG:PinGO=" + s.keyInfo in vault
  }

  predicate Answers(s: P.Settings, vault: P.Vault, env: P.Env) {
    Found(s, vault, env) && vault["GnuPG:PinGO=" + s.keyInfo] != ""
  }

  /** The password is cached, or typed: once, or twice the same in one attempt. */
  ghost predicate Gives(s: P.Settings, vault: P.Vault, env: P.Env, p: string) {
    if Answers(s, vault, env) then p == vault["GnuPG:PinGO=" + s.keyInfo]
    else if s.repeatPrompt == "" then
      env.answers != [] && !env.answers[0].cancel && env.answers[0].passwd == p
    else exists n: nat :: H.Settled(env.answers, n) && env.answers[2 * n].passwd == p
  }

  ghost predicate Cancels(s: P.Settings, vault: P.Vault, env: P.Env) {
    && !Answers(s, vault, env)
    && if s.repeatPrompt == "" then env.answers != [] && env.answers[0].cancel
       else exists n: nat :: H.CanceledIn(env.answers, n)
  }

  /** The status lines before the password or the error. */
  function Marks(s: P.Settings, vault: P.Vault, env: P.Env, given: bool): seq<string> {
    (if Found(s, vault, env) then ["S PASSWORD_FROM_CACHE"] else [])
      + if given && s.repeatPrompt != "" then ["S PIN_REPEATED"] else []
  }

  lemma SingleStatuses(s: P.Settings, vault: P.Vault, env: P.Env)
    requires s.repeatPrompt == ""
    ensures var r := P.GetPin(s, vault, env);
      && r.statuses == (if Found(s, vault, env) then ["PASSWORD_FROM_CACHE"] else [])
      && (forall p :: r.result == P.Pin(p) <==> Gives(s, vault, env, p))
      && (r.result == P.PinCanceled <==> Cancels(s, vault, env))
  {
    assert P.CredentialName(s.keyInfo) == "GnuPG:PinGO=" + s.keyInfo;
    hide P.CredentialName;
  }

  lemma RepeatStatuses(s: P.Settings, vault: P.Vault, env: P.Env)
    requires s.repeatPrompt != ""
    ensures var r := P.GetPin(s, vault, env);
      && r.statuses == (if r.result.Pin? then ["PIN_REPEATED"] else []) && !Found(s, vault, env)
      && (forall p :: r.result == P.Pin(p) <==> Gives(s, vault, env, p))
      && (r.result == P.PinCanceled <==> Cancels(s, vault, env))
  {
    H.RepeatedPin(s, vault, env);
    hide P.GetPin, H.Settled, H.CanceledIn;
  }

  lemma StatusLineIs(text: string)
    requires PlainText(text) && text != ""
    ensures StatusLines([text]) == ["S " + text] && StatusLines([]) == []
  {
    NothingToEscape(text);
    assert ToUpper("S") == "S";
    assert "S" + " " == "S ";
    hide EscapeParameters;
  }

  lemma StatusTexts()
    ensures PlainText("PASSWORD_FROM_CACHE") && PlainText("PIN_REPEATED")
    ensures "S " + "PASSWORD_FROM_CACHE" == "S PASSWORD_FROM_CACHE" && "S " + "PIN_REPEATED" == "S PIN_REPEATED"
  {
  }

  lemma PinResult(s: P.Settings, vault: P.Vault, env: P.Env)
    ensures var r := P.GetPin(s, vault, env);
      && (forall p :: r.result == P.Pin(p) <==> Gives(s, vault, env, p))
      && (r.result == P.PinCanceled <==> Cancels(s, vault, env))
      && StatusLines(r.statuses) == Marks(s, vault, env, r.result.Pin?)
  {
    StatusTexts();
    hide StatusLines, P.GetPin, Gives, Cancels, PlainText, Found;
    StatusLineIs("PASSWORD_FROM_CACHE");
    StatusLineIs("PIN_REPEATED");
    if s.repeatPrompt == "" { SingleStatuses(s, vault, env); } else { RepeatStatuses(s, vault, env); }
    assert ["S PASSWORD_FROM_CACHE"] + [] == ["S PASSWORD_FROM_CACHE"] && [] + ["S PIN_REPEATED"] == ["S PIN_REPEATED"];
  }

  lemma PinRuns(program: P.Program, w: P.World, params: string)
    ensures "GETPIN" in P.Commands() && |"operation canceled"| <= 100
    ensures var s, env := w.s.(cmdArgs := params), if w.envs == [] then P.NO_ENV else w.envs[0];
      var r, h := P.GetPin(s, w.vault, env), P.Run(program, "GETPIN", w, params);
      && h.state.s == r.s && h.state.envs == (if w.envs == [] then [] else w.envs[1..])
      && (r.result.Pin? ==> h.verdict == Fine && h.emits == P.Statuses(r.statuses) + [Block(r.result.passwd)])
      && (r.result.PinCanceled? ==>
            h.verdict == Rejected(P.PinError(CANCELED, "operation canceled")) && h.emits == P.Statuses(r.statuses))
      && (r.result.Open? ==> h.verdict == Fatal && h.emits == P.Statuses(r.statuses))
  {
    hide P.GetPin;
  }

  lemma {:induction false} StatusEmits(statuses: seq<string>)
    requires StatusesFit(statuses)
    ensures EmitLines(P.Statuses(statuses)) == StatusLines(statuses)
    decreases |statuses|
  {
    hide *;
    FirstEmit(statuses);
    if statuses != [] {
      StatusLineSkipped(statuses[0]);
      StatusEmits(statuses[1..]);
      FirstStatusLine(statuses);
    }
  }

  lemma FirstEmit(statuses: seq<string>)
    requires StatusesFit(statuses)
    ensures statuses == [] ==> EmitLines(P.Statuses(statuses)) == [] && StatusLines(statuses) == []
    ensures statuses != [] ==>
      && statuses[0] != "" && |LineOf(Message("S", statuses[0]))| + 1 <= MAX_LINE_LEN
      && StatusesFit(statuses[1..])
      && EmitLines(P.Statuses(statuses)) == EmitLine(Status(statuses[0])) + EmitLines(P.Statuses(statuses[1..]))
  {
    hide LineOf, EmitLine;
    if statuses != [] {
      assert statuses[0] in statuses && forall t :: t in statuses[1..] ==> t in statuses;
      assert P.Statuses(statuses)[1..] == P.Statuses(statuses[1..]);
    }
  }

  lemma KeepsArgs(s: P.Settings, vault: P.Vault, env: P.Env)
    ensures P.GetPin(s, vault, env).s.cmdArgs == s.cmdArgs
  {
  }

  /** GETPIN, in every world and for every stream of answers. A password cached or typed is
      sent as data, and OK follows; a cancellation is answered with its error and nothing
      else; until the user has done either there is no last line. */
  lemma GetPinReply(program: P.Program, w: P.World, params: string)
    ensures var s, env := w.s.(cmdArgs := params), if w.envs == [] then P.NO_ENV else w.envs[0];
      var r := ReplyTo(program, w, "GETPIN", params);
      && (forall p :: Gives(s, w.vault, env, p) ==>
            r.alive && r.lines == Marks(s, w.vault, env, true) + (DataLines(p) + ["OK"]))
      && (Cancels(s, w.vault, env) ==>
            r.alive && r.lines == Marks(s, w.vault, env, false) + [ErrText(83886179, "operation canceled", "pinentry")])
      && (!Cancels(s, w.vault, env) && (forall p :: !Gives(s, w.vault, env, p)) ==>
            !r.alive && r.lines == Marks(s, w.vault, env, false))
      && r.srv.state.s.cmdArgs == params
  {
    var s, env := w.s.(cmdArgs := params), if w.envs == [] then P.NO_ENV else w.envs[0];
    hide *;
    PinResult(s, w.vault, env);
    PinStatusesFit(s, w.vault, env);
    PinLines(program, w, params);
    KeepsArgs(s, w.vault, env);
    var r := P.GetPin(s, w.vault, env);
    if r.result.Pin? { PinReplyLines(r.statuses, r.result.passwd); }
  }

  /** The same by the result of the dialogs. */
  lemma PinLines(program: P.Program, w: P.World, params: string)
    requires var env := if w.envs == [] then P.NO_ENV else w.envs[0];
      StatusesFit(P.GetPin(w.s.(cmdArgs := params), w.vault, env).statuses)
    ensures var s, env := w.s.(cmdArgs := params), if w.envs == [] then P.NO_ENV else w.envs[0];
      var r, x := P.GetPin(s, w.vault, env), ReplyTo(program, w, "GETPIN", params);
      && x.srv.state.s == r.s
      && (r.result.Pin? ==> x.alive && x.lines == PinReply(r.statuses, r.result.passwd))
      && (r.result.PinCanceled? ==>
            && x.alive
            && x.lines == StatusLines(r.statuses) + [ErrText(83886179, "operation canceled", "pinentry")])
      && (r.result.Open? ==> !x.alive && x.lines == StatusLines(r.statuses))
  {
    var s, env := w.s.(cmdArgs := params), if w.envs == [] then P.NO_ENV else w.envs[0];
    hide *;
    PinRuns(program, w, params);
    Replied(program, w, "GETPIN", params);
    var r := P.GetPin(s, w.vault, env);
    StatusEmits(r.statuses);
    CanceledLine();
    if r.result.Pin? { PinReplySays(r.statuses, r.result.passwd); }
    SessionState(program, P.Run(program, "GETPIN", w, params).state);
  }

  lemma PinReplySays(statuses: seq<string>, passwd: string)
    ensures PinReply(statuses, passwd) == EmitLines(P.Statuses(statuses) + [Block(passwd)]) + ["OK"]
  {
  }

  lemma SessionState(program: P.Program, w: P.World)
    ensures Session(program, w).state == w
  {
  }

  /** A handler's lines, and its last line by its verdict. */
  lemma Replied(program: P.Program, w: P.World, cmd: string, params: string)
    requires cmd in P.Commands()
    ensures var h, r := P.Run(program, cmd, w, params), ReplyTo(program, w, cmd, params);
      && r.srv == Session(program, h.state)
      && (h.verdict.Fine? ==> r.alive && r.lines == EmitLines(h.emits) + ["OK"])
      && (h.verdict.Fatal? ==> !r.alive && r.lines == EmitLines(h.emits))
      && (h.verdict.Rejected? ==>
            r.alive == WriteSeq([ErrorMessage(h.verdict.error)]).1
            && r.lines == EmitLines(h.emits) + WriteSeq([ErrorMessage(h.verdict.error)]).0)
  {
    RunsHandler(program, w, cmd, params);
    hide P.Run, P.PinHandlers, ReplyTo, EmitLines, WriteSeq, ErrorMessage, P.Commands;
    OkWritten();
  }

  lemma CanceledLine()
    ensures WriteSeq([ErrorMessage(P.PinError(CANCELED, "operation canceled"))])
         == ([ErrText(83886179, "operation canceled", "pinentry")], true)
  {
    hide *;
    CanceledNumber();
    CanceledPlain();
    PinFields(CANCELED, "operation canceled");
    ErrLine(P.PinError(CANCELED, "operation canceled"));
    CanceledShort();
  }

  lemma CanceledShort()
    ensures |"operation canceled"| + |"pinentry"| <= 900
  {
  }

  lemma MarksAre(s: P.Settings, vault: P.Vault, env: P.Env, given: bool)
    ensures var lines := Marks(s, vault, env, given);
      lines != [] ==> lines[|lines| - 1] != "OK"
    ensures ErrText(83886179, "operation canceled", "pinentry") != "OK"
  {
    var line := ErrText(83886179, "operation canceled", "pinentry");
    assert line[0] == 'E' && "OK"[0] == 'O';
    assert "S PASSWORD_FROM_CACHE"[0] == 'S' && "S PIN_REPEATED"[0] == 'S';
    hide Found, Digits;
  }

  /** The reply to GETPIN ends in OK if and only if a password is given or cached. */
  lemma GetPinOkIff(program: P.Program, w: P.World, params: string)
    ensures var s, env := w.s.(cmdArgs := params), if w.envs == [] then P.NO_ENV else w.envs[0];
      var lines := ReplyTo(program, w, "GETPIN", params).lines;
      (lines != [] && lines[|lines| - 1] == "OK") <==> exists p :: Gives(s, w.vault, env, p)
  {
    var s, env := w.s.(cmdArgs := params), if w.envs == [] then P.NO_ENV else w.envs[0];
    hide *;
    GetPinReply(program, w, params);
    MarksAre(s, w.vault, env, true);
    MarksAre(s, w.vault, env, false);
    if p :| Gives(s, w.vault, env, p) {
      assert (DataLines(p) + ["OK"])[|DataLines(p)|] == "OK";
    }
  }

  // ---- the dialogs ----

  /** Every dialog of a GETPIN with a repeat prompt: in even places the password, with the
      error of the last attempt and the offer to save where caching is allowed, in odd
      places its repetition. */
  lemma RepeatDialogs(s: P.Settings, vault: P.Vault, env: P.Env, k: nat)
    requires s.repeatPrompt != "" && k < |P.GetPin(s, vault, env).shown|
    ensures P.GetPin(s, vault, env).shown[k]
         == if k % 2 == 1 then P.Dialog("", s.desc, s.repeatPrompt, false)
            else P.Dialog(if k == 0 then s.error
                          else if s.repeatError != "" then s.repeatError else "Does not match - try again",
                          s.desc, s.prompt, s.opts.allowExtPasswdCache && s.keyInfo != "")
  {
    assert P.GetPin(s, vault, env).shown == P.Ask(s, 0, env.answers).shown;
    hide P.GetPin, P.Ask;
    H.DialogsAlternate(s, 0, env.answers, k);
  }

  /** The one dialog without a repeat prompt. */
  lemma SingleDialog(s: P.Settings, vault: P.Vault, env: P.Env)
    requires s.repeatPrompt == "" && !Answers(s, vault, env)
    ensures var r := P.GetPin(s, vault, env);
      r.shown == [P.Dialog(s.error, s.desc, s.prompt, r.s.opts.allowExtPasswdCache && s.keyInfo != "")]
  {
    assert P.CredentialName(s.keyInfo) == "GnuPG:PinGO=" + s.keyInfo;
    hide P.CredentialName;
  }

  // ---- a cancellation at the client ----

  /** The error as it is in the ERR line. */
  const CANCELED_PARAMS := "83886179 operation canceled <pinentry>"

  lemma CanceledNumberText()
    ensures Digits(83886179) == "83886179"
  {
  }

  lemma CanceledConcat()
    ensures "83886179" + " " + "operation canceled" + " <" + "pinentry" + ">" == CANCELED_PARAMS
  {
  }

  lemma ParamsAre(e: Error)
    ensures ErrorParams(e) == Digits(MakeErrCode(e.src, e.code) as int) + " " + e.message + " <" + e.srcName + ">"
    ensures ErrText(MakeErrCode(e.src, e.code) as int, e.message, e.srcName) == "ERR " + ErrorParams(e)
  {
    hide Digits, MakeErrCode;
  }

  lemma CanceledText()
    ensures ErrText(83886179, "operation canceled", "pinentry") == "ERR " + CANCELED_PARAMS
    ensures ErrorParams(P.PinError(CANCELED, "operation canceled")) == CANCELED_PARAMS
  {
    hide *;
    CanceledNumber();
    CanceledNumberText();
    PinFields(CANCELED, "operation canceled");
    ParamsAre(P.PinError(CANCELED, "operation canceled"));
    CanceledConcat();
  }

  lemma CanceledDecodes()
    ensures DecodeErrCmd(CANCELED_PARAMS) == Some(Error(5, 99, "pinentry", "operation canceled"))
  {
    var e := P.PinError(CANCELED, "operation canceled");
    CanceledText();
    CanceledWordy();
    PinFields(CANCELED, "operation canceled");
    ErrorRoundTripIff(e);
    TrimKeeps(e.message);
    SourceIs(e.srcName);
    NotTheProtocol();
    hide DecodeErrCmd, TrimSpace, ToLower, ErrorParams, Digits, P.PinError;
    assert SRC_PINENTRY % 128 == 5;
  }

  lemma CanceledWordy()
    ensures Wordy("operation canceled") && Wordy("pinentry") && NoOuterSpace("operation canceled")
  {
    SpaceIs('o');
    SpaceIs('d');
  }

  lemma NotTheProtocol()
    ensures !NamesProtocol("pinentry")
  {
  }

  /** A cancelled GETPIN reaches the caller as that error, on either path of the client. */
  lemma CancelReachesCaller(program: P.Program, w: P.World, params: string, tail: string, quality: Option<Quality>)
    requires Cancels(w.s.(cmdArgs := params), w.vault, if w.envs == [] then P.NO_ENV else w.envs[0])
    ensures var lines := ReplyTo(program, w, "GETPIN", params).lines;
      && ReadAnswer(Bytes(lines) + tail, "", true) == (ErrorReply(CANCELED_PARAMS), tail)
      && QualLoop(Bytes(lines), quality, true) == QualRun([], ServerError(CANCELED_PARAMS), "")
      && DecodeErrCmd(CANCELED_PARAMS) == Some(Error(5, 99, "pinentry", "operation canceled"))
  {
    var s, env := w.s.(cmdArgs := params), if w.envs == [] then P.NO_ENV else w.envs[0];
    hide *;
    GetPinReply(program, w, params);
    PinResult(s, w.vault, env);
    PinStatusesFit(s, w.vault, env);
    CanceledText();
    CanceledDecodes();
    var statuses := P.GetPin(s, w.vault, env).statuses;
    CancelRead(statuses, tail);
    CancelQual(statuses, quality);
  }

  lemma CanceledParses()
    ensures var line := "ERR " + CANCELED_PARAMS;
      Fits(line, MAX_LINE_LEN) && Parse(line) == Parsed(Message("ERR", CANCELED_PARAMS))
  {
    var e := P.PinError(CANCELED, "operation canceled");
    CanceledText();
    CanceledPlain();
    PinFields(CANCELED, "operation canceled");
    CanceledShort();
    CanceledNumber();
    hide *;
    ErrLine(e);
    CanceledMessage();
    FinalLine(ErrorMessage(e));
    ReadsOne(LineOf(ErrorMessage(e)), Parsed(ErrorMessage(e)));
  }

  lemma CanceledMessage()
    ensures ErrorMessage(P.PinError(CANCELED, "operation canceled")) == Message("ERR", CANCELED_PARAMS)
    ensures |LineOf(ErrorMessage(P.PinError(CANCELED, "operation canceled")))| + 1 <= MAX_LINE_LEN
  {
    CanceledText();
    hide P.PinError, ErrorParams;
    LineLength(Message("ERR", CANCELED_PARAMS));
    EscapablesBound(CANCELED_PARAMS);
  }

  lemma ReadsOne(line: string, x: Parsed)
    requires Reads([line], [x])
    ensures Fits(line, MAX_LINE_LEN) && Parse(line) == x
  {
    assert Readable([line][0]) && ParseAll([line])[0] == x;
  }

  lemma ErrBytes(line: string, tail: string)
    ensures Bytes([line]) + tail == line + "\n" + tail && Bytes([line]) == line + "\n" + ""
  {
    assert [line][1..] == [];
    assert line + "\n" + "" == line + "\n";
  }

  lemma CancelRead(statuses: seq<string>, tail: string)
    requires StatusesFit(statuses)
    ensures ReadAnswer(Bytes(StatusLines(statuses) + ["ERR " + CANCELED_PARAMS]) + tail, "", true)
         == (ErrorReply(CANCELED_PARAMS), tail)
  {
    hide *;
    var line := "ERR " + CANCELED_PARAMS;
    StatusLinesSkipped(statuses);
    CanceledParses();
    ErrBytes(line, tail);
    BytesAppend(StatusLines(statuses), [line]);
    Associative(Bytes(StatusLines(statuses)), Bytes([line]), tail);
    AnswerSkips(StatusLines(statuses), Bytes([line]) + tail, "", true);
    AnswerStep(line, tail, "", true);
    ErrConcludes();
  }

  lemma ErrConcludes()
    ensures var m := Message("ERR", CANCELED_PARAMS);
      Transfer.Final(m) && Conclude("", m) == ErrorReply(CANCELED_PARAMS)
  {
  }

  lemma CancelQual(statuses: seq<string>, quality: Option<Quality>)
    requires StatusesFit(statuses)
    ensures QualLoop(Bytes(StatusLines(statuses) + ["ERR " + CANCELED_PARAMS]), quality, true)
         == QualRun([], ServerError(CANCELED_PARAMS), "")
  {
    hide *;
    var line := "ERR " + CANCELED_PARAMS;
    QualSkipsStatuses(statuses, [line], quality, true);
    CanceledParses();
    ErrBytes(line, "");
    ReadOneLine(line, "", true, MAX_LINE_LEN);
    QualErr(Bytes([line]), CANCELED_PARAMS, "", quality, true);
  }

  // ---- GETINFO ----

  lemma OneBlock(text: string)
    requires PlainText(text) && 0 < |text| <= 100
    ensures DataLines(text) == ["D " + text]
  {
    NothingToEscape(text);
    ShortIsOneLine(text);
    hide EscapeParameters, DataLines;
  }

  lemma InfoTexts()
    ensures PlainText("PinGO (w32)") && PlainText("-1") && PlainText("- - -")
    ensures "D " + "PinGO (w32)" == "D PinGO (w32)" && "D " + "-1" == "D -1" && "D " + "- - -" == "D - - -"
  {
  }

  /** A handler that returns one block of data. */
  lemma SendsBlock(program: P.Program, w: P.World, cmd: string, params: string, bytes: string)
    requires cmd in P.Commands() && P.Run(program, cmd, w, params) == Handled(w, [Block(bytes)], Fine)
    ensures ReplyTo(program, w, cmd, params) == Reply(DataLines(bytes) + ["OK"], Session(program, w), true)
  {
    RunsHandler(program, w, cmd, params);
    hide P.Run, P.PinHandlers, ReplyTo, WriteSeq, DataLines, P.Commands;
    OkWritten();
    assert [Block(bytes)][1..] == [] && DataLines(bytes) + [] == DataLines(bytes);
    assert EmitLines([]) == [] && EmitLines([Block(bytes)]) == DataLines(bytes);
  }

  lemma InfoRuns(program: P.Program, w: P.World, params: string)
    ensures "GETINFO" in P.Commands()
    ensures var what, run := P.TrimBlanks(params), P.Run(program, "GETINFO", w, params);
      && (what == "flavor" ==> run == Handled(w, [Block("PinGO (w32)")], Fine))
      && (what == "pid" ==> run == Handled(w, [Block("-1")], Fine))
      && (what == "ttyinfo" ==> run == Handled(w, [Block("- - -")], Fine))
      && (what == "version" ==>
            run == Handled(w, if program.version == "" then [] else [Block(program.version)], Fine))
      && (what !in ["flavor", "pid", "ttyinfo", "version"] ==>
            run == Handled(w, [], Rejected(P.PinError(ASS_PARAMETER, "GETINFO unknown parameter value: " + params))))
  {
    hide P.TrimBlanks;
  }

  lemma NoVersion()
    ensures DataLines("") == [] && [] + ["OK"] == ["OK"]
  {
  }

  /** GETINFO, by its trimmed parameter. */
  lemma InfoReply(program: P.Program, w: P.World, params: string)
    requires PlainText(params) && |params| <= 60
    ensures var what, r := P.TrimBlanks(params), ReplyTo(program, w, "GETINFO", params);
      && r.alive && r.srv == Session(program, w)
      && r.lines == (if what == "flavor" then ["D PinGO (w32)", "OK"]
                     else if what == "pid" then ["D -1", "OK"]
                     else if what == "ttyinfo" then ["D - - -", "OK"]
                     else if what == "version" then DataLines(program.version) + ["OK"]
                     else [ErrText(83886360, "GETINFO unknown parameter value: " + params, "pinentry")])
  {
    var what := P.TrimBlanks(params);
    hide *;
    InfoRuns(program, w, params);
    InfoTexts();
    OneBlock("PinGO (w32)");
    OneBlock("-1");
    OneBlock("- - -");
    NoVersion();
    if what == "flavor" {
      SendsBlock(program, w, "GETINFO", params, "PinGO (w32)");
    } else if what == "pid" {
      SendsBlock(program, w, "GETINFO", params, "-1");
    } else if what == "ttyinfo" {
      SendsBlock(program, w, "GETINFO", params, "- - -");
    } else if what == "version" && program.version == "" {
      Silent(program, w, "GETINFO", params);
    } else if what == "version" {
      SendsBlock(program, w, "GETINFO", params, program.version);
    } else {
      AssParameterNumber();
      InfoPlain(params);
      Refused(program, w, "GETINFO", params, ASS_PARAMETER, "GETINFO unknown parameter value: " + params, 83886360);
    }
  }

  lemma InfoPlain(params: string)
    requires PlainText(params) && |params| <= 60
    ensures PlainText("GETINFO unknown parameter value: " + params)
    ensures |"GETINFO unknown parameter value: " + params| <= 100
  {
    InfoPrefix();
    hide *;
    PlainAppend("GETINFO unknown parameter value: ", params);
  }

  lemma InfoPrefix()
    ensures PlainText("GETINFO unknown parameter value: ") && |"GETINFO unknown parameter value: "| <= 40
  {
  }

  lemma PlainAppend(a: string, b: string)
    requires PlainText(a) && PlainText(b)
    ensures PlainText(a + b)
  {
  }

  // ---- OPTION ----

  /** What each option sets; the value of the two about grabbing, and of the one about
      caching, is not looked at. */
  function OptionBy(key: string, o: P.Options, val: string): Option<P.Options> {
    match key
    case "grab" => Some(o.(grab := true))
    case "no-grab" => Some(o.(grab := false))
    case "allow-external-password-cache" => Some(o.(allowExtPasswdCache := true))
    case "ttyname" => Some(o.(ttyName := val))
    case "ttytype" => Some(o.(ttyType := val))
    case "ttyalert" => Some(o.(ttyAlert := val))
    case "lc-ctype" => Some(o.(lcCtype := val))
    case "lc-messages" => Some(o.(lcMessages := val))
    case "owner" => Some(o.(owner := val))
    case "touch-file" => Some(o.(touchFile := val))
    case "parent-wid" => Some(o.(parentWID := val))
    case "invisible-char" => Some(o.(invisibleChar := val))
    case _ => if |key| >= 8 && key[..8] == "default-" then Some(o) else None
  }

  lemma OptionSets(w: P.World, key: string, val: string)
    ensures P.SetOpt(w, key, val)
         == match OptionBy(key, w.s.opts, val)
            case Some(o) => (w.(s := w.s.(opts := o)), Fine)
            case None => (w, Rejected(P.PinError(UNKNOWN_OPTION, "unknown option: " + key)))
  {
    assert w.(s := w.s.(opts := w.s.opts)) == w;
    assert "default-" <= key <==> |key| >= 8 && key[..8] == "default-";
  }

  /** OPTION with a known key sets that option and nothing else, and is answered OK. With an
      unknown key it changes nothing and is answered with an error and with OK. */
  lemma OptionReply(program: P.Program, w: P.World, key: string, val: string)
    requires key != "" && |key| <= 800 && (forall c :: c in key ==> KeyChar(c)) && '\n' !in val
    ensures ReplyTo(program, w, "OPTION", key + "=" + val)
         == match OptionBy(key, w.s.opts, val)
            case Some(o) => Reply(["OK"], Session(program, w.(s := w.s.(opts := o))), true)
            case None =>
              Reply([ErrText(83886254, "unknown option: " + key, "pinentry"), "OK"], Session(program, w), true)
  {
    hide *;
    SplitOptionIff(key + "=" + val, key, val);
    OptionReplies(P.PinProto(), Session(program, w), key + "=" + val, []);
    OptionSets(w, key, val);
    OptionState(program, w, key, val);
    UnknownPlainKey(key);
    UnknownOptionNumber();
    PinFields(UNKNOWN_OPTION, "unknown option: " + key);
    ErrLine(P.PinError(UNKNOWN_OPTION, "unknown option: " + key));
  }

  lemma UnknownOptionNumber()
    ensures MakeErrCode(SRC_PINENTRY, UNKNOWN_OPTION) as int == 83886254
  {
  }

  lemma UnknownPlainKey(key: string)
    requires |key| <= 800 && forall c :: c in key ==> KeyChar(c)
    ensures PlainText("unknown option: " + key) && |"unknown option: " + key| + |"pinentry"| <= 900
  {
    assert PlainText("unknown option: ") && PlainText(key);
    hide *;
    PlainAppend("unknown option: ", key);
  }

  lemma OptionState(program: P.Program, w: P.World, key: string, val: string)
    ensures ReplyTo(program, w, "OPTION", key + "=" + val)
         == Handle(P.PinProto(), Session(program, w), Message("OPTION", key + "=" + val), [])
    ensures P.PinProto().setOption.Some? && P.PinProto().setOption.value(w, key, val) == P.SetOpt(w, key, val)
    ensures Session(program, w).state == w && forall t :: Session(program, w).(state := t) == Session(program, t)
  {
  }
}
