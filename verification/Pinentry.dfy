/**
 The pinentry session (pinentry/server.go, cmd/pinentry/main.go): the settings the
 client's commands change, the credential vault, and GETPIN's prompt, repeat and cache.

 Dialogs and the vault are abstract. Every command that uses one of them takes the next
 element of a stream of `Env` values: which vault calls fail, what the user answers.
 */
module Pinentry {
  import opened Basics
  import opened Errors
  import opened Server
  import opened Wire

  datatype Options = Options(
    grab: bool, allowExtPasswdCache: bool, display: string,
    ttyType: string, ttyName: string, ttyAlert: string, lcCtype: string, lcMessages: string,
    owner: string, touchFile: string, parentWID: string, invisibleChar: string)

  datatype Settings = Settings(
    cmdArgs: string, desc: string, prompt: string, error: string,
    okBtn: string, notOkBtn: string, cancelBtn: string, title: string, timeout: int,
    repeatPrompt: string, repeatError: string, qualityBar: string, qualityBarToolTip: string,
    genPINLabel: string, genPINToolTip: string, keyInfo: string, opts: Options)

  /** One answer to a password dialog. */
  datatype DialogAnswer = DialogAnswer(cancel: bool, passwd: string, remember: bool)

  datatype Env = Env(readFails: bool, writeFails: bool, deleteFails: bool, answers: seq<DialogAnswer>, confirmed: bool)

  const NO_ENV := Env(false, false, false, [], false)

  /** Passwords by credential name. */
  type Vault = map<string, string>

  datatype World = World(s: Settings, vault: Vault, envs: seq<Env>)

  function CredentialName(key: string): string { "GnuPG:PinGO=" + key }

  function PinError(code: bv16, message: string): Error { Error(SRC_PINENTRY, code, "pinentry", message) }

  function NextEnv(w: World): Env { if w.envs == [] then NO_ENV else w.envs[0] }

  function LaterEnvs(w: World): seq<Env> { if w.envs == [] then [] else w.envs[1..] }

  // ---- GETPIN ----

  /** A dialog as it is shown. */
  datatype Dialog = Dialog(error: string, desc: string, prompt: string, checkbox: bool)

  /** `Open`: the dialog is still waiting for the user. */
  datatype PinResult = Pin(passwd: string) | PinCanceled | Open

  /** The prompting part: result, "remember" of the last first dialog, statuses sent,
      dialogs shown. */
  datatype Asked = Asked(result: PinResult, remember: bool, statuses: seq<string>, shown: seq<Dialog>)

  function PrepErrMsg(attempt: nat, s: Settings): string {
    if attempt == 0 then s.error
    else if s.repeatError != "" then s.repeatError
    else "Does not match - try again"
  }

  /** Caching is allowed and there is a key to cache under. */
  predicate MayCache(s: Settings) { s.opts.allowExtPasswdCache && s.keyInfo != "" }

  predicate TriesCache(s: Settings) { s.error == "" && s.repeatPrompt == "" && MayCache(s) }

  function FirstDialog(s: Settings, attempt: nat): Dialog {
    Dialog(PrepErrMsg(attempt, s), s.desc, s.prompt, MayCache(s))
  }

  function RepeatDialog(s: Settings): Dialog { Dialog("", s.desc, s.repeatPrompt, false) }

  function ShowFirst(dialogs: seq<Dialog>, a: Asked): Asked { a.(shown := dialogs + a.shown) }

  function Ask(s: Settings, attempt: nat, answers: seq<DialogAnswer>): Asked
    decreases |answers|
  {
    var first := [FirstDialog(s, attempt)];
    var both := first + [RepeatDialog(s)];
    if answers == [] then Asked(Open, false, [], first)
    else if answers[0].cancel then Asked(PinCanceled, answers[0].remember, [], first)
    else if s.repeatPrompt == "" then Asked(Pin(answers[0].passwd), answers[0].remember, [], first)
    else if |answers| == 1 then Asked(Open, answers[0].remember, [], both)
    else if answers[1].cancel then Asked(PinCanceled, answers[0].remember, [], both)
    else if answers[0].passwd == answers[1].passwd then
      Asked(Pin(answers[0].passwd), answers[0].remember, ["PIN_REPEATED"], both)
    else ShowFirst(both, Ask(s, attempt + 1, answers[2..]))
  }

  /** All GETPIN does: `saved` is the password written to the vault under KeyInfo. */
  datatype PinRun = PinRun(
    result: PinResult, statuses: seq<string>, shown: seq<Dialog>, s: Settings, saved: Option<string>)

  function AskAndSave(s: Settings, statuses: seq<string>, env: Env): PinRun {
    var a := Ask(s, 0, env.answers);
    var save := a.result.Pin? && MayCache(s) && a.remember && a.result.passwd != "" && !env.writeFails;
    PinRun(a.result, statuses + a.statuses, a.shown, s, if save then Some(a.result.passwd) else None)
  }

  function GetPin(s: Settings, vault: Vault, env: Env): PinRun {
    if !TriesCache(s) then AskAndSave(s, [], env)
    else if env.readFails then AskAndSave(s.(opts := s.opts.(allowExtPasswdCache := false)), [], env)
    else if CredentialName(s.keyInfo) !in vault then AskAndSave(s, [], env)
    else if vault[CredentialName(s.keyInfo)] != "" then
      PinRun(Pin(vault[CredentialName(s.keyInfo)]), ["PASSWORD_FROM_CACHE"], [], s, None)
    else AskAndSave(s, ["PASSWORD_FROM_CACHE"], env)
  }

  function Store(vault: Vault, key: string, saved: Option<string>): Vault {
    if saved.Some? then vault[CredentialName(key) := saved.value] else vault
  }

  function Statuses(texts: seq<string>): seq<Emit> {
    seq(|texts|, i requires 0 <= i < |texts| => Status(texts[i]))
  }

  function GetPinHandler(w: World, params: string): Handled<World> {
    var s := w.s.(cmdArgs := params);
    var r := GetPin(s, w.vault, NextEnv(w));
    var after := World(r.s, Store(w.vault, s.keyInfo, r.saved), LaterEnvs(w));
    match r.result
    case Pin(passwd) => Handled(after, Statuses(r.statuses) + [Block(passwd)], Fine)
    case PinCanceled => Handled(after, Statuses(r.statuses), Rejected(PinError(CANCELED, "operation canceled")))
    case Open => Handled(after, Statuses(r.statuses), Fatal)  // the session waits for the user for good
  }

  function ConfirmHandler(w: World, params: string): Handled<World> {
    var after := World(w.s.(cmdArgs := params), w.vault, LaterEnvs(w));
    Handled(after, [], if NextEnv(w).confirmed then Fine else Rejected(PinError(CANCELED, "operation canceled")))
  }

  // ---- the other commands ----

  function TrimBlanksLeft(text: string): string {
    if text != "" && text[0] == ' ' then TrimBlanksLeft(text[1..]) else text
  }

  function TrimBlanksRight(text: string): string {
    if text != "" && text[|text| - 1] == ' ' then TrimBlanksRight(text[..|text| - 1]) else text
  }

  /** strings.Trim(text, " "). */
  function TrimBlanks(text: string): string { TrimBlanksRight(TrimBlanksLeft(text)) }

  /** The key a CLEARPASSPHRASE removes, if it removes one. */
  function Removes(w: World, params: string): Option<string> {
    var env, key := NextEnv(w), TrimBlanks(params);
    if !env.readFails && CredentialName(key) in w.vault && !env.deleteFails then Some(key) else None
  }

  function ClearHandler(w: World, params: string): Handled<World> {
    var env, name := NextEnv(w), CredentialName(TrimBlanks(params));
    var after := w.(envs := LaterEnvs(w));
    if env.readFails then
      Handled(after, [], Rejected(PinError(ASS_GENERAL, "CLEARPASSPHRASE cannot access vault")))
    else if name !in w.vault then Handled(after, [], Fine)
    else if env.deleteFails then
      Handled(after, [], Rejected(PinError(ASS_INV_VALUE, "CLEARPASSPHRASE cannot delete credential")))
    else Handled(after.(vault := w.vault - {name}), [], Fine)
  }

  function SetKeyInfo(s: Settings, params: string): Settings {
    s.(keyInfo := if params == "" || params == "--clear" then "" else params)
  }

  /** strconv.Atoi: an optional sign and digits, within 64 bits. */
  function Atoi(text: string): Option<int> {
    var signed := text != "" && (text[0] == '-' || text[0] == '+');
    var digits := if signed then text[1..] else text;
    if digits == "" || DigitSpan(digits) < |digits| then None
    else
      assert forall c :: c in digits ==> IsDigit(c);
      var n: int := ParseDigits(digits);
      var value := if signed && text[0] == '-' then -n else n;
      if -0x8000_0000_0000_0000 <= value < 0x8000_0000_0000_0000 then Some(value) else None
  }

  /** A Go Duration is a 64-bit count of nanoseconds; the product wraps around. */
  function Seconds(n: int): int {
    var wrapped := (n * 1_000_000_000) % 0x1_0000_0000_0000_0000;
    if wrapped < 0x8000_0000_0000_0000 then wrapped else wrapped - 0x1_0000_0000_0000_0000
  }

  function TimeoutHandler(w: World, params: string): Handled<World> {
    match Atoi(params)
    case None => Handled(w, [], Rejected(PinError(ASS_INV_VALUE, "invalid timeout value")))
    case Some(n) => Handled(w.(s := w.s.(timeout := Seconds(n))), [], Fine)
  }

  function InfoHandler(version: string, w: World, params: string): Handled<World> {
    var what := TrimBlanks(params);
    if what == "flavor" then Handled(w, [Block("PinGO (w32)")], Fine)
    else if what == "version" then Handled(w, if version == "" then [] else [Block(version)], Fine)
    else if what == "pid" then Handled(w, [Block("-1")], Fine)
    else if what == "ttyinfo" then Handled(w, [Block("- - -")], Fine)
    else Handled(w, [], Rejected(PinError(ASS_PARAMETER, "GETINFO unknown parameter value: " + params)))
  }

  function SetOpt(w: World, key: string, val: string): (World, Verdict) {
    var o := w.s.opts;
    if key == "no-grab" then (WithOpts(w, o.(grab := false)), Fine)
    else if key == "grab" then (WithOpts(w, o.(grab := true)), Fine)
    else if key == "ttytype" then (WithOpts(w, o.(ttyType := val)), Fine)
    else if key == "ttyname" then (WithOpts(w, o.(ttyName := val)), Fine)
    else if key == "ttyalert" then (WithOpts(w, o.(ttyAlert := val)), Fine)
    else if key == "lc-ctype" then (WithOpts(w, o.(lcCtype := val)), Fine)
    else if key == "lc-messages" then (WithOpts(w, o.(lcMessages := val)), Fine)
    else if key == "owner" then (WithOpts(w, o.(owner := val)), Fine)
    else if key == "touch-file" then (WithOpts(w, o.(touchFile := val)), Fine)
    else if key == "parent-wid" then (WithOpts(w, o.(parentWID := val)), Fine)
    else if key == "invisible-char" then (WithOpts(w, o.(invisibleChar := val)), Fine)
    else if key == ALLOW_CACHE then (WithOpts(w, o.(allowExtPasswdCache := true)), Fine)
    else if "default-" <= key then (w, Fine)
    else (w, Rejected(PinError(UNKNOWN_OPTION, "unknown option: " + key)))
  }

  const ALLOW_CACHE := "allow-external-password-cache"

  function WithOpts(w: World, o: Options): World { w.(s := w.s.(opts := o)) }

  /** The setters that store their parameter. */
  function Setter(name: string, s: Settings, p: string): Option<Settings> {
    if name == "SETDESC" then Some(s.(desc := p))
    else if name == "SETPROMPT" then Some(s.(prompt := p))
    else if name == "SETREPEAT" then Some(s.(repeatPrompt := p))
    else if name == "SETREPEATERROR" then Some(s.(repeatError := p))
    else if name == "SETERROR" then Some(s.(error := p))
    else if name == "SETOK" then Some(s.(okBtn := p))
    else if name == "SETNOTOK" then Some(s.(notOkBtn := p))
    else if name == "SETCANCEL" then Some(s.(cancelBtn := p))
    else if name == "SETQUALITYBAR" then Some(s.(qualityBar := p))
    else if name == "SETQUALITYBAR_TT" then Some(s.(qualityBarToolTip := p))
    else if name == "SETGENPIN" then Some(s.(genPINLabel := p))
    else if name == "SETGENPIN_TT" then Some(s.(genPINToolTip := p))
    else if name == "SETTITLE" then Some(s.(title := p))
    else None
  }

  /** The program: its version and the settings it starts and resets to. */
  datatype Program = Program(version: string, defaults: Settings)

  function Commands(): set<string> {
    {"SETDESC", "SETPROMPT", "SETREPEAT", "SETREPEATERROR", "SETERROR", "SETOK", "SETNOTOK", "SETCANCEL",
     "SETQUALITYBAR", "SETQUALITYBAR_TT", "SETGENPIN", "SETGENPIN_TT", "SETTITLE", "SETTIMEOUT",
     "CLEARPASSPHRASE", "GETINFO", "SETKEYINFO", "RESET", "GETPIN", "CONFIRM"}
  }

  function Run(program: Program, name: string, w: World, params: string): Handled<World> {
    if name == "SETTIMEOUT" then TimeoutHandler(w, params)
    else if name == "CLEARPASSPHRASE" then ClearHandler(w, params)
    else if name == "GETINFO" then InfoHandler(program.version, w, params)
    else if name == "SETKEYINFO" then Handled(w.(s := SetKeyInfo(w.s, params)), [], Fine)
    else if name == "RESET" then Handled(w.(s := program.defaults), [], Fine)
    else if name == "GETPIN" then GetPinHandler(w, params)
    else if name == "CONFIRM" then ConfirmHandler(w, params)
    else
      var s := Setter(name, w.s, params);
      Handled(if s.Some? then w.(s := s.value) else w, [], Fine)
  }

  /** The protocol definition, MESSAGE left out. */
  function PinProto(): Proto<World> {
    Proto("PinGO (w32)", map[], Some((w: World, key: string, val: string) => SetOpt(w, key, val)))
  }

  function PinHandlers(program: Program): map<string, Handler<World>> {
    map name | name in Commands() :: (w: World, params: string) => Run(program, name, w, params)
  }

  /** The world after one command. */
  function Apply(program: Program, w: World, m: Message): World {
    if m.cmd == "OPTION" then
      match SplitOption(m.params)
      case None => w
      case Some((key, val)) => SetOpt(w, key, val).0
    else if m.cmd in Commands() then Run(program, m.cmd, w, m.params).state
    else w
  }

  /** The world changes as the command loop of the server changes it. */
  lemma ApplyIsHandle(program: Program, w: World, m: Message, order: seq<string>)
    ensures var srv := Srv(Some(PinHandlers(program)), w);
      Handle(PinProto(), srv, m, order).srv == srv.(state := Apply(program, w, m))
  {
  }

  // ---- the handlers as the program has them: fields changed in place ----

  class Session {
    var s: Settings
    var vault: Vault
    var envs: seq<Env>

    function Value(): World
      reads this
    {
      World(s, vault, envs)
    }

    constructor (w: World)
      ensures Value() == w
    {
      s, vault, envs := w.s, w.vault, w.envs;
    }

    method TakeEnv() returns (env: Env)
      modifies this`envs
      ensures env == NextEnv(old(Value())) && envs == LaterEnvs(old(Value()))
    {
      env := NO_ENV;
      if envs != [] {
        env, envs := envs[0], envs[1..];
      }
    }

    /** getCachedCredential: an unreadable vault turns caching off. */
    method GetCachedCredential(env: Env) returns (passwd: string, statuses: seq<string>)
      modifies this`s
      ensures env.readFails ==>
        passwd == "" && statuses == [] && s == old(s).(opts := old(s).opts.(allowExtPasswdCache := false))
      ensures !env.readFails ==> s == old(s)
      ensures !env.readFails && CredentialName(s.keyInfo) in vault ==>
        passwd == vault[CredentialName(s.keyInfo)] && statuses == ["PASSWORD_FROM_CACHE"]
      ensures !env.readFails && CredentialName(s.keyInfo) !in vault ==> passwd == "" && statuses == []
    {
      if env.readFails {
        s := s.(opts := s.opts.(allowExtPasswdCache := false));
        return "", [];
      }
      if CredentialName(s.keyInfo) !in vault {
        return "", [];
      }
      return vault[CredentialName(s.keyInfo)], ["PASSWORD_FROM_CACHE"];
    }

    /** The attempts of GetPIN. */
    method PromptUser(answers: seq<DialogAnswer>) returns (a: Asked)
      ensures a == Ask(s, 0, answers)
    {
      var attempt, left := 0, answers;
      var shown: seq<Dialog> := [];
      while true
        invariant Ask(s, 0, answers) == ShowFirst(shown, Ask(s, attempt, left))
        decreases |left|
      {
        ghost var before := shown;
        shown := shown + [FirstDialog(s, attempt)];
        if left == [] {
          return Asked(Open, false, [], shown);
        }
        var passwd1, cachePasswd := left[0].passwd, left[0].remember;
        if left[0].cancel {
          return Asked(PinCanceled, cachePasswd, [], shown);
        }
        if s.repeatPrompt == "" {
          return Asked(Pin(passwd1), cachePasswd, [], shown);
        }
        shown := shown + [RepeatDialog(s)];
        assert shown == before + ([FirstDialog(s, attempt)] + [RepeatDialog(s)]);
        if |left| == 1 {
          return Asked(Open, cachePasswd, [], shown);
        }
        if left[1].cancel {
          return Asked(PinCanceled, cachePasswd, [], shown);
        }
        if passwd1 == left[1].passwd {
          return Asked(Pin(passwd1), cachePasswd, ["PIN_REPEATED"], shown);
        }
        Associative(before, [FirstDialog(s, attempt)] + [RepeatDialog(s)], Ask(s, attempt + 1, left[2..]).shown);
        attempt, left := attempt + 1, left[2..];
      }
    }

    /** GetPIN of cmd/pinentry: cache, prompts, and the password saved for later. */
    method GetPIN(env: Env) returns (result: PinResult, statuses: seq<string>, shown: seq<Dialog>)
      modifies this`s, this`vault
      ensures var r := GetPin(old(s), old(vault), env);
        && result == r.result && statuses == r.statuses && shown == r.shown
        && s == r.s && vault == Store(old(vault), old(s).keyInfo, r.saved)
    {
      statuses := [];
      if s.error == "" && s.repeatPrompt == "" && s.opts.allowExtPasswdCache && s.keyInfo != "" {
        var passwd;
        passwd, statuses := GetCachedCredential(env);
        if passwd != "" {
          return Pin(passwd), statuses, [];
        }
      }
      var a := PromptUser(env.answers);
      result, shown, statuses := a.result, a.shown, statuses + a.statuses;
      if result.Pin? && s.opts.allowExtPasswdCache && s.keyInfo != "" && a.remember && result.passwd != "" {
        if !env.writeFails {
          vault := vault[CredentialName(s.keyInfo) := result.passwd];
        }
      }
    }

    /** The GETPIN handler. */
    method GetPinCommand(params: string) returns (emits: seq<Emit>, verdict: Verdict)
      modifies this
      ensures GetPinHandler(old(Value()), params) == Handled(Value(), emits, verdict)
    {
      s := s.(cmdArgs := params);
      var env := TakeEnv();
      var result, statuses, shown := GetPIN(env);
      emits := Statuses(statuses);
      match result
      case Pin(passwd) => emits, verdict := emits + [Block(passwd)], Fine;
      case PinCanceled => verdict := Rejected(PinError(CANCELED, "operation canceled"));
      case Open => verdict := Fatal;
    }

    method ClearPassphrase(params: string) returns (verdict: Verdict)
      modifies this
      ensures ClearHandler(old(Value()), params) == Handled(Value(), [], verdict)
    {
      var env := TakeEnv();
      var name := CredentialName(TrimBlanks(params));
      if env.readFails {
        return Rejected(PinError(ASS_GENERAL, "CLEARPASSPHRASE cannot access vault"));
      }
      if name in vault {
        if env.deleteFails {
          return Rejected(PinError(ASS_INV_VALUE, "CLEARPASSPHRASE cannot delete credential"));
        }
        vault := vault - {name};
      }
      return Fine;
    }

    /** The other handlers of the command table. */
    method Command(program: Program, name: string, params: string) returns (emits: seq<Emit>, verdict: Verdict)
      modifies this
      ensures Run(program, name, old(Value()), params) == Handled(Value(), emits, verdict)
    {
      emits, verdict := [], Fine;
      if name == "GETPIN" {
        emits, verdict := GetPinCommand(params);
      } else if name == "CLEARPASSPHRASE" {
        verdict := ClearPassphrase(params);
      } else if name == "CONFIRM" {
        s := s.(cmdArgs := params);
        var env := TakeEnv();
        verdict := if env.confirmed then Fine else Rejected(PinError(CANCELED, "operation canceled"));
      } else if name == "SETKEYINFO" {
        s := s.(keyInfo := if params == "" || params == "--clear" then "" else params);
      } else if name == "RESET" {
        s := program.defaults;
      } else if name == "SETTIMEOUT" {
        var n := Atoi(params);
        if n.None? {
          verdict := Rejected(PinError(ASS_INV_VALUE, "invalid timeout value"));
        } else {
          s := s.(timeout := Seconds(n.value));
        }
      } else if name == "GETINFO" {
        var h := InfoHandler(program.version, Value(), params);
        emits, verdict := h.emits, h.verdict;
      } else {
        var t := Setter(name, s, params);
        if t.Some? {
          s := t.value;
        }
      }
    }
  }
}

/** What the pinentry session keeps over whole command histories. */
module PinentryHistory {
  import opened Basics
  import opened Pinentry
  import opened Server
  import opened Wire

  // ---- GETPIN with a repeat prompt ----

  /** The answers to attempt `n`: both given, nothing canceled. */
  predicate Given(answers: seq<DialogAnswer>, n: nat) {
    2 * n + 1 < |answers| && !answers[2 * n].cancel && !answers[2 * n + 1].cancel
  }

  predicate Differ(answers: seq<DialogAnswer>, n: nat) {
    Given(answers, n) && answers[2 * n].passwd != answers[2 * n + 1].passwd
  }

  /** Attempt `n` is the first in which both dialogs got the same password. */
  ghost predicate Settled(answers: seq<DialogAnswer>, n: nat) {
    && (forall j: nat :: j < n ==> Differ(answers, j))
    && Given(answers, n) && answers[2 * n].passwd == answers[2 * n + 1].passwd
  }

  /** The user cancels in attempt `n`, after attempts that did not match. */
  ghost predicate CanceledIn(answers: seq<DialogAnswer>, n: nat) {
    && (forall j: nat :: j < n ==> Differ(answers, j))
    && 2 * n < |answers|
    && (answers[2 * n].cancel || (2 * n + 1 < |answers| && answers[2 * n + 1].cancel))
  }

  /** The k-th dialog of a GETPIN that starts at some attempt. */
  function DialogAt(s: Settings, attempt: nat, k: nat): Dialog {
    if k % 2 == 0 then FirstDialog(s, attempt + k / 2) else RepeatDialog(s)
  }

  lemma LaterAnswers(answers: seq<DialogAnswer>, j: nat)
    requires |answers| >= 2
    ensures Given(answers[2..], j) == Given(answers, j + 1)
    ensures Differ(answers[2..], j) == Differ(answers, j + 1)
  {
  }

  lemma LaterEnds(answers: seq<DialogAnswer>, n: nat)
    requires Differ(answers, 0)
    ensures (forall j: nat :: j < n ==> Differ(answers[2..], j)) ==> forall j: nat :: j < n + 1 ==> Differ(answers, j)
    ensures Settled(answers[2..], n) == Settled(answers, n + 1)
    ensures CanceledIn(answers[2..], n) == CanceledIn(answers, n + 1)
  {
    var later := answers[2..];
    forall j: nat ensures Differ(later, j) == Differ(answers, j + 1) {
      LaterAnswers(answers, j);
    }
    LaterAnswers(answers, n);
    assert (forall j: nat :: j < n ==> Differ(later, j)) <==> forall j: nat :: j < n + 1 ==> Differ(answers, j) by {
      if forall j: nat :: j < n + 1 ==> Differ(answers, j) {
        forall j: nat | j < n ensures Differ(later, j) { assert Differ(answers, j + 1); }
      }
      if forall j: nat :: j < n ==> Differ(later, j) {
        forall j: nat | j < n + 1 ensures Differ(answers, j) { assert j > 0 ==> Differ(later, j - 1); }
      }
    }
  }

  /** What comes of attempts that end in attempt `n`: a password, a cancellation, or a dialog
      that is still open. */
  ghost predicate EndsIn(a: Asked, answers: seq<DialogAnswer>, n: nat) {
    if Settled(answers, n) then
      && a.result == Pin(answers[2 * n].passwd) && a.remember == answers[2 * n].remember
      && a.statuses == ["PIN_REPEATED"] && |a.shown| == 2 * n + 2
    else if CanceledIn(answers, n) then
      && a.result == PinCanceled && a.statuses == []
      && |a.shown| == (if answers[2 * n].cancel then 2 * n + 1 else 2 * n + 2)
    else
      a.result == Open && a.statuses == [] && |answers| < 2 * n + 2 && |a.shown| == |answers| + 1
  }

  lemma EndsAtOnce(s: Settings, attempt: nat, answers: seq<DialogAnswer>)
    requires s.repeatPrompt != "" && (|answers| < 2 || !Differ(answers, 0))
    ensures EndsIn(Ask(s, attempt, answers), answers, 0)
  {
  }

  lemma EndsLater(first: Dialog, second: Dialog, a: Asked, answers: seq<DialogAnswer>, n: nat)
    requires |answers| >= 2 && Differ(answers, 0) && EndsIn(a, answers[2..], n)
    ensures EndsIn(ShowFirst([first] + [second], a), answers, n + 1)
  {
    LaterEnds(answers, n);
    hide Differ;
    assert 2 * n < |answers[2..]| ==> answers[2..][2 * n] == answers[2 * (n + 1)];
  }

  /** How the attempts end: in attempt `n`, all before it having failed to match. */
  lemma {:induction false} RepeatEnds(s: Settings, attempt: nat, answers: seq<DialogAnswer>) returns (n: nat)
    requires s.repeatPrompt != ""
    ensures forall j: nat :: j < n ==> Differ(answers, j)
    ensures EndsIn(Ask(s, attempt, answers), answers, n)
    decreases |answers|
  {
    if |answers| < 2 || !Differ(answers, 0) {
      n := 0;
      EndsAtOnce(s, attempt, answers);
    } else {
      MismatchAsksAgain(s, attempt, answers);
      hide *;
      var later := RepeatEnds(s, attempt + 1, answers[2..]);
      n := later + 1;
      LaterEnds(answers, later);
      EndsLater(FirstDialog(s, attempt), RepeatDialog(s), Ask(s, attempt + 1, answers[2..]), answers, later);
    }
  }

  /** The dialogs of a GETPIN with a repeat prompt alternate: the first of an attempt tells
      the mismatch of the attempt before, the second never offers to save. */
  lemma {:induction false} DialogsAlternate(s: Settings, attempt: nat, answers: seq<DialogAnswer>, k: nat)
    requires s.repeatPrompt != "" && k < |Ask(s, attempt, answers).shown|
    ensures Ask(s, attempt, answers).shown[k] == DialogAt(s, attempt, k)
    decreases |answers|
  {
    if |answers| >= 2 && Differ(answers, 0) && k >= 2 {
      MismatchAsksAgain(s, attempt, answers);
      hide Ask;
      DialogsAlternate(s, attempt + 1, answers[2..], k - 2);
      DialogLater(s, attempt, k, Ask(s, attempt + 1, answers[2..]));
    } else {
      FirstTwoDialogs(s, attempt, answers, k);
    }
  }

  lemma MismatchAsksAgain(s: Settings, attempt: nat, answers: seq<DialogAnswer>)
    requires s.repeatPrompt != "" && |answers| >= 2 && Differ(answers, 0)
    ensures Ask(s, attempt, answers)
         == ShowFirst([FirstDialog(s, attempt)] + [RepeatDialog(s)], Ask(s, attempt + 1, answers[2..]))
  {
  }

  lemma DialogLater(s: Settings, attempt: nat, k: nat, later: Asked)
    requires 2 <= k < |later.shown| + 2
    ensures ShowFirst([FirstDialog(s, attempt)] + [RepeatDialog(s)], later).shown[k] == later.shown[k - 2]
    ensures DialogAt(s, attempt, k) == DialogAt(s, attempt + 1, k - 2)
  {
    assert (k - 2) % 2 == k % 2 && (k - 2) / 2 == k / 2 - 1;
  }

  lemma FirstTwoDialogs(s: Settings, attempt: nat, answers: seq<DialogAnswer>, k: nat)
    requires s.repeatPrompt != "" && k < |Ask(s, attempt, answers).shown|
    requires k < 2 || |answers| < 2 || !Differ(answers, 0)
    ensures k < 2 && Ask(s, attempt, answers).shown[k] == DialogAt(s, attempt, k)
  {
    assert DialogAt(s, attempt, 0) == FirstDialog(s, attempt) && DialogAt(s, attempt, 1) == RepeatDialog(s);
    if |answers| >= 2 && Differ(answers, 0) {
      var both := [FirstDialog(s, attempt)] + [RepeatDialog(s)];
      assert Ask(s, attempt, answers).shown == both + Ask(s, attempt + 1, answers[2..]).shown;
    } else {
      assert |Ask(s, attempt, answers).shown| <= 2;
    }
  }

  /** Main result on repeats. For every vault and every stream of answers, a GETPIN with a
      repeat prompt ignores the vault and leaves the settings alone; it returns exactly
      the password typed in both dialogs of the first matching attempt, reports
      PIN_REPEATED once then and never otherwise, and saves exactly if it may, the user
      asked for it in that attempt, and the password is not empty. */
  lemma RepeatedPin(s: Settings, vault: Vault, env: Env)
    requires s.repeatPrompt != ""
    ensures var r := GetPin(s, vault, env);
      && r.s == s
      && (forall other, fails :: GetPin(s, other, env.(readFails := fails)) == r)
      && r.statuses == (if r.result.Pin? then ["PIN_REPEATED"] else [])
      && (forall p :: r.result == Pin(p) <==>
            exists n: nat :: Settled(env.answers, n) && env.answers[2 * n].passwd == p)
      && (r.result == PinCanceled <==> exists n: nat :: CanceledIn(env.answers, n))
      && (forall p :: r.saved == Some(p) <==>
            && MayCache(s) && p != "" && !env.writeFails
            && exists n: nat ::
                 Settled(env.answers, n) && env.answers[2 * n].passwd == p && env.answers[2 * n].remember)
  {
    var n := RepeatEnds(s, 0, env.answers);
    var a := Ask(s, 0, env.answers);
    assert [] + a.statuses == a.statuses;
    forall m: nat | Settled(env.answers, m) || CanceledIn(env.answers, m)
      ensures m == n
    {
      assert m < n ==> Differ(env.answers, m);
      assert n < m ==> Differ(env.answers, n);
    }
  }

  /** The cache answers: it may be used, can be read and holds a password. */
  predicate Hits(s: Settings, vault: Vault, env: Env) {
    && TriesCache(s) && !env.readFails
    && CredentialName(s.keyInfo) in vault && vault[CredentialName(s.keyInfo)] != ""
  }

  /** Without a repeat prompt: dialogs are shown if and only if the cache does not answer,
      and then exactly one; its password is returned, and saved exactly if caching is still
      allowed after the read, the user asked for it, and it is not empty. */
  lemma SinglePin(s: Settings, vault: Vault, env: Env)
    requires s.repeatPrompt == ""
    ensures var r := GetPin(s, vault, env);
      && |r.shown| == (if Hits(s, vault, env) then 0 else 1)
      && "PIN_REPEATED" !in r.statuses
      && (MayCache(r.s) <==> MayCache(s) && !(TriesCache(s) && env.readFails))
      && (!Hits(s, vault, env) ==>
            && r.shown[0].error == s.error && r.shown[0].checkbox == MayCache(r.s)
            && (forall p :: r.result == Pin(p) <==>
                  env.answers != [] && !env.answers[0].cancel && env.answers[0].passwd == p)
            && (forall p :: r.saved == Some(p) <==>
                  MayCache(r.s) && p != "" && !env.writeFails && r.result == Pin(p) && env.answers[0].remember))
  {
  }

  // ---- histories ----

  datatype VaultEvent = Saved(key: string, passwd: string) | Cleared(key: string)

  /** What a command does to the vault, from what the user and the client did. */
  function EventOf(w: World, m: Message): seq<VaultEvent> {
    if m.cmd == "GETPIN" then
      match GetPin(w.s.(cmdArgs := m.params), w.vault, NextEnv(w)).saved
      case None => []
      case Some(passwd) => [Saved(w.s.keyInfo, passwd)]
    else if m.cmd == "CLEARPASSPHRASE" then
      match Removes(w, m.params)
      case None => []
      case Some(key) => [Cleared(key)]
    else []
  }

  function After(program: Program, w: World, ms: seq<Message>): World {
    if ms == [] then w else Apply(program, After(program, w, ms[..|ms| - 1]), ms[|ms| - 1])
  }

  function Log(program: Program, w: World, ms: seq<Message>): seq<VaultEvent> {
    if ms == [] then []
    else
      var before := ms[..|ms| - 1];
      Log(program, w, before) + EventOf(After(program, w, before), ms[|ms| - 1])
  }

  /** The password last saved under a key and not cleared since; before the first event
      on the key, what the vault held at the start. */
  function Remembered(vault: Vault, log: seq<VaultEvent>, key: string): Option<string> {
    if log == [] then
      if CredentialName(key) in vault then Some(vault[CredentialName(key)]) else None
    else
      var last := log[|log| - 1];
      if last.key != key then Remembered(vault, log[..|log| - 1], key)
      else if last.Saved? then Some(last.passwd) else None
  }

  lemma CredentialNameInjective(a: string, b: string)
    requires CredentialName(a) == CredentialName(b)
    ensures a == b
  {
    var prefix := "GnuPG:PinGO=";
    assert a == CredentialName(a)[|prefix|..] && b == CredentialName(b)[|prefix|..];
  }

  ghost predicate Agrees(vault0: Vault, log: seq<VaultEvent>, vault: Vault) {
    forall key :: Remembered(vault0, log, key)
               == if CredentialName(key) in vault then Some(vault[CredentialName(key)]) else None
  }

  function Update(vault: Vault, event: seq<VaultEvent>): Vault {
    if event == [] then vault
    else
      match event[0]
      case Saved(key, passwd) => vault[CredentialName(key) := passwd]
      case Cleared(key) => vault - {CredentialName(key)}
  }

  lemma ClearUpdates(w: World, params: string)
    ensures ClearHandler(w, params).state.vault == Update(w.vault, EventOf(w, Message("CLEARPASSPHRASE", params)))
  {
  }

  lemma PinUpdates(w: World, params: string)
    ensures GetPinHandler(w, params).state.vault == Update(w.vault, EventOf(w, Message("GETPIN", params)))
  {
  }

  lemma OthersKeepVault(program: Program, name: string, w: World, params: string)
    requires name != "GETPIN" && name != "CLEARPASSPHRASE"
    ensures Run(program, name, w, params).state.vault == w.vault
  {
  }

  lemma RunUpdates(program: Program, w: World, m: Message)
    ensures Run(program, m.cmd, w, m.params).state.vault == Update(w.vault, EventOf(w, m))
  {
    if m.cmd == "GETPIN" {
      PinUpdates(w, m.params);
    } else if m.cmd == "CLEARPASSPHRASE" {
      ClearUpdates(w, m.params);
    } else {
      OthersKeepVault(program, m.cmd, w, m.params);
    }
  }

  lemma OptionKeepsVault(w: World, key: string, val: string)
    ensures SetOpt(w, key, val).0.vault == w.vault
  {
  }

  lemma NotACommand(w: World, m: Message)
    requires m.cmd == "OPTION" || m.cmd !in Commands()
    ensures EventOf(w, m) == []
  {
    assert "GETPIN" in Commands() && "CLEARPASSPHRASE" in Commands();
  }

  lemma ApplyUpdates(program: Program, w: World, m: Message)
    ensures Apply(program, w, m).vault == Update(w.vault, EventOf(w, m))
  {
    if m.cmd == "OPTION" {
      NotACommand(w, m);
      if SplitOption(m.params).Some? {
        OptionKeepsVault(w, SplitOption(m.params).value.0, SplitOption(m.params).value.1);
      }
    } else if m.cmd in Commands() {
      RunUpdates(program, w, m);
    } else {
      NotACommand(w, m);
    }
  }

  lemma OneEvent(vault0: Vault, log: seq<VaultEvent>, vault: Vault, event: VaultEvent)
    requires Agrees(vault0, log, vault)
    ensures Agrees(vault0, log + [event], Update(vault, [event]))
  {
    var more := log + [event];
    assert more[..|more| - 1] == log;
    forall key
      ensures Remembered(vault0, more, key)
           == if CredentialName(key) in Update(vault, [event]) then Some(Update(vault, [event])[CredentialName(key)])
              else None
    {
      if CredentialName(key) == CredentialName(event.key) { CredentialNameInjective(key, event.key); }
    }
  }

  /** The vault holds under every key exactly what the history says. */
  lemma {:induction false} VaultFollowsHistory(program: Program, w: World, ms: seq<Message>)
    ensures Agrees(w.vault, Log(program, w, ms), After(program, w, ms).vault)
    decreases |ms|
  {
    if ms == [] {
    } else {
      var before := ms[..|ms| - 1];
      VaultFollowsHistory(program, w, before);
      var now := After(program, w, before);
      var log, event := Log(program, w, before), EventOf(now, ms[|ms| - 1]);
      ApplyUpdates(program, now, ms[|ms| - 1]);
      if event == [] {
        assert log + event == log;
      } else {
        assert event == [event[0]];
        OneEvent(w.vault, log, now.vault, event[0]);
      }
    }
  }

  ghost predicate NoEmptyPassword(vault: Vault) {
    forall name :: name in vault ==> vault[name] != ""
  }

  lemma SavedNotEmpty(w: World, m: Message)
    ensures forall e :: e in EventOf(w, m) && e.Saved? ==> e.passwd != ""
  {
  }

  /** Stored passwords are never empty. */
  lemma {:induction false} StoredPasswordsNotEmpty(program: Program, w: World, ms: seq<Message>)
    requires NoEmptyPassword(w.vault)
    ensures NoEmptyPassword(After(program, w, ms).vault)
    decreases |ms|
  {
    if ms == [] {
    } else {
      var before, last := ms[..|ms| - 1], ms[|ms| - 1];
      StoredPasswordsNotEmpty(program, w, before);
      ApplyUpdates(program, After(program, w, before), last);
      SavedNotEmpty(After(program, w, before), last);
    }
  }

  /** A GETPIN after any history marks its reply PASSWORD_FROM_CACHE if and only if it may
      use the cache, can read it and finds something; and then it shows no dialog, saves
      nothing, and returns the password last saved under the KeyInfo in force and not
      cleared since. */
  lemma CachedPinIsLastSaved(program: Program, w: World, ms: seq<Message>, params: string)
    requires NoEmptyPassword(w.vault)
    ensures var now := After(program, w, ms);
      var r := GetPin(now.s.(cmdArgs := params), now.vault, NextEnv(now));
      var known := Remembered(w.vault, Log(program, w, ms), now.s.keyInfo);
      && ("PASSWORD_FROM_CACHE" in r.statuses <==> TriesCache(now.s) && !NextEnv(now).readFails && known.Some?)
      && ("PASSWORD_FROM_CACHE" in r.statuses ==>
            r.result == Pin(known.value) && known.value != "" && r.shown == [] && r.saved == None)
  {
    VaultFollowsHistory(program, w, ms);
    StoredPasswordsNotEmpty(program, w, ms);
    var now := After(program, w, ms);
    AskStatuses(now.s.(cmdArgs := params), 0, NextEnv(now).answers);
    var off := now.s.(cmdArgs := params, opts := now.s.opts.(allowExtPasswdCache := false));
    AskStatuses(off, 0, NextEnv(now).answers);
  }

  lemma {:induction false} AskStatuses(s: Settings, attempt: nat, answers: seq<DialogAnswer>)
    ensures "PASSWORD_FROM_CACHE" !in Ask(s, attempt, answers).statuses
    decreases |answers|
  {
    if |answers| >= 2 { AskStatuses(s, attempt + 1, answers[2..]); }
  }

  lemma {:induction false} AskStatusesAre(s: Settings, attempt: nat, answers: seq<DialogAnswer>)
    ensures forall t :: t in Ask(s, attempt, answers).statuses ==> t == "PIN_REPEATED"
    decreases |answers|
  {
    if |answers| >= 2 { AskStatusesAre(s, attempt + 1, answers[2..]); }
  }

  /** A GETPIN sends no other status than these two. */
  lemma PinStatuses(s: Settings, vault: Vault, env: Env)
    ensures forall t :: t in GetPin(s, vault, env).statuses ==> t == "PIN_REPEATED" || t == "PASSWORD_FROM_CACHE"
  {
    AskStatusesAre(s, 0, env.answers);
    AskStatusesAre(s.(opts := s.opts.(allowExtPasswdCache := false)), 0, env.answers);
  }

  // ---- caching turned off ----

  /** The client sends the caching option. */
  predicate AllowsCache(m: Message) {
    m.cmd == "OPTION" && SplitOption(m.params).Some? && SplitOption(m.params).value.0 == ALLOW_CACHE
  }

  lemma SetterKeepsOptions(name: string, s: Settings, p: string)
    ensures Setter(name, s, p).Some? ==> Setter(name, s, p).value.opts == s.opts
  {
  }

  lemma RunStaysOff(program: Program, name: string, w: World, params: string)
    requires !w.s.opts.allowExtPasswdCache && !program.defaults.opts.allowExtPasswdCache
    ensures !Run(program, name, w, params).state.s.opts.allowExtPasswdCache
  {
    SetterKeepsOptions(name, w.s, params);
  }

  lemma OptionStaysOff(w: World, key: string, val: string)
    requires !w.s.opts.allowExtPasswdCache && key != ALLOW_CACHE
    ensures !SetOpt(w, key, val).0.s.opts.allowExtPasswdCache
  {
  }

  lemma StaysOff(program: Program, w: World, m: Message)
    requires !w.s.opts.allowExtPasswdCache && !program.defaults.opts.allowExtPasswdCache && !AllowsCache(m)
    ensures !Apply(program, w, m).s.opts.allowExtPasswdCache
  {
    if m.cmd == "OPTION" {
      if SplitOption(m.params).Some? {
        OptionStaysOff(w, SplitOption(m.params).value.0, SplitOption(m.params).value.1);
      }
    } else if m.cmd in Commands() {
      RunStaysOff(program, m.cmd, w, m.params);
    }
  }

  lemma OffSavesNothing(w: World, m: Message)
    requires !w.s.opts.allowExtPasswdCache
    ensures forall e :: e in EventOf(w, m) ==> e.Cleared?
  {
  }

  lemma {:induction false} NothingSavedUnasked(program: Program, w: World, ms: seq<Message>)
    requires !w.s.opts.allowExtPasswdCache && !program.defaults.opts.allowExtPasswdCache
    requires forall m :: m in ms ==> !AllowsCache(m)
    ensures !After(program, w, ms).s.opts.allowExtPasswdCache
    ensures forall e :: e in Log(program, w, ms) ==> e.Cleared?
    decreases |ms|
  {
    if ms == [] {
    } else {
      var before, last := ms[..|ms| - 1], ms[|ms| - 1];
      NothingSavedUnasked(program, w, before);
      StaysOff(program, After(program, w, before), last);
      OffSavesNothing(After(program, w, before), last);
    }
  }

  /** After a GETPIN that could not read the vault, neither it nor any later command saves
      a password until the client sends the caching option again; RESET does not turn
      caching back on. */
  lemma FailedReadStopsSaving(program: Program, w: World, params: string, ms: seq<Message>)
    requires TriesCache(w.s) && NextEnv(w).readFails
    requires !program.defaults.opts.allowExtPasswdCache
    requires forall m :: m in ms ==> !AllowsCache(m)
    ensures var getpin := Message("GETPIN", params);
      && EventOf(w, getpin) == []
      && forall e :: e in Log(program, Apply(program, w, getpin), ms) ==> e.Cleared?
  {
    NothingSavedUnasked(program, Apply(program, w, Message("GETPIN", params)), ms);
  }

  /** The command reads the vault. */
  predicate ReadsVault(w: World, m: Message) {
    (m.cmd == "GETPIN" && TriesCache(w.s)) || m.cmd == "CLEARPASSPHRASE"
  }

  lemma OptionStaysOn(w: World, key: string, val: string)
    requires w.s.opts.allowExtPasswdCache
    ensures SetOpt(w, key, val).0.s.opts.allowExtPasswdCache
  {
  }

  lemma RunTurnsOffIff(program: Program, name: string, w: World, params: string)
    requires w.s.opts.allowExtPasswdCache
    ensures !Run(program, name, w, params).state.s.opts.allowExtPasswdCache <==>
      || (name == "GETPIN" && TriesCache(w.s) && NextEnv(w).readFails)
      || (name == "RESET" && !program.defaults.opts.allowExtPasswdCache)
  {
    SetterKeepsOptions(name, w.s, params);
  }

  /** Exactly two commands turn caching off: a GETPIN whose read of the vault fails, and a
      RESET to settings without it. */
  lemma TurnedOffIff(program: Program, w: World, m: Message)
    requires w.s.opts.allowExtPasswdCache
    ensures !Apply(program, w, m).s.opts.allowExtPasswdCache <==>
      || (m.cmd == "GETPIN" && TriesCache(w.s) && NextEnv(w).readFails)
      || (m.cmd == "RESET" && !program.defaults.opts.allowExtPasswdCache)
  {
    assert "GETPIN" in Commands() && "RESET" in Commands();
    if m.cmd == "OPTION" {
      if SplitOption(m.params).Some? {
        OptionStaysOn(w, SplitOption(m.params).value.0, SplitOption(m.params).value.1);
      }
    } else if m.cmd in Commands() {
      RunTurnsOffIff(program, m.cmd, w, m.params);
    }
  }

  /** Of the commands that read the vault, a failed read turns caching off exactly in a
      GETPIN. */
  lemma FailedReadTurnsOffIff(program: Program, w: World, m: Message)
    requires w.s.opts.allowExtPasswdCache && NextEnv(w).readFails && ReadsVault(w, m)
    ensures !Apply(program, w, m).s.opts.allowExtPasswdCache <==> m.cmd == "GETPIN"
  {
    TurnedOffIff(program, w, m);
  }

  /** A CLEARPASSPHRASE that could not read the vault does not keep the next GETPIN from
      saving. */
  lemma SavesAfterFailedClear(program: Program, s: Settings, passwd: string, params: string)
    requires s.opts.allowExtPasswdCache && s.keyInfo != "" && s.error == "" && s.repeatPrompt == "" && passwd != ""
    ensures var answer := DialogAnswer(false, passwd, true);
      var w := World(s, map[], [Env(true, false, false, [], false), Env(false, false, false, [answer], false)]);
      After(program, w, [Message("CLEARPASSPHRASE", params), Message("GETPIN", "")]).vault
        == map[CredentialName(s.keyInfo) := passwd]
  {
    var answer := DialogAnswer(false, passwd, true);
    var w := World(s, map[], [Env(true, false, false, [], false), Env(false, false, false, [answer], false)]);
    var a, b := Message("CLEARPASSPHRASE", params), Message("GETPIN", "");
    AfterMore(program, w, [], a);
    AfterMore(program, w, [a], b);
    assert [] + [a] == [a] && [a] + [b] == [a, b];
    assert After(program, w, []) == w;
    ClearFails(program, w, params);
    SavesTyped(program, Apply(program, w, a), passwd);
  }

  lemma ClearFails(program: Program, w: World, params: string)
    requires NextEnv(w).readFails
    ensures Apply(program, w, Message("CLEARPASSPHRASE", params)) == w.(envs := LaterEnvs(w))
  {
    assert "CLEARPASSPHRASE" in Commands();
  }

  // ---- which keys can be cleared ----

  lemma {:induction false} TrimLeftKeepsEnd(text: string)
    ensures TrimBlanksLeft(text) == "" || TrimBlanksLeft(text)[0] != ' '
  {
    if text == "" || text[0] != ' ' {
    } else {
      TrimLeftKeepsEnd(text[1..]);
    }
  }

  lemma {:induction false} TrimRightEnds(text: string)
    ensures TrimBlanksRight(text) == "" || TrimBlanksRight(text)[|TrimBlanksRight(text)| - 1] != ' '
    ensures TrimBlanksRight(text) <= text
  {
    if text == "" || text[|text| - 1] != ' ' {
    } else {
      TrimRightEnds(text[..|text| - 1]);
    }
  }

  /** A stored key can be removed by CLEARPASSPHRASE if and only if it has no blank at
      either end: the command trims its parameter, SETKEYINFO does not. */
  lemma ClearableIff(w: World, key: string)
    requires CredentialName(key) in w.vault && !NextEnv(w).readFails && !NextEnv(w).deleteFails
    ensures (exists params :: Removes(w, params) == Some(key))
       <==> key == "" || (key[0] != ' ' && key[|key| - 1] != ' ')
  {
    forall params | Removes(w, params) == Some(key)
      ensures key == "" || (key[0] != ' ' && key[|key| - 1] != ' ')
    {
      TrimLeftKeepsEnd(params);
      TrimRightEnds(TrimBlanksLeft(params));
    }
    if key == "" || (key[0] != ' ' && key[|key| - 1] != ' ') {
      assert TrimBlanks(key) == key;
      assert Removes(w, key) == Some(key);
    }
  }

  lemma AfterMore(program: Program, w: World, ms: seq<Message>, m: Message)
    ensures After(program, w, ms + [m]) == Apply(program, After(program, w, ms), m)
  {
    assert (ms + [m])[..|ms|] == ms;
  }

  lemma AfterThree(program: Program, w: World, a: Message, b: Message, c: Message)
    ensures After(program, w, [a, b, c]) == Apply(program, Apply(program, Apply(program, w, a), b), c)
  {
    AfterMore(program, w, [], a);
    AfterMore(program, w, [a], b);
    AfterMore(program, w, [a, b], c);
    assert [] + [a] == [a] && [a] + [b] == [a, b] && [a, b] + [c] == [a, b, c];
    assert After(program, w, []) == w;
    hide Apply;
  }

  /** A password saved under a key with a blank in front stays in the vault: after this
      history no CLEARPASSPHRASE removes it, whatever its parameter. */
  lemma UnclearableKey(program: Program, s: Settings, passwd: string)
    requires passwd != "" && s.error == "" && s.repeatPrompt == ""
    ensures var answer := DialogAnswer(false, passwd, true);
      var w := World(s, map[], [Env(false, false, false, [answer], false)]);
      var option, key, getpin := Message("OPTION", ALLOW_CACHE), Message("SETKEYINFO", " k"), Message("GETPIN", "");
      var now := After(program, w, [option, key, getpin]);
      && now.vault == map[CredentialName(" k") := passwd]
      && forall params :: Removes(now, params) != Some(" k")
  {
    var w := World(s, map[], [Env(false, false, false, [DialogAnswer(false, passwd, true)], false)]);
    var a, b, c := Message("OPTION", ALLOW_CACHE), Message("SETKEYINFO", " k"), Message("GETPIN", "");
    var w1 := w.(s := s.(opts := s.opts.(allowExtPasswdCache := true)));
    var w2 := w1.(s := w1.s.(keyInfo := " k"));
    AfterThree(program, w, a, b, c);
    CachingAllowed(w);
    assert Apply(program, w, a) == w1;
    assert Apply(program, w1, b) == w2;
    SavesTyped(program, w2, passwd);
    assert CredentialName(" k") in Apply(program, w2, c).vault;
    ClearableIff(Apply(program, w2, c), " k");
  }

  lemma BareOption(key: string)
    requires key != "" && forall i :: 0 <= i < |key| ==> IsOptionChar(key[i])
    ensures SplitOption(key) == Some((key, ""))
  {
    assert OptionSpan(key) == |key|;
  }

  lemma CachingAllowed(w: World)
    ensures SplitOption(ALLOW_CACHE) == Some((ALLOW_CACHE, ""))
    ensures SetOpt(w, ALLOW_CACHE, "").0 == w.(s := w.s.(opts := w.s.opts.(allowExtPasswdCache := true)))
  {
    hide SplitOption;
    assert forall i :: 0 <= i < |ALLOW_CACHE| ==> IsOptionChar(ALLOW_CACHE[i]);
    BareOption(ALLOW_CACHE);
  }

  lemma SavesTyped(program: Program, w: World, passwd: string)
    requires w.s.error == "" && w.s.repeatPrompt == "" && MayCache(w.s)
    requires w.vault == map[] && passwd != ""
    requires w.envs == [Env(false, false, false, [DialogAnswer(false, passwd, true)], false)]
    ensures var now := Apply(program, w, Message("GETPIN", ""));
      now.vault == map[CredentialName(w.s.keyInfo) := passwd] && now.envs == []
  {
    SinglePin(w.s.(cmdArgs := ""), w.vault, NextEnv(w));
  }
}
