/**
 The pinentry client's copy of the settings against the server's own, over every
 interleaved run of the two (pinentry/client.go, pinentry/server.go).
 */
module PinMirror {
  import opened Basics
  import opened Errors
  import H = PinentryHistory
  import opened Lockstep
  import opened LockstepRun
  import P = Pinentry
  import opened PinClient
  import opened Server
  import opened Transfer
  import opened Wire

  // ---- what one command does to the server's settings ----

  /** A command that is neither a setter of the client nor RESET. */
  predicate Elsewhere(cmd: string) {
    && (forall f: TextField :: cmd != CommandOf(f))
    && cmd != "SETTIMEOUT" && cmd != "RESET"
  }

  lemma SetterStores(s: P.Settings, f: TextField, text: string)
    ensures P.Setter(CommandOf(f), s, text) == Some(Put(s, f, text))
  {
  }

  lemma SetterIsPlain(f: TextField)
    ensures CommandOf(f) in P.Commands()
    ensures CommandOf(f) !in
      ["OPTION", "SETTIMEOUT", "CLEARPASSPHRASE", "GETINFO", "SETKEYINFO", "RESET", "GETPIN", "CONFIRM"]
  {
  }

  lemma SetterEffect(program: P.Program, w: P.World, f: TextField, text: string)
    ensures P.Apply(program, w, Message(CommandOf(f), text)) == w.(s := Put(w.s, f, text))
  {
    SetterStores(w.s, f, text);
    SetterIsPlain(f);
    hide P.Setter, Put, CommandOf, P.Commands, P.GetPinHandler, P.ClearHandler, P.InfoHandler, P.TimeoutHandler;
  }

  lemma TimeoutEffect(program: P.Program, w: P.World, timeout: GoInt)
    ensures P.Apply(program, w, MessageOf(SetTime(timeout)))
         == w.(s := w.s.(timeout := P.Seconds(WholeSeconds(timeout))))
  {
    ItoaRoundTrip(WholeSeconds(timeout));
  }

  lemma ResetEffect(program: P.Program, w: P.World)
    ensures P.Apply(program, w, MessageOf(Reset)) == w.(s := program.defaults)
  {
  }

  lemma PutGet(s: P.Settings, f: TextField, text: string, g: TextField)
    ensures Get(Put(s, f, text), g) == if f == g then text else Get(s, g)
    ensures Put(s, f, text).timeout == s.timeout
  {
  }

  /** The fields the client copies. */
  ghost predicate SameFields(s: P.Settings, t: P.Settings) {
    s.timeout == t.timeout && forall f: TextField :: Get(s, f) == Get(t, f)
  }

  lemma GetPinKeeps(s: P.Settings, vault: P.Vault, env: P.Env)
    ensures SameFields(P.GetPin(s, vault, env).s, s)
  {
  }

  lemma OnlyOptions(w: P.World, key: string, val: string)
    ensures P.SetOpt(w, key, val).0.s == w.s.(opts := P.SetOpt(w, key, val).0.s.opts)
  {
  }

  lemma OptionKeeps(w: P.World, key: string, val: string)
    ensures SameFields(P.SetOpt(w, key, val).0.s, w.s)
  {
    OnlyOptions(w, key, val);
    hide P.SetOpt;
  }

  lemma OtherSetterKeeps(name: string, s: P.Settings, text: string)
    requires Elsewhere(name) && P.Setter(name, s, text).Some?
    ensures SameFields(P.Setter(name, s, text).value, s)
  {
    assert forall f: TextField :: name != CommandOf(f);
    assert name != CommandOf(Desc) && name != CommandOf(Prompt) && name != CommandOf(ErrorText);
    assert name != CommandOf(OkBtn) && name != CommandOf(NotOkBtn) && name != CommandOf(CancelBtn);
    assert name != CommandOf(Title) && name != CommandOf(RepeatPrompt) && name != CommandOf(RepeatError);
    assert name != CommandOf(QualityBar);
  }

  lemma RunKeepsFields(program: P.Program, name: string, w: P.World, params: string)
    requires Elsewhere(name)
    ensures SameFields(P.Run(program, name, w, params).state.s, w.s)
  {
    GetPinKeeps(w.s.(cmdArgs := params), w.vault, P.NextEnv(w));
    hide P.GetPin, P.Setter, P.Atoi, P.TrimBlanks;
    if P.Setter(name, w.s, params).Some? { OtherSetterKeeps(name, w.s, params); }
  }

  lemma ElsewhereEffect(program: P.Program, w: P.World, m: Message)
    requires Elsewhere(m.cmd)
    ensures SameFields(P.Apply(program, w, m).s, w.s)
  {
    if m.cmd == "OPTION" {
      match SplitOption(m.params)
      case None =>
      case Some((key, val)) => OptionKeeps(w, key, val);
    } else if m.cmd in P.Commands() {
      RunKeepsFields(program, m.cmd, w, m.params);
    }
  }

  // ---- rows of calls ----

  /** The row can be any calls; what is not a setter or Reset is something else in upper
      case as well, which is how the server reads it. */
  predicate Distinguished(calls: seq<Call>) {
    forall i :: 0 <= i < |calls| && calls[i].Other? ==> Elsewhere(Upper(calls[i].m).cmd)
  }

  function MessagesOf(calls: seq<Call>): (ms: seq<Message>)
    ensures |ms| == |calls| && forall i :: 0 <= i < |calls| ==> ms[i] == MessageOf(calls[i])
  {
    seq(|calls|, i requires 0 <= i < |calls| => MessageOf(calls[i]))
  }

  /** As the server reads them. */
  function Heard(calls: seq<Call>): (ms: seq<Message>)
    ensures |ms| == |calls| && forall i :: 0 <= i < |calls| ==> ms[i] == Upper(MessageOf(calls[i]))
  {
    seq(|calls|, i requires 0 <= i < |calls| => Upper(MessageOf(calls[i])))
  }

  lemma CapitalsAreUpper(text: string)
    requires forall i :: 0 <= i < |text| ==> !('a' <= text[i] <= 'z')
    ensures ToUpper(text) == text
  {
  }

  lemma SetterIsUpper(f: TextField)
    ensures ToUpper(CommandOf(f)) == CommandOf(f)
  {
    CapitalsAreUpper(CommandOf(f));
  }

  lemma OwnCallIsUpper(c: Call)
    requires !c.Other?
    ensures Upper(MessageOf(c)) == MessageOf(c)
  {
    match c
    case Set(f, _) => SetterIsUpper(f);
    case SetTime(_) => CapitalsAreUpper("SETTIMEOUT");
    case Reset => CapitalsAreUpper("RESET");
  }

  /** The client's copy after the first `n` calls and their answers. */
  function Mirror(base: P.Settings, calls: seq<Call>, results: seq<Answer>, n: nat): P.Settings
    requires n <= |calls| && n <= |results|
  {
    if n == 0 then base
    else AfterCall(Mirror(base, calls, results, n - 1), calls[n - 1], results[n - 1].Data?)
  }

  /** The server's settings after the first `n` calls. */
  function OnServer(program: P.Program, w0: P.World, calls: seq<Call>, n: nat): P.Settings
    requires n <= |calls|
  {
    H.After(program, w0, Heard(calls)[..n]).s
  }

  lemma ServerStep(program: P.Program, w0: P.World, calls: seq<Call>, n: nat)
    requires 0 < n <= |calls| && Distinguished(calls)
    ensures var before, after := OnServer(program, w0, calls, n - 1), OnServer(program, w0, calls, n);
      match calls[n - 1]
      case Set(f, text) => after == Put(before, f, text)
      case SetTime(timeout) => after == before.(timeout := P.Seconds(WholeSeconds(timeout)))
      case Reset => after == program.defaults
      case Other(_) => SameFields(after, before)
  {
    var c, w := calls[n - 1], H.After(program, w0, Heard(calls)[..n - 1]);
    assert Heard(calls)[..n][..n - 1] == Heard(calls)[..n - 1];
    assert H.After(program, w0, Heard(calls)[..n]) == P.Apply(program, w, Upper(MessageOf(c)));
    if c.Other? {
      ElsewhereEffect(program, w, Upper(MessageOf(c)));
    } else {
      OwnCallIsUpper(c);
      match c
      case Set(f, text) => SetterEffect(program, w, f, text);
      case SetTime(timeout) => TimeoutEffect(program, w, timeout);
      case Reset => ResetEffect(program, w);
    }
  }

  // ---- the last word on a field ----

  predicate Sets(c: Call, f: TextField) { c.Set? && c.field == f }

  /** Among the first `n` calls, number `k` is the last that sets the field. */
  predicate LastSet(calls: seq<Call>, n: nat, k: nat, f: TextField) {
    k < n <= |calls| && Sets(calls[k], f) && forall j :: k < j < n ==> !Sets(calls[j], f)
  }

  predicate LastTime(calls: seq<Call>, n: nat, k: nat) {
    k < n <= |calls| && calls[k].SetTime? && forall j :: k < j < n ==> !calls[j].SetTime?
  }

  /** A Reset among the calls from number `k` on and before number `n`. */
  predicate ResetIn(calls: seq<Call>, k: nat, n: nat)
    requires n <= |calls|
  {
    exists j :: k <= j < n && calls[j].Reset?
  }

  /** All setters and Resets among the first `n` calls were answered OK. */
  ghost predicate AllOk(calls: seq<Call>, results: seq<Answer>, n: nat)
    requires n <= |calls| && n <= |results|
  {
    forall i :: 0 <= i < n && !calls[i].Other? ==> results[i] == Data("")
  }

  lemma ResetStep(calls: seq<Call>, k: nat, n: nat)
    requires k < n <= |calls|
    ensures ResetIn(calls, k, n) <==> ResetIn(calls, k, n - 1) || calls[n - 1].Reset?
  {
  }

  lemma AllOkBefore(calls: seq<Call>, results: seq<Answer>, n: nat)
    requires 0 < n <= |calls| && n <= |results| && AllOk(calls, results, n)
    ensures AllOk(calls, results, n - 1)
    ensures !calls[n - 1].Other? ==> results[n - 1] == Data("")
  {
  }

  lemma LastSetBefore(calls: seq<Call>, n: nat, k: nat, f: TextField)
    requires LastSet(calls, n, k, f)
    ensures k < n <= |calls|
    ensures k < n - 1 ==> LastSet(calls, n - 1, k, f) && !Sets(calls[n - 1], f)
    ensures k == n - 1 ==> Sets(calls[n - 1], f) && !ResetIn(calls, k, n)
  {
  }

  lemma LastTimeBefore(calls: seq<Call>, n: nat, k: nat)
    requires LastTime(calls, n, k)
    ensures k < n <= |calls|
    ensures k < n - 1 ==> LastTime(calls, n - 1, k) && !calls[n - 1].SetTime?
    ensures k == n - 1 ==> calls[n - 1].SetTime? && !ResetIn(calls, k, n)
  {
  }

  /** What the last of `n` calls does to a field on both sides. */
  lemma TextStep(
    program: P.Program, w0: P.World, base: P.Settings, calls: seq<Call>, results: seq<Answer>, n: nat, f: TextField)
    requires 0 < n <= |calls| && n <= |results| && Distinguished(calls) && AllOk(calls, results, n)
    ensures Get(Mirror(base, calls, results, n), f)
         == if Sets(calls[n - 1], f) then calls[n - 1].text else Get(Mirror(base, calls, results, n - 1), f)
    ensures Get(OnServer(program, w0, calls, n), f)
         == if Sets(calls[n - 1], f) then calls[n - 1].text
            else if calls[n - 1].Reset? then Get(program.defaults, f) else Get(OnServer(program, w0, calls, n - 1), f)
  {
    ServerTextStep(program, w0, calls, n, f);
    AllOkBefore(calls, results, n);
    ClientTextStep(base, calls, results, n, f);
  }

  lemma ServerTextStep(program: P.Program, w0: P.World, calls: seq<Call>, n: nat, f: TextField)
    requires 0 < n <= |calls| && Distinguished(calls)
    ensures Get(OnServer(program, w0, calls, n), f)
         == if Sets(calls[n - 1], f) then calls[n - 1].text
            else if calls[n - 1].Reset? then Get(program.defaults, f) else Get(OnServer(program, w0, calls, n - 1), f)
  {
    var c, before := calls[n - 1], OnServer(program, w0, calls, n - 1);
    ServerStep(program, w0, calls, n);
    TimePuts(before, f);
    if c.Set? { PutGet(before, c.field, c.text, f); }
    hide OnServer, Put, Get, Distinguished;
  }

  lemma ClientTextStep(base: P.Settings, calls: seq<Call>, results: seq<Answer>, n: nat, f: TextField)
    requires 0 < n <= |calls| && n <= |results|
    requires !calls[n - 1].Other? ==> results[n - 1] == Data("")
    ensures Get(Mirror(base, calls, results, n), f)
         == if Sets(calls[n - 1], f) then calls[n - 1].text else Get(Mirror(base, calls, results, n - 1), f)
  {
    var c, before := calls[n - 1], Mirror(base, calls, results, n - 1);
    TimePuts(before, f);
    if c.Set? { PutGet(before, c.field, c.text, f); }
    hide Put, Get;
  }

  lemma TimePuts(s: P.Settings, f: TextField)
    ensures forall t: int :: Get(s.(timeout := t), f) == Get(s, f)
  {
  }

  lemma TimeStep(
    program: P.Program, w0: P.World, base: P.Settings, calls: seq<Call>, results: seq<Answer>, n: nat)
    requires 0 < n <= |calls| && n <= |results| && Distinguished(calls) && AllOk(calls, results, n)
    ensures Mirror(base, calls, results, n).timeout
         == if calls[n - 1].SetTime? then calls[n - 1].timeout else Mirror(base, calls, results, n - 1).timeout
    ensures OnServer(program, w0, calls, n).timeout
         == if calls[n - 1].SetTime? then P.Seconds(WholeSeconds(calls[n - 1].timeout))
            else if calls[n - 1].Reset? then program.defaults.timeout else OnServer(program, w0, calls, n - 1).timeout
  {
    ServerStep(program, w0, calls, n);
    hide OnServer, Put, Get;
    var c := calls[n - 1];
    if c.Set? {
      PutGet(Mirror(base, calls, results, n - 1), c.field, c.text, c.field);
      PutGet(OnServer(program, w0, calls, n - 1), c.field, c.text, c.field);
    }
  }

  lemma {:induction false} LastText(
    program: P.Program, w0: P.World, base: P.Settings, calls: seq<Call>, results: seq<Answer>,
    n: nat, k: nat, f: TextField)
    requires n <= |calls| && n <= |results| && Distinguished(calls) && AllOk(calls, results, n)
    requires LastSet(calls, n, k, f)
    ensures Get(Mirror(base, calls, results, n), f) == calls[k].text
    ensures Get(OnServer(program, w0, calls, n), f)
         == if ResetIn(calls, k, n) then Get(program.defaults, f) else calls[k].text
    decreases n
  {
    hide *;
    LastSetBefore(calls, n, k, f);
    TextStep(program, w0, base, calls, results, n, f);
    if k == n - 1 {
    } else {
      AllOkBefore(calls, results, n);
      LastText(program, w0, base, calls, results, n - 1, k, f);
      ResetStep(calls, k, n);
    }
  }

  lemma {:induction false} NeverSetText(
    program: P.Program, w0: P.World, base: P.Settings, calls: seq<Call>, results: seq<Answer>, n: nat, f: TextField)
    requires n <= |calls| && n <= |results| && Distinguished(calls) && AllOk(calls, results, n)
    requires forall j :: 0 <= j < n ==> !Sets(calls[j], f)
    ensures Get(Mirror(base, calls, results, n), f) == Get(base, f)
    ensures Get(OnServer(program, w0, calls, n), f)
         == if ResetIn(calls, 0, n) then Get(program.defaults, f) else Get(w0.s, f)
    decreases n
  {
    hide *;
    if n == 0 {
      AtTheStart(program, w0, base, calls, results, f);
    } else {
      TextStep(program, w0, base, calls, results, n, f);
      ResetStep(calls, 0, n);
      AllOkBefore(calls, results, n);
      NeverSetText(program, w0, base, calls, results, n - 1, f);
    }
  }

  lemma AtTheStart(
    program: P.Program, w0: P.World, base: P.Settings, calls: seq<Call>, results: seq<Answer>, f: TextField)
    ensures Get(Mirror(base, calls, results, 0), f) == Get(base, f)
    ensures Get(OnServer(program, w0, calls, 0), f) == Get(w0.s, f) && !ResetIn(calls, 0, 0)
  {
    assert Heard(calls)[..0] == [];
  }

  lemma {:induction false} LastTimeout(
    program: P.Program, w0: P.World, base: P.Settings, calls: seq<Call>, results: seq<Answer>, n: nat, k: nat)
    requires n <= |calls| && n <= |results| && Distinguished(calls) && AllOk(calls, results, n) && LastTime(calls, n, k)
    ensures Mirror(base, calls, results, n).timeout == calls[k].timeout
    ensures OnServer(program, w0, calls, n).timeout
         == if ResetIn(calls, k, n) then program.defaults.timeout else P.Seconds(WholeSeconds(calls[k].timeout))
    decreases n
  {
    hide *;
    LastTimeBefore(calls, n, k);
    TimeStep(program, w0, base, calls, results, n);
    if k == n - 1 {
    } else {
      AllOkBefore(calls, results, n);
      LastTimeout(program, w0, base, calls, results, n - 1, k);
      ResetStep(calls, k, n);
    }
  }

  lemma {:induction false} NeverTimeout(
    program: P.Program, w0: P.World, base: P.Settings, calls: seq<Call>, results: seq<Answer>, n: nat)
    requires n <= |calls| && n <= |results| && Distinguished(calls) && AllOk(calls, results, n)
    requires forall j :: 0 <= j < n ==> !calls[j].SetTime?
    ensures Mirror(base, calls, results, n).timeout == base.timeout
    ensures OnServer(program, w0, calls, n).timeout
         == if ResetIn(calls, 0, n) then program.defaults.timeout else w0.s.timeout
    decreases n
  {
    hide *;
    if n == 0 {
      TimeAtTheStart(program, w0, base, calls, results);
    } else {
      TimeStep(program, w0, base, calls, results, n);
      ResetStep(calls, 0, n);
      AllOkBefore(calls, results, n);
      NeverTimeout(program, w0, base, calls, results, n - 1);
    }
  }

  lemma TimeAtTheStart(
    program: P.Program, w0: P.World, base: P.Settings, calls: seq<Call>, results: seq<Answer>)
    ensures Mirror(base, calls, results, 0).timeout == base.timeout
    ensures OnServer(program, w0, calls, 0).timeout == w0.s.timeout && !ResetIn(calls, 0, 0)
  {
    assert Heard(calls)[..0] == [];
  }

  // ---- from runs to rows of calls ----

  /** The session a pinentry server starts with. */
  function Started(program: P.Program, w: P.World): Srv<P.World> { Srv(Some(P.PinHandlers(program)), w) }

  function Commands(history: seq<Done<P.World>>): (ms: seq<Message>)
    ensures |ms| == |history| && forall i :: 0 <= i < |history| ==> ms[i] == history[i].m
  {
    seq(|history|, i requires 0 <= i < |history| => history[i].m)
  }

  lemma LastCommand(history: seq<Done<P.World>>)
    requires history != []
    ensures var last := |history| - 1;
      Commands(history)[..last] == Commands(history[..last]) && Commands(history)[last] == history[last].m
  {
  }

  lemma ReplyWorld(program: P.Program, w: P.World, d: Done<P.World>)
    requires d.srv == Started(program, w)
    ensures ReplyOf(P.PinProto(), d).srv == Started(program, P.Apply(program, w, d.m))
  {
    P.ApplyIsHandle(program, w, d.m, d.order);
  }

  lemma ChainedStep(
    proto: Proto<P.World>, srv0: Srv<P.World>, history: seq<Done<P.World>>, srv: Srv<P.World>, alive: bool)
    requires history != [] && Chained(proto, srv0, history, srv, alive)
    ensures var last := history[|history| - 1];
      Chained(proto, srv0, history[..|history| - 1], last.srv, true) && srv == ReplyOf(proto, last).srv
  {
  }

  lemma ChainedNone(program: P.Program, w0: P.World, srv: Srv<P.World>, alive: bool)
    requires Chained(P.PinProto(), Started(program, w0), [], srv, alive)
    ensures srv == Started(program, H.After(program, w0, Commands([])))
  {
  }

  lemma AfterLast(program: P.Program, w0: P.World, history: seq<Done<P.World>>)
    requires history != []
    ensures var last := |history| - 1;
      H.After(program, w0, Commands(history))
        == P.Apply(program, H.After(program, w0, Commands(history[..last])), history[last].m)
  {
    LastCommand(history);
  }

  /** The server's state after a history is the world after its commands. */
  lemma {:induction false} HistoryWorld(
    program: P.Program, w0: P.World, history: seq<Done<P.World>>, srv: Srv<P.World>, alive: bool)
    requires Chained(P.PinProto(), Started(program, w0), history, srv, alive)
    ensures srv == Started(program, H.After(program, w0, Commands(history)))
    ensures forall k :: 0 <= k < |history| ==> history[k].srv.handlers == Some(P.PinHandlers(program))
    decreases |history|
  {
    hide *;
    if history == [] {
      ChainedNone(program, w0, srv, alive);
    } else {
      var before, last := history[..|history| - 1], history[|history| - 1];
      ChainedStep(P.PinProto(), Started(program, w0), history, srv, alive);
      HistoryWorld(program, w0, before, last.srv, true);
      AfterLast(program, w0, history);
      ReplyWorld(program, H.After(program, w0, Commands(before)), last);
      StartedHandlers(program, H.After(program, w0, Commands(before)));
      forall k | 0 <= k < |history| ensures history[k].srv.handlers == Some(P.PinHandlers(program)) {
        if k < |before| { assert history[k] == before[k]; }
      }
    }
  }

  lemma StartedHandlers(program: P.Program, w: P.World)
    ensures Started(program, w).handlers == Some(P.PinHandlers(program)) && Started(program, w).state == w
  {
  }

  lemma SetterIsCommand(f: TextField)
    ensures CommandOf(f) in P.Commands()
    ensures CommandOf(f) !in ["BYE", "NOP", "OPTION", "HELP", "RESET"]
  {
  }

  lemma SilentAnswer(program: P.Program, srv: Srv<P.World>, m: Message)
    requires m.cmd in P.Commands() && m.cmd !in ["BYE", "NOP", "OPTION", "HELP"]
    requires srv.handlers == Some(P.PinHandlers(program))
    requires var h := P.Run(program, m.cmd, srv.state, m.params); h.emits == [] && h.verdict == Fine
    ensures Answers(P.PinProto(), srv, m) == [Data("")]
  {
    hide P.Run;
    var handlers := P.PinHandlers(program);
    assert m.cmd in handlers && handlers[m.cmd](srv.state, m.params) == P.Run(program, m.cmd, srv.state, m.params);
    assert m.cmd == "RESET" ==> "RESET" in handlers;
  }

  /** The server answers every setter, and RESET, with OK. */
  lemma OwnCallAnswered(program: P.Program, srv: Srv<P.World>, c: Call)
    requires !c.Other? && srv.handlers == Some(P.PinHandlers(program))
    ensures Answers(P.PinProto(), srv, MessageOf(c)) == [Data("")]
  {
    hide Answers, P.PinHandlers;
    match c {
      case Set(f, _) =>
        SetterIsCommand(f);
        SetterFine(program, srv.state, f, c.text);
      case SetTime(timeout) => ItoaRoundTrip(WholeSeconds(timeout));
      case Reset =>
    }
    SilentAnswer(program, srv, MessageOf(c));
  }

  lemma SetterFine(program: P.Program, w: P.World, f: TextField, text: string)
    ensures var h := P.Run(program, CommandOf(f), w, text); h.emits == [] && h.verdict == Fine
  {
  }

  /** A run that has come to a moment between calls with no OPTION rejected so far. */
  ghost predicate Between(program: P.Program, w0: P.World, calls: seq<Call>, run: seq<State<P.World>>) {
    && IsRun(P.PinProto(), Started(program, w0), MessagesOf(calls), run)
    && var s := run[|run| - 1];
    s.pc == Idle && s.alive && Rejections(P.PinProto(), s.history) == 0
  }

  function End(run: seq<State<P.World>>): State<P.World>
    requires run != []
  {
    run[|run| - 1]
  }

  lemma BetweenFacts(program: P.Program, w0: P.World, calls: seq<Call>, run: seq<State<P.World>>)
    requires Between(program, w0, calls, run)
    ensures run != []
    ensures var s := End(run);
      && |s.results| == |s.history| <= |calls|
      && Chained(P.PinProto(), Started(program, w0), s.history, s.srv, true)
      && forall i :: 0 <= i < |s.results| ==>
           && s.history[i].m == Upper(MessageOf(calls[i]))
           && Answers(P.PinProto(), s.history[i].srv, s.history[i].m) == [s.results[i]]
  {
    NothingLeftOver(P.PinProto(), Started(program, w0), MessagesOf(calls), run);
    var unread := ResultsAreAnswers(P.PinProto(), Started(program, w0), MessagesOf(calls), run);
  }

  lemma SameCommands(calls: seq<Call>, history: seq<Done<P.World>>)
    requires |history| <= |calls| && forall i :: 0 <= i < |history| ==> history[i].m == Upper(MessageOf(calls[i]))
    ensures Commands(history) == Heard(calls)[..|history|]
  {
  }

  lemma OnServerAfter(program: P.Program, w0: P.World, calls: seq<Call>, n: nat)
    requires n <= |calls|
    ensures Started(program, H.After(program, w0, Heard(calls)[..n])).state.s == OnServer(program, w0, calls, n)
  {
  }

  /** What holds between calls, as the runs give it. */
  lemma IdleRun(program: P.Program, w0: P.World, calls: seq<Call>, run: seq<State<P.World>>)
    requires Between(program, w0, calls, run)
    ensures run != []
    ensures var s := End(run);
      var n := |s.results|;
      n <= |calls| && AllOk(calls, s.results, n) && s.srv.state.s == OnServer(program, w0, calls, n)
  {
    BetweenFacts(program, w0, calls, run);
    hide Between, Chained, Answers, P.PinHandlers, H.After, Started, P.PinProto, OnServer, Commands, Heard;
    var s := End(run);
    var n := |s.results|;
    HistoryWorld(program, w0, s.history, s.srv, true);
    SameCommands(calls, s.history);
    OnServerAfter(program, w0, calls, n);
    forall i | 0 <= i < n && !calls[i].Other? ensures s.results[i] == Data("") {
      OwnCallIsUpper(calls[i]);
      OwnCallAnswered(program, s.history[i].srv, calls[i]);
    }
  }

  /** A text field last set by call `k`: in the client's copy as it was set, and so on the
      server, unless a Reset came after and the server has its default. */
  ghost predicate TextMirrored(
    defaults: P.Settings, calls: seq<Call>, n: nat, client: P.Settings, server: P.Settings, k: nat, f: TextField)
    requires LastSet(calls, n, k, f)
  {
    && Get(client, f) == calls[k].text
    && Get(server, f) == (if ResetIn(calls, k, n) then Get(defaults, f) else calls[k].text)
    && (Get(client, f) == Get(server, f) <==> !ResetIn(calls, k, n) || calls[k].text == Get(defaults, f))
  }

  /** The same of the timeout, which the server has in whole seconds. */
  ghost predicate TimeMirrored(
    defaults: P.Settings, calls: seq<Call>, n: nat, client: P.Settings, server: P.Settings, k: nat)
    requires LastTime(calls, n, k)
  {
    && client.timeout == calls[k].timeout
    && server.timeout == (if ResetIn(calls, k, n) then defaults.timeout else P.Seconds(WholeSeconds(calls[k].timeout)))
    && (client.timeout == server.timeout <==>
          if ResetIn(calls, k, n) then calls[k].timeout == defaults.timeout
          else calls[k].timeout % 1_000_000_000 == 0)
  }

  /** A text field that was never set. */
  ghost predicate Untouched(
    defaults: P.Settings, calls: seq<Call>, n: nat, base: P.Settings, server0: P.Settings,
    client: P.Settings, server: P.Settings, f: TextField)
    requires n <= |calls|
  {
    && Get(client, f) == Get(base, f)
    && Get(server, f) == if ResetIn(calls, 0, n) then Get(defaults, f) else Get(server0, f)
  }

  predicate NeverSet(calls: seq<Call>, n: nat, f: TextField)
    requires n <= |calls|
  {
    forall j :: 0 <= j < n ==> !Sets(calls[j], f)
  }

  /** The timeout, if it was never set. */
  ghost predicate TimeUntouched(
    defaults: P.Settings, calls: seq<Call>, n: nat, base: P.Settings, server0: P.Settings,
    client: P.Settings, server: P.Settings)
    requires n <= |calls|
  {
    && client.timeout == base.timeout
    && server.timeout == if ResetIn(calls, 0, n) then defaults.timeout else server0.timeout
  }

  predicate NeverTimed(calls: seq<Call>, n: nat)
    requires n <= |calls|
  {
    forall j :: 0 <= j < n ==> !calls[j].SetTime?
  }

  /** Main result on the mirror. Take any interleaved run of a client and a pinentry server,
      the client making setter, Apply and Reset calls and any others, and any moment
      between calls with no OPTION rejected so far. All setters and Resets were answered
      OK. The client and the server have the same text in a field the client has set if
      and only if no Reset came after, or the text is the server's default. */
  lemma SettingsMirrored(
    program: P.Program, w0: P.World, base: P.Settings, calls: seq<Call>, run: seq<State<P.World>>)
    requires Distinguished(calls) && Between(program, w0, calls, run)
    ensures run != []
    ensures var s := End(run);
      var n := |s.results|;
      && n <= |calls| && AllOk(calls, s.results, n)
      && var client, server := Mirror(base, calls, s.results, n), s.srv.state.s;
      && (forall k: nat, f :: LastSet(calls, n, k, f) ==>
            TextMirrored(program.defaults, calls, n, client, server, k, f))
      && (forall k: nat :: LastTime(calls, n, k) ==> TimeMirrored(program.defaults, calls, n, client, server, k))
      && (forall f :: NeverSet(calls, n, f) ==>
            Untouched(program.defaults, calls, n, base, w0.s, client, server, f))
      && (NeverTimed(calls, n) ==> TimeUntouched(program.defaults, calls, n, base, w0.s, client, server))
  {
    hide *;
    IdleRun(program, w0, calls, run);
    var s := End(run);
    var n := |s.results|;
    forall k: nat, f | LastSet(calls, n, k, f)
      ensures TextMirrored(program.defaults, calls, n, Mirror(base, calls, s.results, n), s.srv.state.s, k, f)
    {
      TextIsMirrored(program, w0, base, calls, s.results, n, k, f);
    }
    forall k: nat | LastTime(calls, n, k)
      ensures TimeMirrored(program.defaults, calls, n, Mirror(base, calls, s.results, n), s.srv.state.s, k)
    {
      TimeIsMirrored(program, w0, base, calls, s.results, n, k);
    }
    forall f | NeverSet(calls, n, f)
      ensures Untouched(program.defaults, calls, n, base, w0.s, Mirror(base, calls, s.results, n), s.srv.state.s, f)
    {
      IsUntouched(program, w0, base, calls, s.results, n, f);
    }
    if NeverTimed(calls, n) { TimeIsUntouched(program, w0, base, calls, s.results, n); }
  }

  lemma TextIsMirrored(
    program: P.Program, w0: P.World, base: P.Settings, calls: seq<Call>, results: seq<Answer>,
    n: nat, k: nat, f: TextField)
    requires n <= |calls| && n <= |results| && Distinguished(calls) && AllOk(calls, results, n)
    requires LastSet(calls, n, k, f)
    ensures TextMirrored(program.defaults, calls, n,
                         Mirror(base, calls, results, n), OnServer(program, w0, calls, n), k, f)
  {
    LastText(program, w0, base, calls, results, n, k, f);
    hide Mirror, OnServer, Get, ResetIn;
  }

  lemma TimeIsMirrored(
    program: P.Program, w0: P.World, base: P.Settings, calls: seq<Call>, results: seq<Answer>, n: nat, k: nat)
    requires n <= |calls| && n <= |results| && Distinguished(calls) && AllOk(calls, results, n) && LastTime(calls, n, k)
    ensures TimeMirrored(program.defaults, calls, n,
                         Mirror(base, calls, results, n), OnServer(program, w0, calls, n), k)
  {
    LastTimeout(program, w0, base, calls, results, n, k);
    SecondsRoundTripIff(calls[k].timeout);
    hide Mirror, OnServer, ResetIn, P.Seconds, WholeSeconds;
  }

  lemma IsUntouched(
    program: P.Program, w0: P.World, base: P.Settings, calls: seq<Call>, results: seq<Answer>, n: nat, f: TextField)
    requires n <= |calls| && n <= |results| && Distinguished(calls) && AllOk(calls, results, n) && NeverSet(calls, n, f)
    ensures Untouched(program.defaults, calls, n, base, w0.s,
                      Mirror(base, calls, results, n), OnServer(program, w0, calls, n), f)
  {
    NeverSetText(program, w0, base, calls, results, n, f);
    hide Mirror, OnServer, Get, ResetIn;
  }

  lemma TimeIsUntouched(
    program: P.Program, w0: P.World, base: P.Settings, calls: seq<Call>, results: seq<Answer>, n: nat)
    requires n <= |calls| && n <= |results| && Distinguished(calls) && AllOk(calls, results, n) && NeverTimed(calls, n)
    ensures TimeUntouched(program.defaults, calls, n, base, w0.s,
                          Mirror(base, calls, results, n), OnServer(program, w0, calls, n))
  {
    NeverTimeout(program, w0, base, calls, results, n);
    hide Mirror, OnServer, ResetIn;
  }

  // ---- Apply ----

  /** Where Apply sets the field. */
  function PlaceOf(f: TextField): nat {
    match f
    case Desc => 0
    case Prompt => 1
    case ErrorText => 2
    case OkBtn => 3
    case NotOkBtn => 4
    case CancelBtn => 5
    case Title => 6
    case RepeatPrompt => 8
    case RepeatError => 9
    case QualityBar => 10
  }

  lemma ApplySets(s: P.Settings, timeout: GoInt, f: TextField)
    ensures var cs, p := ApplyCalls(s, timeout), PlaceOf(f);
      && |cs| == 11 && p < 11 && cs[p] == Set(f, Get(s, f))
      && (forall i :: 0 <= i < 11 && i != p ==> !Sets(cs[i], f))
      && cs[7] == SetTime(timeout) && (forall i :: 0 <= i < 11 && i != 7 ==> !cs[i].SetTime?)
      && (forall i :: 0 <= i < 11 ==> !cs[i].Reset?)
  {
  }

  lemma AppliedLast(before: seq<Call>, s: P.Settings, timeout: GoInt, f: TextField)
    ensures var calls, k := before + ApplyCalls(s, timeout), |before| + PlaceOf(f);
      && LastSet(calls, |calls|, k, f) && calls[k].text == Get(s, f) && !ResetIn(calls, k, |calls|)
      && LastTime(calls, |calls|, |before| + 7) && calls[|before| + 7].timeout == timeout
      && !ResetIn(calls, |before| + 7, |calls|)
  {
    var cs := ApplyCalls(s, timeout);
    var calls := before + cs;
    ApplySets(s, timeout, f);
    hide ApplyCalls, PlaceOf, Get;
    assert forall i :: 0 <= i < |cs| ==> calls[|before| + i] == cs[i];
    assert forall j :: |before| <= j < |calls| ==> calls[j] == cs[j - |before|];
  }

  /** An Apply whose calls have all been answered leaves every field it sets the same on
      both sides, whatever was called before; the timeout if it is in whole seconds. */
  lemma ApplyMirrored(
    program: P.Program, w0: P.World, base: P.Settings, before: seq<Call>, s: P.Settings, timeout: GoInt,
    run: seq<State<P.World>>)
    requires var calls := before + ApplyCalls(s, timeout);
      Distinguished(calls) && Between(program, w0, calls, run)
    requires run != [] && |End(run).results| == |before| + |ApplyCalls(s, timeout)|
    ensures var calls := before + ApplyCalls(s, timeout);
      var client, server := Mirror(base, calls, End(run).results, |calls|), End(run).srv.state.s;
      && (forall f :: Get(client, f) == Get(server, f) == Get(s, f))
      && client.timeout == timeout && server.timeout == P.Seconds(WholeSeconds(timeout))
      && (client.timeout == server.timeout <==> timeout % 1_000_000_000 == 0)
  {
    hide *;
    var calls := before + ApplyCalls(s, timeout);
    var client, server := Mirror(base, calls, End(run).results, |calls|), End(run).srv.state.s;
    SettingsMirrored(program, w0, base, calls, run);
    forall f ensures Get(client, f) == Get(server, f) == Get(s, f) {
      AppliedLast(before, s, timeout, f);
      TextAgrees(program.defaults, calls, |calls|, client, server, |before| + PlaceOf(f), f);
    }
    AppliedLast(before, s, timeout, Desc);
    TimeAgrees(program.defaults, calls, |calls|, client, server, |before| + 7);
    SecondsRoundTripIff(timeout);
  }

  lemma TextAgrees(
    defaults: P.Settings, calls: seq<Call>, n: nat, client: P.Settings, server: P.Settings, k: nat, f: TextField)
    requires LastSet(calls, n, k, f) && !ResetIn(calls, k, n) && TextMirrored(defaults, calls, n, client, server, k, f)
    ensures Get(client, f) == Get(server, f) == calls[k].text
  {
  }

  lemma TimeAgrees(
    defaults: P.Settings, calls: seq<Call>, n: nat, client: P.Settings, server: P.Settings, k: nat)
    requires LastTime(calls, n, k) && !ResetIn(calls, k, n) && TimeMirrored(defaults, calls, n, client, server, k)
    ensures client.timeout == calls[k].timeout && server.timeout == P.Seconds(WholeSeconds(calls[k].timeout))
  {
  }

  /** A text set and a Reset after it, on every run that has answered both: the client's
      copy keeps the text, the server has its default again. */
  lemma ResetForgets(
    program: P.Program, w0: P.World, base: P.Settings, text: string, run: seq<State<P.World>>)
    requires Between(program, w0, [Set(Desc, text), Reset], run)
    requires run != [] && |End(run).results| == 2
    ensures var s := End(run);
      && s.results == [Data(""), Data("")]
      && Mirror(base, [Set(Desc, text), Reset], s.results, 2).desc == text
      && s.srv.state.s.desc == program.defaults.desc
  {
    hide *;
    var calls, s := [Set(Desc, text), Reset], End(run);
    SetThenReset(text);
    SettingsMirrored(program, w0, base, calls, run);
    BothAnswered(text, s.results);
    ResetSince(program.defaults, text, Mirror(base, calls, s.results, 2), s.srv.state.s);
  }

  lemma BothAnswered(text: string, results: seq<Answer>)
    requires |results| == 2 && AllOk([Set(Desc, text), Reset], results, 2)
    ensures results == [Data(""), Data("")]
  {
    assert results[0] == Data("") && results[1] == Data("");
  }

  lemma ResetSince(defaults: P.Settings, text: string, client: P.Settings, server: P.Settings)
    requires var calls := [Set(Desc, text), Reset];
      LastSet(calls, 2, 0, Desc) && ResetIn(calls, 0, 2) && TextMirrored(defaults, calls, 2, client, server, 0, Desc)
    ensures client.desc == text && server.desc == defaults.desc
  {
  }

  lemma SetThenReset(text: string)
    ensures var calls := [Set(Desc, text), Reset];
      Distinguished(calls) && LastSet(calls, 2, 0, Desc) && ResetIn(calls, 0, 2)
  {
    var calls := [Set(Desc, text), Reset];
    assert calls[1].Reset?;
  }

  // ---- a rejected OPTION ----

  lemma OptionRejected(program: P.Program, w: P.World)
    ensures SplitOption("foo") == Some(("foo", ""))
    ensures P.SetOpt(w, "foo", "") == (w, Rejected(P.PinError(UNKNOWN_OPTION, "unknown option: foo")))
    ensures RejectsOption(P.PinProto(), Started(program, w), Message("OPTION", "foo"))
  {
    assert forall i :: 0 <= i < 3 ==> IsOptionChar("foo"[i]);
    assert !("default-" <= "foo");
    assert "unknown option: " + "foo" == "unknown option: foo";
  }

  /** After an OPTION the program does not know, the next call gets the OK that was left
      over, and not its own answer. */
  lemma AnswerMisplaced(program: P.Program, w: P.World, order: seq<string>)
    ensures var option, ask := Message("OPTION", "foo"), Message("GETINFO", "flavor");
      var first := Handle(P.PinProto(), Started(program, w), option, order);
      var second := Handle(P.PinProto(), first.srv, ask, order);
      var (answer1, rest) := ReadAnswer(Bytes(first.lines) + Bytes(second.lines), "", true);
      var (answer2, _) := ReadAnswer(rest, "", true);
      && RejectsOption(P.PinProto(), Started(program, w), option)
      && Answers(P.PinProto(), first.srv, ask) == [Data("PinGO (w32)")]
      && answer1.ErrorReply? && answer2 == Data("")
  {
    hide *;
    var srv, e := Started(program, w), P.PinError(UNKNOWN_OPTION, "unknown option: foo");
    var second := Handle(P.PinProto(), srv, Message("GETINFO", "flavor"), order);
    OptionRejected(program, w);
    RejectedLines(program, w, order);
    FlavorAnswer(program, w);
    UnknownFits();
    TwoFinals(e, Bytes(second.lines));
  }

  lemma RejectedLines(program: P.Program, w: P.World, order: seq<string>)
    ensures var first := Handle(P.PinProto(), Started(program, w), Message("OPTION", "foo"), order);
      && first.srv == Started(program, w)
      && first.lines == [LineOf(ErrorMessage(P.PinError(UNKNOWN_OPTION, "unknown option: foo"))), "OK"]
  {
    OptionRejected(program, w);
    UnknownFits();
    BothWritten(P.PinError(UNKNOWN_OPTION, "unknown option: foo"));
    hide WriteSeq, SplitOption, P.SetOpt, P.PinHandlers, RejectsOption;
  }

  lemma BothWritten(e: Error)
    requires ErrorFits(e)
    ensures WriteSeq([ErrorMessage(e), OK]) == ([LineOf(ErrorMessage(e)), "OK"], true)
  {
    FinalLine(ErrorMessage(e));
    FinalLine(OK);
    RejectWrites(e);
    assert LineOf(OK) == "OK" by { CapitalsAreUpper("OK"); }
    assert [ErrorMessage(e), OK][1..] == [OK] && [OK][1..] == [];
    assert Accepts(ErrorMessage(e)) && WriteSeq([OK]) == (["OK"], true);
    assert WriteSeq([ErrorMessage(e), OK]) == ([LineOf(ErrorMessage(e))] + ["OK"], true);
    assert [LineOf(ErrorMessage(e))] + ["OK"] == [LineOf(ErrorMessage(e)), "OK"];
  }

  lemma UnknownFits()
    ensures ErrorFits(P.PinError(UNKNOWN_OPTION, "unknown option: foo"))
  {
    PinErrorFits(P.PinError(UNKNOWN_OPTION, "unknown option: foo"));
  }

  lemma PinErrorFits(e: Error)
    requires |e.message| <= 100 && e.srcName == "pinentry"
    ensures ErrorFits(e)
  {
    SplitPacked(e.src, e.code);
    NumberMatches(MakeErrCode(e.src, e.code) as int);
    LineLength(ErrorMessage(e));
    EscapablesBound(ErrorParams(e));
  }

  lemma FlavorAnswer(program: P.Program, w: P.World)
    ensures Answers(P.PinProto(), Started(program, w), Message("GETINFO", "flavor")) == [Data("PinGO (w32)")]
  {
    var handlers := P.PinHandlers(program);
    assert P.TrimBlanks("flavor") == "flavor";
    assert "GETINFO" in handlers && handlers["GETINFO"](w, "flavor") == P.Run(program, "GETINFO", w, "flavor");
    assert JoinBlocks([Block("PinGO (w32)")]) == "PinGO (w32)" by { assert [Block("PinGO (w32)")][1..] == []; }
  }

  /** An ERR line and an OK line are two answers. */
  lemma TwoFinals(e: Error, tail: string)
    requires ErrorFits(e)
    ensures var (answer, rest) := ReadAnswer(Bytes([LineOf(ErrorMessage(e)), "OK"]) + tail, "", true);
      answer == ErrorReply(ErrorParams(e)) && ReadAnswer(rest, "", true).0 == Data("")
  {
    var line := LineOf(ErrorMessage(e));
    ErrorLineParses(e);
    OkParses();
    FirstLine([line, "OK"], tail);
    FirstLine(["OK"], tail);
    assert [line, "OK"][1..] == ["OK"] && ["OK"][1..] == [] && Bytes([]) + tail == tail by { assert "" + tail == tail; }
    Conclusions(e);
    hide *;
    FinalEnds(line, ErrorMessage(e), Bytes(["OK"]) + tail);
    FinalEnds("OK", OK, tail);
  }

  lemma ErrorLineParses(e: Error)
    requires ErrorFits(e)
    ensures var line := LineOf(ErrorMessage(e));
      Fits(line, MAX_LINE_LEN) && Parse(line) == Parsed(ErrorMessage(e))
  {
    FinalLine(ErrorMessage(e));
    assert Readable([LineOf(ErrorMessage(e))][0]);
    assert ParseAll([LineOf(ErrorMessage(e))])[0] == Parsed(ErrorMessage(e));
  }

  lemma FinalEnds(line: string, m: Message, tail: string)
    requires Fits(line, MAX_LINE_LEN) && Parse(line) == Parsed(m) && Transfer.Final(m)
    ensures ReadAnswer(line + "\n" + tail, "", true) == (Conclude("", m), tail)
  {
    AnswerStep(line, tail, "", true);
  }

  lemma Conclusions(e: Error)
    ensures Transfer.Final(ErrorMessage(e)) && Conclude("", ErrorMessage(e)) == ErrorReply(ErrorParams(e))
    ensures Transfer.Final(OK) && Conclude("", OK) == Data("")
  {
  }
}
