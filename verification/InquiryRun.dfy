/**
 The inquiry exchange as a step system: a handler inside Inquire (assuan/server/inquire.go)
 and a client inside Transact (assuan/client/session.go), over two byte channels in every
 interleaving, for any keywords and any offers.
 */
module InquiryRun {
  import opened Basics
  import opened Client
  import opened Escape
  import opened Inquiry
  import opened Transfer
  import opened Wire

  // ---- the two sides ----

  /** The server inside Inquire and after it: if Inquire collects everything the handler
      returns nil and OK is sent, otherwise it has stopped. */
  datatype ServerPc =
    | Asking(next: nat)
    | Reading(asked: nat, acc: string)
    | Replied
    | Aborted(why: Collected)

  /** The client inside Transact: `lines` are still to be written, then it stops if
      `stop` says so. */
  datatype ClientPc =
    | Listening(rdata: string)
    | Sending(rdata: string, lines: seq<string>, stop: Option<Outcome>)
    | Ended(outcome: Outcome)

  datatype State = State(
    c2s: string, s2c: string,
    server: ServerPc, res: map<string, string>,
    client: ClientPc, offers: Offers)

  ghost predicate Initial(offers: Offers, s: State) {
    s == State("", "", Asking(0), map[], Listening(""), offers)
  }

  /** A question too long for WriteLine is not written, and Inquire returns its error. */
  function AfterAsking(keywords: seq<string>, s: State, i: nat): State
    requires i < |keywords|
  {
    if Accepts(Question(keywords[i])) then
      s.(s2c := s.s2c + LineOf(Question(keywords[i])) + "\n", server := Reading(i, ""))
    else s.(server := Aborted(TooLongToAsk))
  }

  ghost predicate ServerAsks(keywords: seq<string>, s: State, t: State) {
    s.server.Asking? && s.server.next < |keywords| && t == AfterAsking(keywords, s, s.server.next)
  }

  ghost predicate ServerReplies(keywords: seq<string>, s: State, t: State) {
    && s.server == Asking(|keywords|)
    && t == s.(s2c := s.s2c + "OK" + "\n", server := Replied)
  }

  function AfterTaken(keywords: seq<string>, s: State, m: Message, rest: string): State
    requires s.server.Reading? && s.server.asked < |keywords|
  {
    match Take(s.server.acc, m)
    case More(acc) => s.(c2s := rest, server := Reading(s.server.asked, acc))
    case Over(Payload(bytes)) =>
      s.(c2s := rest, server := Asking(s.server.asked + 1), res := s.res[keywords[s.server.asked] := bytes])
    case Over(why) => s.(c2s := rest, server := Aborted(Failed(why)))
  }

  ghost predicate ServerReads(keywords: seq<string>, s: State, t: State) {
    && s.server.Reading? && s.server.asked < |keywords|
    && var r := ReadLine(s.c2s, false, MAX_LINE_LEN);
    && (r.Fail? ==> r.fault != Blocked && t == s.(c2s := r.rest, server := Aborted(Failed(Interrupted(r.fault)))))
    && (r.Got? ==> t == AfterTaken(keywords, s, r.message, r.rest))
  }

  /** A client with nothing left to write listens again or ends. */
  function Settle(rdata: string, lines: seq<string>, stop: Option<Outcome>): ClientPc {
    if lines != [] then Sending(rdata, lines, stop)
    else if stop.Some? then Ended(stop.value)
    else Listening(rdata)
  }

  function AfterHeard(s: State, m: Message, rest: string): State
    requires s.client.Listening?
  {
    var rdata := s.client.rdata;
    if m.cmd == "INQUIRE" then
      var (lines, stop) := Respond(s.offers, m.params);
      s.(s2c := rest, client := Settle(rdata, lines, stop), offers := Consume(s.offers, m.params))
    else if Final(m) then s.(s2c := rest, client := Ended(Answered(Conclude(rdata, m))))
    else s.(s2c := rest, client := Listening(Absorb(rdata, m)))
  }

  ghost predicate ClientReads(s: State, t: State) {
    && s.client.Listening?
    && var r := ReadLine(s.s2c, false, MAX_LINE_LEN);
    && (r.Fail? ==> r.fault != Blocked && t == s.(s2c := r.rest, client := Ended(Answered(Broken(r.fault)))))
    && (r.Got? ==> t == AfterHeard(s, r.message, r.rest))
  }

  ghost predicate ClientWrites(s: State, t: State) {
    && s.client.Sending? && s.client.lines != []
    && t == s.(c2s := s.c2s + s.client.lines[0] + "\n",
               client := Settle(s.client.rdata, s.client.lines[1..], s.client.stop))
  }

  ghost predicate Next(keywords: seq<string>, s: State, t: State) {
    || ServerAsks(keywords, s, t)
    || ServerReplies(keywords, s, t)
    || ServerReads(keywords, s, t)
    || ClientReads(s, t)
    || ClientWrites(s, t)
  }

  ghost predicate IsRun(keywords: seq<string>, offers: Offers, run: seq<State>) {
    && run != [] && Initial(offers, run[0])
    && forall i {:trigger Next(keywords, run[i], run[i + 1])} :: 0 <= i < |run| - 1 ==>
         Next(keywords, run[i], run[i + 1])
  }

  // ---- how an exchange can end ----

  /** The offer for keyword i when it is asked for. */
  function OfferAt(keywords: seq<string>, offers: Offers, i: nat): Value
    requires i < |keywords|
  {
    OfferAfter(offers, keywords[..i], keywords[i])
  }

  predicate Heard(k: string) { |LineOf(Question(k))| + 1 <= MAX_LINE_LEN }

  /** Keyword i is asked for, heard and offered, and something arrives. */
  predicate Serves(keywords: seq<string>, offers: Offers, i: nat)
    requires i < |keywords|
  {
    && Accepts(Question(keywords[i])) && Heard(keywords[i])
    && keywords[i] in offers && Arrives(OfferAt(keywords, offers, i)).Some?
  }

  ghost predicate ServesBefore(keywords: seq<string>, offers: Offers, i: nat) {
    i <= |keywords| && forall j :: 0 <= j < i ==> Serves(keywords, offers, j)
  }

  ghost predicate FirstFailure(keywords: seq<string>, offers: Offers, i: nat) {
    i < |keywords| && ServesBefore(keywords, offers, i) && !Serves(keywords, offers, i)
  }

  ghost predicate Quiet(s: State) { s.c2s == "" && s.s2c == "" }

  /** Where the exchange stops at a keyword that is not served. */
  ghost predicate EndsAt(keywords: seq<string>, offers: Offers, s: State, i: nat)
    requires i < |keywords|
  {
    var k, v := keywords[i], OfferAt(keywords, offers, i);
    if !Accepts(Question(k)) then
      // too long to ask: Inquire gives up, the client waits
      Quiet(s) && s.server == Aborted(TooLongToAsk) && s.client == Listening("")
    else if !Heard(k) then
      // the client cannot read the question, the server waits for the answer
      && s.c2s == "" && s.s2c == LineOf(Question(k)) + "\n"
      && s.server == Reading(i, "") && s.client == Ended(Answered(Broken(TooLong)))
    else if k !in offers then
      // both sides know
      Quiet(s) && s.server == Aborted(Failed(Cancelled)) && s.client == Ended(Missing(k))
    else if ValueLines(v).None? then
      // the client gives up without a word, the server waits
      Quiet(s) && s.server == Reading(i, "") && s.client == Ended(BadOffer(k))
    else
      // the server gives up without a word on unread lines, the client waits
      && s.s2c == "" && s.c2s == Bytes(Arrival(v).unread)
      && s.server == Aborted(Failed(Arrival(v).received)) && s.client == Listening("")
  }

  /** All keywords are served: both sides are done. */
  ghost predicate EndsWell(keywords: seq<string>, offers: Offers, s: State) {
    && Quiet(s) && s.server == Replied && s.client == Ended(Answered(Data("")))
    && s.res == Gathered(offers, keywords)
  }

  // ---- where a run can be ----

  datatype Phase =
    | Ask(i: nat)        // keyword i is next, or the reply if there is none
    | Asked(i: nat)      // its question is on the way
    | Moving(i: nat, inflight: seq<string>, left: seq<string>)    // lines in the channel, lines to write
    | Spoiled(i: nat, inflight: seq<string>, left: seq<string>)   // the server has given up, the client writes on
    | Giving(i: nat, written: bool)   // keyword i is missing: CAN to be written or on the way
    | Stopped(i: nat)
    | Replying
    | Finished

  /** The first `i` keywords are served; the server has what has arrived. */
  ghost predicate DoneUpTo(keywords: seq<string>, offers: Offers, s: State, i: nat) {
    ServesBefore(keywords, offers, i) && s.res == Gathered(offers, keywords[..i])
  }

  /** Data lines on the move: reading the rest of them, after what has been read, comes to
      what reading all of them would. */
  ghost predicate Flow(v: Value, acc: string, lines: seq<string>) {
    ValueLines(v).Some? && Stream(lines) && Receive(acc, lines) == Arrival(v)
  }

  ghost predicate OfferSent(keywords: seq<string>, offers: Offers, i: nat) {
    && i < |keywords| && Accepts(Question(keywords[i])) && Heard(keywords[i]) && keywords[i] in offers
    && ValueLines(OfferAt(keywords, offers, i)).Some?
  }

  ghost predicate InMoving(
    keywords: seq<string>, offers: Offers, s: State, i: nat, inflight: seq<string>, left: seq<string>)
  {
    && OfferSent(keywords, offers, i) && DoneUpTo(keywords, offers, s, i)
    && s.offers == OffersAfter(offers, keywords[..i + 1])
    && s.s2c == "" && s.client == Settle("", left, None)
    && s.server.Reading? && s.server.asked == i && s.c2s == Bytes(inflight)
    && Flow(OfferAt(keywords, offers, i), s.server.acc, inflight + left)
  }

  ghost predicate InSpoiled(
    keywords: seq<string>, offers: Offers, s: State, i: nat, inflight: seq<string>, left: seq<string>)
  {
    && FirstFailure(keywords, offers, i) && OfferSent(keywords, offers, i)
    && var arrival := Arrival(OfferAt(keywords, offers, i));
    && s.s2c == "" && s.client == Settle("", left, None)
    && s.server == Aborted(Failed(arrival.received))
    && s.c2s == Bytes(inflight) && inflight + left == arrival.unread
  }

  ghost predicate Holds(keywords: seq<string>, offers: Offers, s: State, phase: Phase) {
    match phase
    case Ask(i) =>
      && DoneUpTo(keywords, offers, s, i) && s.offers == OffersAfter(offers, keywords[..i])
      && Quiet(s) && s.server == Asking(i) && s.client == Listening("")
    case Asked(i) =>
      && i < |keywords| && DoneUpTo(keywords, offers, s, i) && s.offers == OffersAfter(offers, keywords[..i])
      && Accepts(Question(keywords[i])) && s.c2s == "" && s.s2c == LineOf(Question(keywords[i])) + "\n"
      && s.server == Reading(i, "") && s.client == Listening("")
    case Moving(i, inflight, left) => InMoving(keywords, offers, s, i, inflight, left)
    case Spoiled(i, inflight, left) => left != [] && InSpoiled(keywords, offers, s, i, inflight, left)
    case Giving(i, written) =>
      && FirstFailure(keywords, offers, i)
      && Accepts(Question(keywords[i])) && Heard(keywords[i]) && keywords[i] !in offers
      && s.s2c == "" && s.server == Reading(i, "")
      && s.c2s == (if written then "CAN" + "\n" else "")
      && s.client == if written then Ended(Missing(keywords[i])) else Sending("", ["CAN"], Some(Missing(keywords[i])))
    case Stopped(i) => FirstFailure(keywords, offers, i) && EndsAt(keywords, offers, s, i)
    case Replying =>
      && DoneUpTo(keywords, offers, s, |keywords|)
      && s.c2s == "" && s.s2c == "OK" + "\n" && s.server == Replied && s.client == Listening("")
    case Finished => ServesBefore(keywords, offers, |keywords|) && EndsWell(keywords, offers, s)
  }

  // ---- the measure ----

  /** Lines sent for keyword i, END included. */
  function LinesFor(keywords: seq<string>, offers: Offers, i: nat): nat
    requires i < |keywords|
  {
    match ValueLines(OfferAt(keywords, offers, i))
    case None => 1
    case Some(lines) => |lines| + 1
  }

  /** A bound on the steps for the keywords from i on. */
  function Work(keywords: seq<string>, offers: Offers, i: nat): nat
    decreases |keywords| - i
  {
    if i >= |keywords| then 0 else Work(keywords, offers, i + 1) + 2 * LinesFor(keywords, offers, i) + 4
  }

  function Rank(keywords: seq<string>, offers: Offers, phase: Phase): nat {
    match phase
    case Ask(i) => Work(keywords, offers, i) + 3
    case Asked(i) => Work(keywords, offers, i) + 2
    case Moving(i, inflight, left) => Work(keywords, offers, i + 1) + 2 * |left| + |inflight| + 3
    case Spoiled(i, _, left) => |left|
    case Giving(i, written) => if written then 1 else 2
    case Stopped(_) => 0
    case Replying => 1
    case Finished => 0
  }

  // ---- reading ----

  lemma NothingToRead()
    ensures ReadLine("", false, MAX_LINE_LEN) == Fail(Blocked, "")
  {
  }

  lemma BareWord(word: string)
    requires word in ["OK", "CAN"]
    ensures ReadLine(word + "\n", false, MAX_LINE_LEN) == Got(Message(word, ""), "")
  {
    CleanBareLine(word);
    assert ToUpper("OK") == "OK" && ToUpper("CAN") == "CAN";
    ReadOneLine(word, "", false, MAX_LINE_LEN);
    assert word + "\n" + "" == word + "\n";
  }

  lemma QuestionRead(k: string)
    ensures ReadLine(LineOf(Question(k)) + "\n", false, MAX_LINE_LEN)
         == if Heard(k) then Got(Question(k), "") else Fail(TooLong, LineOf(Question(k)) + "\n")
  {
    hide *;
    QuestionSendable(k);
    WriteReadIff(Question(k), "", false, MAX_LINE_LEN);
    assert LineOf(Question(k)) + "\n" + "" == LineOf(Question(k)) + "\n";
  }

  lemma QuestionSendable(k: string)
    ensures CleanCommand(Question(k).cmd) && !Unseen(Question(k)) && Upper(Question(k)) == Question(k)
    ensures Heard(k) <==> |LineOf(Question(k))| + 1 <= MAX_LINE_LEN
  {
    InquireIsUpper();
    hide ToUpper, LineOf;
  }

  lemma InquireIsUpper()
    ensures ToUpper("INQUIRE") == "INQUIRE"
  {
  }

  lemma NothingTaken(keywords: seq<string>, s: State, t: State)
    requires s.c2s == ""
    ensures !ServerReads(keywords, s, t)
  {
    NothingToRead();
  }

  lemma NothingHeard(s: State, t: State)
    requires s.s2c == ""
    ensures !ClientReads(s, t)
  {
    NothingToRead();
  }

  lemma HeardOnly(s: State, t: State, m: Message, rest: string)
    requires s.client.Listening? && ReadLine(s.s2c, false, MAX_LINE_LEN) == Got(m, rest)
    ensures ClientReads(s, t) <==> t == AfterHeard(s, m, rest)
  {
  }

  lemma TakenOnly(keywords: seq<string>, s: State, t: State, m: Message, rest: string)
    requires s.server.Reading? && s.server.asked < |keywords|
    requires ReadLine(s.c2s, false, MAX_LINE_LEN) == Got(m, rest)
    ensures ServerReads(keywords, s, t) <==> t == AfterTaken(keywords, s, m, rest)
  {
  }

  /** The server's step on the first line in the channel. */
  function AfterLine(keywords: seq<string>, s: State, inflight: seq<string>): State
    requires s.server.Reading? && s.server.asked < |keywords| && inflight != []
  {
    match TakeLine(s.server.acc, inflight[0])
    case Overlong => s.(server := Aborted(Failed(Interrupted(TooLong))))
    case Goes(acc) => s.(c2s := Bytes(inflight[1..]), server := Reading(s.server.asked, acc))
    case Stops(Payload(bytes)) =>
      s.(c2s := Bytes(inflight[1..]), server := Asking(s.server.asked + 1),
         res := s.res[keywords[s.server.asked] := bytes])
    case Stops(why) => s.(c2s := Bytes(inflight[1..]), server := Aborted(Failed(why)))
  }

  lemma FailsOnly(keywords: seq<string>, s: State, t: State, fault: Fault, rest: string)
    requires s.server.Reading? && s.server.asked < |keywords| && fault != Blocked
    requires ReadLine(s.c2s, false, MAX_LINE_LEN) == Fail(fault, rest)
    ensures ServerReads(keywords, s, t) <==> t == s.(c2s := rest, server := Aborted(Failed(Interrupted(fault))))
  {
  }

  lemma MessageTaken(keywords: seq<string>, s: State, inflight: seq<string>, m: Message)
    requires s.server.Reading? && s.server.asked < |keywords| && inflight != []
    requires |inflight[0]| < MAX_LINE_LEN && Parse(inflight[0]) == Parsed(m)
    ensures AfterTaken(keywords, s, m, Bytes(inflight[1..])) == AfterLine(keywords, s, inflight)
  {
    hide Parse, Take, Bytes;
  }

  lemma Unreadable(keywords: seq<string>, s: State, inflight: seq<string>)
    requires s.server.Reading? && s.server.asked < |keywords| && inflight != [] && s.c2s == Bytes(inflight)
    ensures |inflight[0]| >= MAX_LINE_LEN ==>
      AfterLine(keywords, s, inflight) == s.(c2s := Bytes(inflight), server := Aborted(Failed(Interrupted(TooLong))))
    ensures |inflight[0]| < MAX_LINE_LEN && Parse(inflight[0]).Malformed? ==>
      AfterLine(keywords, s, inflight)
        == s.(c2s := Bytes(inflight[1..]), server := Aborted(Failed(Interrupted(BadEscape))))
  {
    hide Parse, Bytes;
  }

  lemma LineTaken(keywords: seq<string>, s: State, t: State, inflight: seq<string>)
    requires s.server.Reading? && s.server.asked < |keywords| && inflight != []
    requires s.c2s == Bytes(inflight) && Sound(inflight[0])
    ensures ServerReads(keywords, s, t) <==> t == AfterLine(keywords, s, inflight)
  {
    var line, rest := inflight[0], Bytes(inflight[1..]);
    assert s.c2s == line + "\n" + rest && !Parse(line).Skipped?;
    hide *;
    SoundRead(line, rest);
    Unreadable(keywords, s, inflight);
    if |line| >= MAX_LINE_LEN {
      FailsOnly(keywords, s, t, TooLong, Bytes(inflight));
    } else if Parse(line).Malformed? {
      FailsOnly(keywords, s, t, BadEscape, rest);
    } else {
      MessageTaken(keywords, s, inflight, Parse(line).message);
      TakenOnly(keywords, s, t, Parse(line).message, rest);
    }
  }

  // ---- asking ----

  lemma OnlyAsks(keywords: seq<string>, s: State, t: State, i: nat)
    requires Next(keywords, s, t) && s.server == Asking(i) && i <= |keywords| && s.client == Listening("") && Quiet(s)
    ensures i < |keywords| ==> t == AfterAsking(keywords, s, i)
    ensures i == |keywords| ==> t == s.(s2c := "OK" + "\n", server := Replied)
  {
    NothingHeard(s, t);
    assert "" + "OK" + "\n" == "OK" + "\n";
    hide ReadLine, AfterAsking;
  }

  lemma AskFacts(keywords: seq<string>, offers: Offers, s: State, i: nat)
    requires Holds(keywords, offers, s, Ask(i))
    ensures i <= |keywords| && DoneUpTo(keywords, offers, s, i) && s.offers == OffersAfter(offers, keywords[..i])
    ensures Quiet(s) && s.server == Asking(i) && s.client == Listening("")
  {
  }

  lemma QuestionWritten(keywords: seq<string>, offers: Offers, s: State, i: nat)
    requires i < |keywords| && Holds(keywords, offers, s, Ask(i)) && Accepts(Question(keywords[i]))
    ensures Holds(keywords, offers, AfterAsking(keywords, s, i), Asked(i))
  {
    hide Gathered, OffersAfter, ServesBefore, LineOf;
    assert "" + LineOf(Question(keywords[i])) + "\n" == LineOf(Question(keywords[i])) + "\n";
  }

  lemma QuestionRefused(keywords: seq<string>, offers: Offers, s: State, i: nat)
    requires i < |keywords| && Holds(keywords, offers, s, Ask(i)) && !Accepts(Question(keywords[i]))
    ensures Holds(keywords, offers, AfterAsking(keywords, s, i), Stopped(i))
  {
    hide Gathered, OffersAfter, OfferAt, Arrives, Arrival, ValueLines, LineOf;
  }

  lemma ReplySent(keywords: seq<string>, offers: Offers, s: State)
    requires Holds(keywords, offers, s, Ask(|keywords|))
    ensures Holds(keywords, offers, s.(s2c := "OK" + "\n", server := Replied), Replying)
  {
    hide Gathered, OffersAfter, ServesBefore;
  }

  lemma RankOfAsk(keywords: seq<string>, offers: Offers, i: nat)
    ensures Rank(keywords, offers, Asked(i)) < Rank(keywords, offers, Ask(i))
    ensures Rank(keywords, offers, Stopped(i)) < Rank(keywords, offers, Ask(i))
    ensures Rank(keywords, offers, Replying) < Rank(keywords, offers, Ask(i))
    ensures Rank(keywords, offers, Stopped(i)) < Rank(keywords, offers, Asked(i))
    ensures i < |keywords| ==> Rank(keywords, offers, Giving(i, false)) < Rank(keywords, offers, Asked(i))
  {
    hide LinesFor;
  }

  lemma StepAsk(keywords: seq<string>, offers: Offers, s: State, t: State, i: nat) returns (phase: Phase)
    requires Holds(keywords, offers, s, Ask(i)) && Next(keywords, s, t)
    ensures Holds(keywords, offers, t, phase)
    ensures Rank(keywords, offers, phase) < Rank(keywords, offers, Ask(i))
  {
    hide *;
    AskFacts(keywords, offers, s, i);
    OnlyAsks(keywords, s, t, i);
    RankOfAsk(keywords, offers, i);
    if i == |keywords| {
      phase := Replying;
      ReplySent(keywords, offers, s);
    } else if Accepts(Question(keywords[i])) {
      phase := Asked(i);
      QuestionWritten(keywords, offers, s, i);
    } else {
      phase := Stopped(i);
      QuestionRefused(keywords, offers, s, i);
    }
  }

  // ---- the question ----

  /** The only step is the client's: it hears the question, or cannot. */
  lemma AskedIsHeard(keywords: seq<string>, s: State, t: State, i: nat)
    requires i < |keywords| && s.server == Reading(i, "") && s.client == Listening("")
    requires s.c2s == "" && s.s2c == LineOf(Question(keywords[i])) + "\n"
    requires Next(keywords, s, t)
    ensures t == if Heard(keywords[i]) then AfterHeard(s, Question(keywords[i]), "")
                 else s.(client := Ended(Answered(Broken(TooLong))))
  {
    QuestionRead(keywords[i]);
    NothingTaken(keywords, s, t);
    assert s.(s2c := s.s2c) == s;
    hide ReadLine, AfterHeard;
  }

  lemma ConsumedNext(keywords: seq<string>, offers: Offers, i: nat)
    requires i < |keywords|
    ensures OffersAfter(offers, keywords[..i + 1]) == Consume(OffersAfter(offers, keywords[..i]), keywords[i])
  {
    assert keywords[..i + 1][..i] == keywords[..i];
  }

  /** What an offered keyword makes of the client. */
  lemma OfferResponse(keywords: seq<string>, offers: Offers, i: nat)
    requires i < |keywords|
    ensures var k, v := keywords[i], OfferAt(keywords, offers, i);
      Respond(OffersAfter(offers, keywords[..i]), k)
        == if k !in offers then (["CAN"], Some(Missing(k)))
           else if ValueLines(v).None? then ([], Some(BadOffer(k)))
           else (OfferLines(v), None)
  {
    OffersAfterAre(offers, keywords[..i]);
    hide OffersAfter, ValueLines;
  }

  lemma AfterQuestion(keywords: seq<string>, offers: Offers, s: State, i: nat)
    requires i < |keywords| && s.offers == OffersAfter(offers, keywords[..i]) && s.client == Listening("")
    ensures var (lines, stop) := Respond(s.offers, keywords[i]);
      AfterHeard(s, Question(keywords[i]), "")
        == s.(s2c := "", client := Settle("", lines, stop), offers := OffersAfter(offers, keywords[..i + 1]))
  {
    ConsumedNext(keywords, offers, i);
  }

  lemma NotServed(keywords: seq<string>, offers: Offers, s: State, i: nat)
    requires i < |keywords| && DoneUpTo(keywords, offers, s, i) && !Serves(keywords, offers, i)
    ensures FirstFailure(keywords, offers, i)
  {
  }

  lemma AskedFacts(keywords: seq<string>, offers: Offers, s: State, i: nat)
    requires Holds(keywords, offers, s, Asked(i))
    ensures i < |keywords| && DoneUpTo(keywords, offers, s, i) && s.offers == OffersAfter(offers, keywords[..i])
    ensures Accepts(Question(keywords[i])) && s.c2s == "" && s.s2c == LineOf(Question(keywords[i])) + "\n"
    ensures s.server == Reading(i, "") && s.client == Listening("")
  {
  }

  lemma NotHeard(keywords: seq<string>, offers: Offers, s: State, i: nat)
    requires Holds(keywords, offers, s, Asked(i)) && !Heard(keywords[i])
    ensures Holds(keywords, offers, s.(client := Ended(Answered(Broken(TooLong)))), Stopped(i))
  {
    hide Gathered, OffersAfter, OfferAt, Arrives, Arrival, ValueLines, LineOf, Heard;
  }

  /** The states the client's answer to a question it has heard leads to. */
  lemma NotOffered(keywords: seq<string>, offers: Offers, s: State, i: nat, later: Offers)
    requires Holds(keywords, offers, s, Asked(i)) && Heard(keywords[i]) && keywords[i] !in offers
    ensures Holds(keywords, offers,
                  s.(s2c := "", client := Settle("", ["CAN"], Some(Missing(keywords[i]))), offers := later),
                  Giving(i, false))
  {
    hide Gathered, OffersAfter, OfferAt, Arrives, LineOf, Heard;
  }

  lemma NotUsable(keywords: seq<string>, offers: Offers, s: State, i: nat, later: Offers)
    requires Holds(keywords, offers, s, Asked(i)) && Heard(keywords[i]) && keywords[i] in offers
    requires ValueLines(OfferAt(keywords, offers, i)).None?
    ensures Holds(keywords, offers,
                  s.(s2c := "", client := Settle("", [], Some(BadOffer(keywords[i]))), offers := later), Stopped(i))
  {
    hide *;
    AskedFacts(keywords, offers, s, i);
    NoLinesNoArrival(OfferAt(keywords, offers, i));
    NothingArrives(keywords, offers, i);
    NotServed(keywords, offers, s, i);
    UnusableEnds(keywords, offers, s, i, later);
  }

  lemma NothingArrives(keywords: seq<string>, offers: Offers, i: nat)
    requires i < |keywords| && Arrives(OfferAt(keywords, offers, i)).None?
    ensures !Serves(keywords, offers, i)
  {
  }

  lemma UnusableEnds(keywords: seq<string>, offers: Offers, s: State, i: nat, later: Offers)
    requires FirstFailure(keywords, offers, i) && Accepts(Question(keywords[i])) && Heard(keywords[i])
    requires keywords[i] in offers && ValueLines(OfferAt(keywords, offers, i)).None?
    requires s.c2s == "" && s.server == Reading(i, "")
    ensures Holds(keywords, offers,
                  s.(s2c := "", client := Settle("", [], Some(BadOffer(keywords[i]))), offers := later), Stopped(i))
  {
    hide OfferAt, ValueLines, Heard, Accepts, ServesBefore, Serves, LineOf, Arrival;
  }

  lemma Usable(keywords: seq<string>, offers: Offers, s: State, i: nat)
    requires Holds(keywords, offers, s, Asked(i)) && Heard(keywords[i]) && keywords[i] in offers
    requires ValueLines(OfferAt(keywords, offers, i)).Some?
    ensures var lines := OfferLines(OfferAt(keywords, offers, i));
      Holds(keywords, offers,
            s.(s2c := "", client := Settle("", lines, None), offers := OffersAfter(offers, keywords[..i + 1])),
            Moving(i, [], lines))
  {
    hide *;
    AskedFacts(keywords, offers, s, i);
    FlowStarts(OfferAt(keywords, offers, i));
    MovingStarts(keywords, offers, s, i, OfferLines(OfferAt(keywords, offers, i)));
  }

  lemma MovingStarts(keywords: seq<string>, offers: Offers, s: State, i: nat, lines: seq<string>)
    requires i < |keywords| && DoneUpTo(keywords, offers, s, i) && keywords[i] in offers
    requires Accepts(Question(keywords[i])) && Heard(keywords[i])
    requires s.c2s == "" && s.server == Reading(i, "")
    requires Flow(OfferAt(keywords, offers, i), "", [] + lines) && Bytes([]) == ""
    ensures Holds(keywords, offers,
                  s.(s2c := "", client := Settle("", lines, None), offers := OffersAfter(offers, keywords[..i + 1])),
                  Moving(i, [], lines))
  {
    hide Gathered, OffersAfter, OfferAt, LineOf, Heard, ServesBefore, Settle, Stream, Bytes, Accepts, ValueLines;
  }

  lemma StepAsked(keywords: seq<string>, offers: Offers, s: State, t: State, i: nat) returns (phase: Phase)
    requires Holds(keywords, offers, s, Asked(i)) && Next(keywords, s, t)
    ensures Holds(keywords, offers, t, phase)
    ensures Rank(keywords, offers, phase) < Rank(keywords, offers, Asked(i))
  {
    hide *;
    AskedFacts(keywords, offers, s, i);
    AskedIsHeard(keywords, s, t, i);
    RankOfAsk(keywords, offers, i);
    var k, v, later := keywords[i], OfferAt(keywords, offers, i), OffersAfter(offers, keywords[..i + 1]);
    if !Heard(k) {
      phase := Stopped(i);
      NotHeard(keywords, offers, s, i);
    } else {
      AfterQuestion(keywords, offers, s, i);
      OfferResponse(keywords, offers, i);
      if k !in offers {
        phase := Giving(i, false);
        NotOffered(keywords, offers, s, i, later);
      } else if ValueLines(v).None? {
        phase := Stopped(i);
        NotUsable(keywords, offers, s, i, later);
      } else {
        phase := Moving(i, [], OfferLines(v));
        Usable(keywords, offers, s, i);
        RankOfMoving(keywords, offers, i);
      }
    }
  }

  lemma NoLinesNoArrival(v: Value)
    requires ValueLines(v).None?
    ensures Arrives(v).None?
  {
  }

  lemma FlowStarts(v: Value)
    requires ValueLines(v).Some?
    ensures Flow(v, "", [] + OfferLines(v)) && Bytes([]) == ""
  {
    OfferStreams(v);
    assert [] + OfferLines(v) == OfferLines(v);
  }

  lemma RankOfMoving(keywords: seq<string>, offers: Offers, i: nat)
    requires i < |keywords| && ValueLines(OfferAt(keywords, offers, i)).Some?
    ensures Rank(keywords, offers, Moving(i, [], OfferLines(OfferAt(keywords, offers, i))))
          < Rank(keywords, offers, Asked(i))
  {
    hide OfferAt, ValueLines;
  }

  // ---- the lines ----

  /** The client writes one more of its lines. */
  lemma LinesMove(c2s: string, inflight: seq<string>, left: seq<string>)
    requires c2s == Bytes(inflight) && left != []
    ensures c2s + left[0] + "\n" == Bytes(inflight + [left[0]])
    ensures (inflight + [left[0]]) + left[1..] == inflight + left
  {
    WriteBytes(inflight, left[0]);
    MoveFirst(inflight, left);
  }

  lemma HeadTail(a: seq<string>, b: seq<string>)
    requires a != []
    ensures (a + b)[0] == a[0] && (a + b)[1..] == a[1..] + b
  {
  }

  /** The server's reading of one line, on values. */
  lemma FlowTakes(v: Value, acc: string, inflight: seq<string>, left: seq<string>)
    requires Flow(v, acc, inflight + left) && inflight != []
    ensures Sound(inflight[0])
    ensures match TakeLine(acc, inflight[0])
            case Overlong => Arrival(v) == Reception(Interrupted(TooLong), inflight + left)
            case Goes(joined) => Flow(v, joined, inflight[1..] + left)
            case Stops(Payload(bytes)) =>
              Arrives(v) == Some(bytes) && Arrived(v) == bytes && inflight == ["END"] && left == []
            case Stops(why) => Arrival(v) == Reception(why, inflight[1..] + left) && Arrives(v).None?
  {
    var lines := inflight + left;
    HeadTail(inflight, left);
    StreamStep(acc, lines);
    hide TakeLine, Stream, Arrival, Sound, Parse;
    match TakeLine(acc, inflight[0]) {
      case Overlong =>
      case Goes(_) =>
      case Stops(Payload(_)) =>
        assert |lines| == 1 && lines == [lines[0]];
        EndIsLast(acc, lines);
      case Stops(_) =>
    }
  }

  lemma EndIsLast(acc: string, lines: seq<string>)
    requires Stream(lines) && |lines| == 1
    ensures lines == ["END"]
  {
  }

  lemma OverlongNotArriving(v: Value, lines: seq<string>)
    requires ValueLines(v).Some? && Arrival(v) == Reception(Interrupted(TooLong), lines)
    ensures Arrives(v).None?
  {
  }

  lemma MovingSteps(
    keywords: seq<string>, offers: Offers, s: State, t: State, i: nat, inflight: seq<string>, left: seq<string>)
    requires Next(keywords, s, t) && InMoving(keywords, offers, s, i, inflight, left)
    ensures ClientWrites(s, t) || (inflight != [] && ServerReads(keywords, s, t))
  {
    NothingHeard(s, t);
    if inflight == [] { NothingTaken(keywords, s, t); }
    hide ReadLine, ServerReads, ClientReads;
  }

  lemma StepWrites(
    keywords: seq<string>, offers: Offers, s: State, t: State, i: nat, inflight: seq<string>, left: seq<string>)
    requires ClientWrites(s, t) && InMoving(keywords, offers, s, i, inflight, left)
    ensures left != [] && Holds(keywords, offers, t, Moving(i, inflight + [left[0]], left[1..]))
    ensures Rank(keywords, offers, Moving(i, inflight + [left[0]], left[1..]))
          < Rank(keywords, offers, Moving(i, inflight, left))
  {
    hide Gathered, OffersAfter, Flow, OfferAt, ServesBefore, OfferSent;
    assert left != [];
    LinesMove(s.c2s, inflight, left);
  }

  /** One of the phases the server's step leads to. */
  function PhaseAfter(acc: string, i: nat, inflight: seq<string>, left: seq<string>): Phase
    requires inflight != []
  {
    match TakeLine(acc, inflight[0])
    case Overlong => if left == [] then Stopped(i) else Spoiled(i, inflight, left)
    case Goes(_) => Moving(i, inflight[1..], left)
    case Stops(Payload(_)) => Ask(i + 1)
    case Stops(_) => if left == [] then Stopped(i) else Spoiled(i, inflight[1..], left)
  }

  lemma RankFalls(keywords: seq<string>, offers: Offers, acc: string, i: nat, inflight: seq<string>, left: seq<string>)
    requires inflight != []
    ensures Rank(keywords, offers, PhaseAfter(acc, i, inflight, left))
          < Rank(keywords, offers, Moving(i, inflight, left))
  {
    hide TakeLine;
  }

  lemma ServesNext(keywords: seq<string>, offers: Offers, i: nat)
    requires OfferSent(keywords, offers, i) && ServesBefore(keywords, offers, i)
    requires Arrives(OfferAt(keywords, offers, i)).Some?
    ensures ServesBefore(keywords, offers, i + 1)
  {
    assert Serves(keywords, offers, i);
    hide Serves;
  }

  lemma GatheredNext(keywords: seq<string>, offers: Offers, i: nat, bytes: string)
    requires i < |keywords| && Arrives(OfferAt(keywords, offers, i)) == Some(bytes)
    ensures Gathered(offers, keywords[..i + 1]) == Gathered(offers, keywords[..i])[keywords[i] := bytes]
  {
    GatheredStep(offers, keywords[..i], keywords[i]);
    hide Gathered, Arrives;
    assert keywords[..i + 1] == keywords[..i] + [keywords[i]];
  }

  /** A keyword that arrives is done. */
  lemma DoneNext(keywords: seq<string>, offers: Offers, s: State, i: nat, bytes: string)
    requires OfferSent(keywords, offers, i) && DoneUpTo(keywords, offers, s, i)
    requires Arrives(OfferAt(keywords, offers, i)) == Some(bytes)
    ensures var res := s.res[keywords[i] := bytes];
      DoneUpTo(keywords, offers, s.(c2s := "", server := Asking(i + 1), res := res), i + 1)
  {
    ServesNext(keywords, offers, i);
    GatheredNext(keywords, offers, i, bytes);
    hide Gathered, Arrives, ServesBefore;
  }

  /** The server gives up on the lines: a client with more of them is to write them. */
  lemma GivesUp(
    keywords: seq<string>, offers: Offers, s: State, t: State, i: nat,
    inflight: seq<string>, left: seq<string>, kept: seq<string>)
    requires InMoving(keywords, offers, s, i, inflight, left)
    requires Arrives(OfferAt(keywords, offers, i)).None?
    requires Arrival(OfferAt(keywords, offers, i)).unread == kept + left
    requires t == s.(c2s := Bytes(kept), server := Aborted(Failed(Arrival(OfferAt(keywords, offers, i)).received)))
    ensures Holds(keywords, offers, t, if left == [] then Stopped(i) else Spoiled(i, kept, left))
  {
    hide *;
    MovingFacts(keywords, offers, s, i, inflight, left);
    NothingArrives(keywords, offers, i);
    NotServed(keywords, offers, s, i);
    if left == [] {
      assert kept + left == kept;
      Stranded(keywords, offers, t, i);
    } else {
      assert InSpoiled(keywords, offers, t, i, kept, left) by { SpoiledStarts(keywords, offers, s, t, i, kept, left); }
      SpoiledHolds(keywords, offers, t, i, kept, left);
    }
  }

  lemma Stranded(keywords: seq<string>, offers: Offers, t: State, i: nat)
    requires FirstFailure(keywords, offers, i) && OfferSent(keywords, offers, i)
    requires var arrival := Arrival(OfferAt(keywords, offers, i));
      && t.s2c == "" && t.c2s == Bytes(arrival.unread)
      && t.server == Aborted(Failed(arrival.received)) && t.client == Settle("", [], None)
    ensures Holds(keywords, offers, t, Stopped(i))
  {
    hide OfferAt, ValueLines, Heard, Accepts, ServesBefore, Serves, LineOf, Arrival, Bytes;
  }

  lemma SpoiledStarts(
    keywords: seq<string>, offers: Offers, s: State, t: State, i: nat, kept: seq<string>, left: seq<string>)
    requires FirstFailure(keywords, offers, i) && OfferSent(keywords, offers, i)
    requires s.s2c == "" && s.client == Settle("", left, None)
    requires Arrival(OfferAt(keywords, offers, i)).unread == kept + left
    requires t == s.(c2s := Bytes(kept), server := Aborted(Failed(Arrival(OfferAt(keywords, offers, i)).received)))
    ensures InSpoiled(keywords, offers, t, i, kept, left)
  {
  }

  lemma SpoiledHolds(keywords: seq<string>, offers: Offers, s: State, i: nat, inflight: seq<string>, left: seq<string>)
    requires left != [] && InSpoiled(keywords, offers, s, i, inflight, left)
    ensures Holds(keywords, offers, s, Spoiled(i, inflight, left))
  {
  }

  lemma MovingFacts(keywords: seq<string>, offers: Offers, s: State, i: nat, inflight: seq<string>, left: seq<string>)
    requires InMoving(keywords, offers, s, i, inflight, left)
    ensures OfferSent(keywords, offers, i) && i < |keywords| && DoneUpTo(keywords, offers, s, i)
    ensures s.offers == OffersAfter(offers, keywords[..i + 1]) && s.s2c == "" && s.client == Settle("", left, None)
    ensures s.server.Reading? && s.server.asked == i && s.c2s == Bytes(inflight)
    ensures Flow(OfferAt(keywords, offers, i), s.server.acc, inflight + left)
    ensures ValueLines(OfferAt(keywords, offers, i)).Some?
  {
  }

  lemma NextAsk(keywords: seq<string>, offers: Offers, s: State, t: State, i: nat)
    requires DoneUpTo(keywords, offers, t, i + 1) && t.offers == OffersAfter(offers, keywords[..i + 1])
    requires s.s2c == "" && s.client == Listening("")
    requires t.s2c == s.s2c && t.client == s.client && t.c2s == "" && t.server == Asking(i + 1)
    ensures Holds(keywords, offers, t, Ask(i + 1))
  {
  }

  lemma NothingLeft()
    ensures Settle("", [], None) == Listening("") && Bytes(["END"][1..]) == ""
  {
  }

  lemma StepTaking(keywords: seq<string>, offers: Offers, s: State, i: nat, inflight: seq<string>, left: seq<string>)
    requires inflight != [] && InMoving(keywords, offers, s, i, inflight, left)
    ensures s.server.Reading? && s.server.asked < |keywords| && s.c2s == Bytes(inflight) && Sound(inflight[0])
    ensures Holds(keywords, offers, AfterLine(keywords, s, inflight), PhaseAfter(s.server.acc, i, inflight, left))
  {
    hide *;
    MovingFacts(keywords, offers, s, i, inflight, left);
    var v, acc := OfferAt(keywords, offers, i), s.server.acc;
    FlowTakes(v, acc, inflight, left);
    LineSteps(keywords, s, inflight);
    PhaseSteps(acc, i, inflight, left);
    var t := AfterLine(keywords, s, inflight);
    match TakeLine(acc, inflight[0]) {
      case Overlong =>
        OverlongNotArriving(v, inflight + left);
        SameChannel(s, inflight);
        GivesUp(keywords, offers, s, t, i, inflight, left, inflight);
      case Goes(joined) => MovesOn(keywords, offers, s, i, inflight, left, joined);
      case Stops(Payload(bytes)) =>
        NothingLeft();
        DoneNext(keywords, offers, s, i, bytes);
        NextAsk(keywords, offers, s, t, i);
      case Stops(why) => GivesUp(keywords, offers, s, t, i, inflight, left, inflight[1..]);
    }
  }

  lemma SameChannel(s: State, inflight: seq<string>)
    requires s.c2s == Bytes(inflight)
    ensures forall pc :: s.(server := pc) == s.(c2s := Bytes(inflight), server := pc)
  {
  }

  lemma LineSteps(keywords: seq<string>, s: State, inflight: seq<string>)
    requires s.server.Reading? && s.server.asked < |keywords| && inflight != []
    ensures AfterLine(keywords, s, inflight)
         == match TakeLine(s.server.acc, inflight[0])
            case Overlong => s.(server := Aborted(Failed(Interrupted(TooLong))))
            case Goes(acc) => s.(c2s := Bytes(inflight[1..]), server := Reading(s.server.asked, acc))
            case Stops(Payload(bytes)) =>
              s.(c2s := Bytes(inflight[1..]), server := Asking(s.server.asked + 1),
                 res := s.res[keywords[s.server.asked] := bytes])
            case Stops(why) => s.(c2s := Bytes(inflight[1..]), server := Aborted(Failed(why)))
  {
  }

  lemma PhaseSteps(acc: string, i: nat, inflight: seq<string>, left: seq<string>)
    requires inflight != []
    ensures PhaseAfter(acc, i, inflight, left)
         == match TakeLine(acc, inflight[0])
            case Overlong => if left == [] then Stopped(i) else Spoiled(i, inflight, left)
            case Goes(_) => Moving(i, inflight[1..], left)
            case Stops(Payload(_)) => Ask(i + 1)
            case Stops(_) => if left == [] then Stopped(i) else Spoiled(i, inflight[1..], left)
  {
  }

  lemma MovesOn(
    keywords: seq<string>, offers: Offers, s: State, i: nat, inflight: seq<string>, left: seq<string>, joined: string)
    requires inflight != [] && InMoving(keywords, offers, s, i, inflight, left)
    requires Flow(OfferAt(keywords, offers, i), joined, inflight[1..] + left)
    ensures Holds(keywords, offers, s.(c2s := Bytes(inflight[1..]), server := Reading(s.server.asked, joined)),
                  Moving(i, inflight[1..], left))
  {
    hide Gathered, OffersAfter, Flow, OfferAt, ServesBefore, OfferSent, Settle, Bytes;
  }

  lemma StepMoving(
    keywords: seq<string>, offers: Offers, s: State, t: State, i: nat, inflight: seq<string>, left: seq<string>)
    returns (phase: Phase)
    requires Next(keywords, s, t) && InMoving(keywords, offers, s, i, inflight, left)
    ensures Holds(keywords, offers, t, phase)
    ensures Rank(keywords, offers, phase) < Rank(keywords, offers, Moving(i, inflight, left))
  {
    hide *;
    MovingSteps(keywords, offers, s, t, i, inflight, left);
    if ClientWrites(s, t) {
      StepWrites(keywords, offers, s, t, i, inflight, left);
      phase := Moving(i, inflight + [left[0]], left[1..]);
    } else {
      StepTaking(keywords, offers, s, i, inflight, left);
      LineTaken(keywords, s, t, inflight);
      phase := PhaseAfter(s.server.acc, i, inflight, left);
      RankFalls(keywords, offers, s.server.acc, i, inflight, left);
    }
  }

  /** The client writes on to a server that no longer reads. */
  lemma StepSpoiled(
    keywords: seq<string>, offers: Offers, s: State, t: State, i: nat, inflight: seq<string>, left: seq<string>)
    returns (phase: Phase)
    requires Next(keywords, s, t) && left != [] && InSpoiled(keywords, offers, s, i, inflight, left)
    ensures Holds(keywords, offers, t, phase)
    ensures Rank(keywords, offers, phase) < Rank(keywords, offers, Spoiled(i, inflight, left))
  {
    hide *;
    SpoiledSteps(keywords, offers, s, t, i, inflight, left);
    RankOfSpoiled(keywords, offers, i, inflight, left);
    if left[1..] == [] {
      phase := Stopped(i);
      assert (inflight + [left[0]]) + left[1..] == inflight + [left[0]];
      SpoiledFacts(keywords, offers, t, i, inflight + [left[0]], left[1..]);
      Stranded(keywords, offers, t, i);
    } else {
      phase := Spoiled(i, inflight + [left[0]], left[1..]);
      SpoiledHolds(keywords, offers, t, i, inflight + [left[0]], left[1..]);
    }
  }

  lemma SpoiledSteps(
    keywords: seq<string>, offers: Offers, s: State, t: State, i: nat, inflight: seq<string>, left: seq<string>)
    requires Next(keywords, s, t) && left != [] && InSpoiled(keywords, offers, s, i, inflight, left)
    ensures InSpoiled(keywords, offers, t, i, inflight + [left[0]], left[1..])
  {
    hide ReadLine, Arrival, OfferAt, FirstFailure, ValueLines, OfferSent, Bytes;
    LinesMove(s.c2s, inflight, left);
  }

  lemma SpoiledFacts(keywords: seq<string>, offers: Offers, s: State, i: nat, inflight: seq<string>, left: seq<string>)
    requires InSpoiled(keywords, offers, s, i, inflight, left)
    ensures FirstFailure(keywords, offers, i) && OfferSent(keywords, offers, i) && i < |keywords|
    ensures ValueLines(OfferAt(keywords, offers, i)).Some?
    ensures var arrival := Arrival(OfferAt(keywords, offers, i));
      && s.s2c == "" && s.client == Settle("", left, None) && s.server == Aborted(Failed(arrival.received))
      && s.c2s == Bytes(inflight) && inflight + left == arrival.unread
  {
  }

  lemma RankOfSpoiled(keywords: seq<string>, offers: Offers, i: nat, inflight: seq<string>, left: seq<string>)
    requires left != []
    ensures Rank(keywords, offers, Stopped(i)) < Rank(keywords, offers, Spoiled(i, inflight, left))
    ensures Rank(keywords, offers, Spoiled(i, inflight + [left[0]], left[1..]))
          < Rank(keywords, offers, Spoiled(i, inflight, left))
  {
  }

  // ---- the other steps ----

  lemma GivingFacts(keywords: seq<string>, offers: Offers, s: State, i: nat, written: bool)
    requires Holds(keywords, offers, s, Giving(i, written))
    ensures i < |keywords| && s.s2c == "" && s.server == Reading(i, "")
    ensures s.c2s == (if written then "CAN" + "\n" else "")
    ensures s.client
         == if written then Ended(Missing(keywords[i])) else Sending("", ["CAN"], Some(Missing(keywords[i])))
  {
  }

  lemma CanWritten(keywords: seq<string>, s: State, t: State, i: nat)
    requires i < |keywords| && Next(keywords, s, t) && s.server == Reading(i, "") && s.c2s == ""
    requires s.client == Sending("", ["CAN"], Some(Missing(keywords[i])))
    ensures t == s.(c2s := "CAN" + "\n", client := Ended(Missing(keywords[i])))
  {
    NothingTaken(keywords, s, t);
    assert "" + "CAN" + "\n" == "CAN" + "\n" && ["CAN"][1..] == [];
    hide ServerReads;
  }

  lemma CanTaken(keywords: seq<string>, s: State, t: State, i: nat)
    requires i < |keywords| && Next(keywords, s, t) && s.server == Reading(i, "") && s.c2s == "CAN" + "\n"
    requires s.client.Ended?
    ensures t == s.(c2s := "", server := Aborted(Failed(Cancelled)))
  {
    BareWord("CAN");
    TakenOnly(keywords, s, t, Message("CAN", ""), "");
    hide ReadLine, ServerReads;
  }

  lemma CanSent(keywords: seq<string>, offers: Offers, s: State, i: nat)
    requires Holds(keywords, offers, s, Giving(i, false))
    ensures Holds(keywords, offers, s.(c2s := "CAN" + "\n", client := Ended(Missing(keywords[i]))), Giving(i, true))
  {
    hide ServesBefore, Serves, LineOf, Heard;
  }

  lemma CanRead(keywords: seq<string>, offers: Offers, s: State, i: nat)
    requires Holds(keywords, offers, s, Giving(i, true))
    ensures Holds(keywords, offers, s.(c2s := "", server := Aborted(Failed(Cancelled))), Stopped(i))
  {
    hide ServesBefore, Serves, LineOf, Heard, OfferAt, Arrival, ValueLines;
  }

  lemma StepGiving(keywords: seq<string>, offers: Offers, s: State, t: State, i: nat, written: bool)
    returns (phase: Phase)
    requires Holds(keywords, offers, s, Giving(i, written)) && Next(keywords, s, t)
    ensures Holds(keywords, offers, t, phase)
    ensures Rank(keywords, offers, phase) < Rank(keywords, offers, Giving(i, written))
  {
    hide Holds, Next, Work;
    GivingFacts(keywords, offers, s, i, written);
    if written {
      CanTaken(keywords, s, t, i);
      CanRead(keywords, offers, s, i);
      phase := Stopped(i);
    } else {
      CanWritten(keywords, s, t, i);
      CanSent(keywords, offers, s, i);
      phase := Giving(i, true);
    }
  }

  lemma OkHeard(keywords: seq<string>, s: State, t: State)
    requires Next(keywords, s, t) && s.server == Replied && s.client == Listening("") && s.s2c == "OK" + "\n"
    ensures t == s.(s2c := "", client := Ended(Answered(Data(""))))
  {
    BareWord("OK");
    HeardOnly(s, t, Message("OK", ""), "");
    hide ReadLine, ClientReads;
  }

  lemma StepReplying(keywords: seq<string>, offers: Offers, s: State, t: State)
    requires Holds(keywords, offers, s, Replying) && Next(keywords, s, t)
    ensures Holds(keywords, offers, t, Finished)
  {
    OkHeard(keywords, s, t);
    hide Next, Gathered, ServesBefore;
    assert keywords[..|keywords|] == keywords;
  }

  /** A server that no longer reads or waits for nothing, a client that has ended or waits. */
  lemma NoStep(keywords: seq<string>, s: State, t: State)
    requires s.server.Replied? || s.server.Aborted? || (s.server.Reading? && s.c2s == "")
    requires s.client.Ended? || (s.client.Listening? && s.s2c == "")
    ensures !Next(keywords, s, t)
  {
    if s.c2s == "" { NothingTaken(keywords, s, t); }
    if s.s2c == "" { NothingHeard(s, t); }
    hide ReadLine;
  }

  lemma NoStepAtEnd(keywords: seq<string>, offers: Offers, s: State, t: State, phase: Phase)
    requires phase.Stopped? || phase.Finished?
    requires Holds(keywords, offers, s, phase)
    ensures !Next(keywords, s, t)
  {
    EndPhase(keywords, offers, s, phase);
    hide Next, Holds, OfferAt, Arrival, ValueLines, Gathered, LineOf, Heard, Accepts, ServesBefore, Serves;
    NoStep(keywords, s, t);
  }

  lemma Step(keywords: seq<string>, offers: Offers, s: State, t: State, phase: Phase) returns (phase': Phase)
    requires Holds(keywords, offers, s, phase) && Next(keywords, s, t)
    ensures Holds(keywords, offers, t, phase')
    ensures Rank(keywords, offers, phase') < Rank(keywords, offers, phase)
  {
    hide Next, InMoving, InSpoiled, DoneUpTo, FirstFailure, EndsAt, EndsWell, ServesBefore;
    match phase {
      case Ask(i) => phase' := StepAsk(keywords, offers, s, t, i);
      case Asked(i) => phase' := StepAsked(keywords, offers, s, t, i);
      case Moving(i, inflight, left) => phase' := StepMoving(keywords, offers, s, t, i, inflight, left);
      case Spoiled(i, inflight, left) => phase' := StepSpoiled(keywords, offers, s, t, i, inflight, left);
      case Giving(i, written) => phase' := StepGiving(keywords, offers, s, t, i, written);
      case Replying => StepReplying(keywords, offers, s, t); phase' := Finished;
      case Stopped(_) => NoStepAtEnd(keywords, offers, s, t, phase); phase' := phase;
      case Finished => NoStepAtEnd(keywords, offers, s, t, phase); phase' := phase;
    }
  }

  lemma AtTheStart(keywords: seq<string>, offers: Offers, s: State)
    requires Initial(offers, s)
    ensures Holds(keywords, offers, s, Ask(0))
  {
    assert keywords[..0] == [];
  }

  /** A run is in one of the phases, and has used up as much of the measure as it has steps. */
  lemma {:induction false} RunPhase(keywords: seq<string>, offers: Offers, run: seq<State>) returns (phase: Phase)
    requires IsRun(keywords, offers, run)
    ensures Holds(keywords, offers, run[|run| - 1], phase)
    ensures Rank(keywords, offers, phase) + |run| <= Rank(keywords, offers, Ask(0)) + 1
    decreases |run|
  {
    hide Next, Holds, Rank, Initial;
    if |run| == 1 {
      phase := Ask(0);
      AtTheStart(keywords, offers, run[0]);
    } else {
      var last := |run| - 2;
      var before := run[..last + 1];
      forall j | 0 <= j < |before| - 1 ensures Next(keywords, before[j], before[j + 1]) {
        assert Next(keywords, run[j], run[j + 1]);
      }
      assert Next(keywords, run[last], run[last + 1]);
      phase := RunPhase(keywords, offers, before);
      phase := Step(keywords, offers, run[last], run[last + 1], phase);
    }
  }

  // ---- going on ----

  lemma LinesGoOn(keywords: seq<string>, s: State, left: seq<string>) returns (t: State)
    requires left != [] && s.client == Settle("", left, None)
    ensures Next(keywords, s, t)
  {
    t := s.(c2s := s.c2s + left[0] + "\n", client := Settle("", left[1..], None));
    assert ClientWrites(s, t);
  }

  lemma MovingGoesOn(keywords: seq<string>, offers: Offers, s: State, i: nat, inflight: seq<string>, left: seq<string>)
    returns (t: State)
    requires InMoving(keywords, offers, s, i, inflight, left)
    ensures Next(keywords, s, t)
  {
    if left != [] {
      t := LinesGoOn(keywords, s, left);
    } else {
      assert inflight + left == inflight && inflight != [];
      StepTaking(keywords, offers, s, i, inflight, left);
      t := AfterLine(keywords, s, inflight);
      hide InMoving, Holds, AfterLine, ServerReads, Sound;
      LineTaken(keywords, s, t, inflight);
    }
  }

  lemma AskGoesOn(keywords: seq<string>, offers: Offers, s: State, i: nat) returns (t: State)
    requires Holds(keywords, offers, s, Ask(i))
    ensures Next(keywords, s, t)
  {
    if i < |keywords| {
      t := AfterAsking(keywords, s, i);
      assert ServerAsks(keywords, s, t);
    } else {
      t := s.(s2c := s.s2c + "OK" + "\n", server := Replied);
      assert ServerReplies(keywords, s, t);
    }
  }

  lemma AskedGoesOn(keywords: seq<string>, offers: Offers, s: State, i: nat) returns (t: State)
    requires Holds(keywords, offers, s, Asked(i))
    ensures Next(keywords, s, t)
  {
    QuestionRead(keywords[i]);
    hide ReadLine, AfterHeard;
    t := if Heard(keywords[i]) then AfterHeard(s, Question(keywords[i]), "")
         else s.(s2c := s.s2c, client := Ended(Answered(Broken(TooLong))));
    assert ClientReads(s, t);
  }

  lemma GivingGoesOn(keywords: seq<string>, offers: Offers, s: State, i: nat, written: bool) returns (t: State)
    requires Holds(keywords, offers, s, Giving(i, written))
    ensures Next(keywords, s, t)
  {
    GivingFacts(keywords, offers, s, i, written);
    hide ReadLine, Holds;
    if written {
      BareWord("CAN");
      t := AfterTaken(keywords, s, Message("CAN", ""), "");
      TakenOnly(keywords, s, t, Message("CAN", ""), "");
    } else {
      t := s.(c2s := s.c2s + "CAN" + "\n", client := Ended(Missing(keywords[i])));
      assert ["CAN"][1..] == [];
      assert ClientWrites(s, t);
    }
  }

  /** Wherever a run is, unless it is at its end, one of the sides can go on. */
  lemma CanGoOn(keywords: seq<string>, offers: Offers, s: State, phase: Phase) returns (t: State)
    requires Holds(keywords, offers, s, phase)
    requires !phase.Stopped? && !phase.Finished?
    ensures Next(keywords, s, t)
  {
    hide Next, InMoving, DoneUpTo, FirstFailure;
    match phase {
      case Ask(i) => t := AskGoesOn(keywords, offers, s, i);
      case Asked(i) => t := AskedGoesOn(keywords, offers, s, i);
      case Moving(i, inflight, left) => t := MovingGoesOn(keywords, offers, s, i, inflight, left);
      case Spoiled(i, inflight, left) => t := LinesGoOn(keywords, s, left);
      case Giving(i, written) => t := GivingGoesOn(keywords, offers, s, i, written);
      case Replying =>
        BareWord("OK");
        t := AfterHeard(s, Message("OK", ""), "");
        HeardOnly(s, t, Message("OK", ""), "");
        assert Next(keywords, s, t) by { IsNext(keywords, s, t); }
    }
  }

  lemma IsNext(keywords: seq<string>, s: State, t: State)
    requires ClientReads(s, t)
    ensures Next(keywords, s, t)
  {
  }

  // ---- main results ----

  /** No run is longer than the measure of the keywords and their lines. */
  lemma ExchangeTerminates(keywords: seq<string>, offers: Offers, run: seq<State>)
    requires IsRun(keywords, offers, run)
    ensures |run| <= Work(keywords, offers, 0) + 4
  {
    var phase := RunPhase(keywords, offers, run);
  }

  ghost predicate Stuck(keywords: seq<string>, s: State) {
    forall t :: !Next(keywords, s, t)
  }

  /** A run that cannot go on. */
  ghost predicate Complete(keywords: seq<string>, offers: Offers, run: seq<State>) {
    IsRun(keywords, offers, run) && Stuck(keywords, run[|run| - 1])
  }

  /** Every complete run, whatever the keywords and the offers, ends in one way: well, if
      every keyword is served, and otherwise as the first keyword says that is not. */
  lemma ExchangeEnds(keywords: seq<string>, offers: Offers, run: seq<State>)
    requires Complete(keywords, offers, run)
    ensures var s := run[|run| - 1];
      && (ServesBefore(keywords, offers, |keywords|) ==> EndsWell(keywords, offers, s))
      && (forall i :: FirstFailure(keywords, offers, i) ==> EndsAt(keywords, offers, s, i))
      && (ServesBefore(keywords, offers, |keywords|) <==> !exists i :: FirstFailure(keywords, offers, i))
  {
    hide Holds, Rank, Next, EndsWell, EndsAt;
    var s := run[|run| - 1];
    var phase := RunPhase(keywords, offers, run);
    if !phase.Stopped? && !phase.Finished? {
      var t := CanGoOn(keywords, offers, s, phase);
      assert false;
    }
    EndPhase(keywords, offers, s, phase);
    hide Serves;
    if phase.Stopped? { assert FirstFailure(keywords, offers, phase.i); }
  }

  lemma EndPhase(keywords: seq<string>, offers: Offers, s: State, phase: Phase)
    requires Holds(keywords, offers, s, phase) && (phase.Stopped? || phase.Finished?)
    ensures phase.Stopped? ==> FirstFailure(keywords, offers, phase.i) && EndsAt(keywords, offers, s, phase.i)
    ensures phase.Finished? ==> ServesBefore(keywords, offers, |keywords|) && EndsWell(keywords, offers, s)
  {
  }

  /** Every question can be written and read, and every keyword is offered. */
  ghost predicate AllOffered(keywords: seq<string>, offers: Offers) {
    forall k :: k in keywords ==> Accepts(Question(k)) && Heard(k) && k in offers
  }

  /** What a used offer makes of the second question for it. */
  lemma ServedIff(keywords: seq<string>, offers: Offers)
    requires AllOffered(keywords, offers)
    ensures ServesBefore(keywords, offers, |keywords|) <==> AllArrive(offers, keywords)
  {
    UsedArrives();
    hide Arrives, Accepts, Heard;
    if AllArrive(offers, keywords) {
      forall i | 0 <= i < |keywords| ensures Serves(keywords, offers, i) { assert keywords[i] in keywords; }
    }
    if ServesBefore(keywords, offers, |keywords|) {
      forall k | k in keywords ensures Arrives(offers[k]).Some? {
        var i := FirstIndex(keywords, k);
        assert Serves(keywords, offers, i);
      }
    }
  }

  lemma FirstIndex(keywords: seq<string>, k: string) returns (i: nat)
    requires k in keywords
    ensures i < |keywords| && keywords[i] == k && k !in keywords[..i]
  {
    i := 0;
    while keywords[i] != k
      invariant i < |keywords| && k in keywords[i..] && k !in keywords[..i]
      decreases |keywords| - i
    {
      i := i + 1;
    }
  }

  /** With every keyword offered, a complete run has the server replied and holding each
      keyword's own payload, and the client answered OK, if and only if every payload can
      be carried and no reader that holds something is asked for twice. */
  lemma OwnPayloadsIff(keywords: seq<string>, offers: Offers, run: seq<State>)
    requires Complete(keywords, offers, run) && AllOffered(keywords, offers)
    ensures var s := run[|run| - 1];
      && (s.server == Replied <==> AllArrive(offers, keywords))
      && (s.server == Replied ==>
            && Quiet(s) && s.client == Ended(Answered(Data("")))
            && s.res == map k | k in keywords :: LastArrival(offers, keywords, k))
      && (s.server == Replied && s.res == OwnPayloads(offers, keywords) <==>
            AllCarried(offers, keywords) && !ReaderRepeats(offers, keywords))
  {
    var s := run[|run| - 1];
    hide Complete, Arrives, Carried, Serves, Gathered;
    ExchangeEnds(keywords, offers, run);
    ServedIff(keywords, offers);
    if AllArrive(offers, keywords) {
      GatheredAre(offers, keywords);
      GatheredIsOwnPayloadIff(offers, keywords);
    } else {
      var i :| FirstFailure(keywords, offers, i);
      assert EndsAt(keywords, offers, s, i) && s.server != Replied;
      if AllCarried(offers, keywords) {
        forall k | k in keywords ensures Arrives(offers[k]).Some? { ArrivesWholeIff(offers[k]); }
        assert false;
      }
    }
  }

  lemma ShortQuestion(k: string)
    requires |k| <= 100
    ensures Accepts(Question(k)) && Heard(k)
  {
    LineLength(Question(k));
    EscapablesBound(k);
    hide LineOf;
  }

  lemma PercentFails()
    ensures OfferAt(["a"], map["a" := Raw("%")], 0) == Raw("%") && FirstFailure(["a"], map["a" := Raw("%")], 0)
  {
    PercentArrival();
    hide Arrival, Heard, Accepts;
  }

  lemma StrandedEnd(keywords: seq<string>, offers: Offers, s: State, i: nat)
    requires i < |keywords| && EndsAt(keywords, offers, s, i)
    requires Accepts(Question(keywords[i])) && Heard(keywords[i]) && keywords[i] in offers
    requires ValueLines(OfferAt(keywords, offers, i)).Some?
    ensures var r := Arrival(OfferAt(keywords, offers, i));
      s.c2s == Bytes(r.unread) && s.server == Aborted(Failed(r.received)) && s.client == Listening("")
  {
  }

  lemma EndIsUnread()
    ensures Bytes(["END"]) == "END" + "\n"
  {
    assert ["END"][1..] == [] && "END" + "\n" + "" == "END" + "\n";
  }

  /** An offer the server cannot take leaves it stopped and the client waiting. */
  lemma PercentStrands(run: seq<State>)
    requires Complete(["a"], map["a" := Raw("%")], run)
    ensures var s := run[|run| - 1];
      && s.server == Aborted(Failed(Interrupted(BadEscape)))
      && s.client == Listening("") && s.c2s == "END" + "\n"
  {
    var keywords, offers, s := ["a"], map["a" := Raw("%")], run[|run| - 1];
    assert ValueLines(Raw("%")).Some?;
    hide *;
    ExchangeEnds(keywords, offers, run);
    PercentFails();
    ShortQuestion("a");
    StrandedEnd(keywords, offers, s, 0);
    PercentArrival();
    EndIsUnread();
  }

  lemma UnusableFails()
    ensures FirstFailure(["a"], map["a" := Other], 0) && ValueLines(OfferAt(["a"], map["a" := Other], 0)).None?
  {
    hide Heard, Accepts;
  }

  lemma SilentEnd(keywords: seq<string>, offers: Offers, s: State, i: nat)
    requires i < |keywords| && EndsAt(keywords, offers, s, i)
    requires Accepts(Question(keywords[i])) && Heard(keywords[i]) && keywords[i] in offers
    requires ValueLines(OfferAt(keywords, offers, i)).None?
    ensures Quiet(s) && s.server == Reading(i, "") && s.client == Ended(BadOffer(keywords[i]))
  {
  }

  /** A client that cannot use its own offer ends, and leaves the server waiting. */
  lemma UnusableStrands(run: seq<State>)
    requires Complete(["a"], map["a" := Other], run)
    ensures var s := run[|run| - 1];
      Quiet(s) && s.server == Reading(0, "") && s.client == Ended(BadOffer("a"))
  {
    var keywords, offers, s := ["a"], map["a" := Other], run[|run| - 1];
    hide *;
    ExchangeEnds(keywords, offers, run);
    UnusableFails();
    ShortQuestion("a");
    SilentEnd(keywords, offers, s, 0);
  }

  lemma ServedTwice()
    ensures var keywords, offers := ["a", "a"], map["a" := Reader(["x"])];
      AllOffered(keywords, offers) && AllArrive(offers, keywords)
  {
    ShortQuestion("a");
    ReaderOfX();
    ArrivesWholeIff(Reader(["x"]));
    hide Accepts, Heard, Arrives, Carried;
  }

  /** A reader asked for twice leaves the server with nothing, in every run to the end. */
  lemma SecondReadIsEmpty(run: seq<State>)
    requires Complete(["a", "a"], map["a" := Reader(["x"])], run)
    ensures run[|run| - 1].server == Replied && run[|run| - 1].res == map["a" := ""]
  {
    var keywords, offers, s := ["a", "a"], map["a" := Reader(["x"])], run[|run| - 1];
    hide *;
    ServedTwice();
    ServedIff(keywords, offers);
    ExchangeEnds(keywords, offers, run);
    EndFacts(keywords, offers, s);
    AskedTwice();
  }

  lemma ReaderOfX()
    ensures Carried(Reader(["x"]))
  {
    assert Escapables("x") == 0 by { assert "x"[1..] == ""; }
  }

  lemma EndFacts(keywords: seq<string>, offers: Offers, s: State)
    requires EndsWell(keywords, offers, s)
    ensures s.server == Replied && s.res == Gathered(offers, keywords)
  {
  }
}
