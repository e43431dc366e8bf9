/**
 The two loops of an inquiry, each on the bytes the other writes, against the runs of the
 step system: Inquire (assuan/server/inquire.go) and Transact (assuan/client/session.go)
 come to what every complete run comes to.
 */
module InquirySides {
  import opened Basics
  import opened Client
  import opened Inquiry
  import opened InquiryRun
  import opened Transfer
  import opened Wire

  // ---- the transcript of an exchange ----

  /** The questions from the i-th on: up to the first that is not served, which is asked as
      well if it can be written. */
  function QuestionsFrom(keywords: seq<string>, offers: Offers, i: nat): seq<string>
    decreases |keywords| - i
  {
    if i >= |keywords| || !Accepts(Question(keywords[i])) then []
    else
      var later := if Serves(keywords, offers, i) then QuestionsFrom(keywords, offers, i + 1) else [];
      [LineOf(Question(keywords[i]))] + later
  }

  /** The client's lines from the i-th question on. */
  function AnswersFrom(keywords: seq<string>, offers: Offers, i: nat): seq<string>
    decreases |keywords| - i
  {
    if i >= |keywords| || !Accepts(Question(keywords[i])) || !Heard(keywords[i]) then []
    else if keywords[i] !in offers then ["CAN"]
    else if ValueLines(OfferAt(keywords, offers, i)).None? then []
    else
      var later := if Serves(keywords, offers, i) then AnswersFrom(keywords, offers, i + 1) else [];
      OfferLines(OfferAt(keywords, offers, i)) + later
  }

  /** How a side ends, as a run says it. A side that waits for good gets the end of its
      input once the other side's stream is closed. */
  function ServerEnd(s: State): Collected {
    match s.server
    case Replied => All(s.res)
    case Aborted(why) => why
    case Asking(_) => Failed(Interrupted(EndOfInput))
    case Reading(_, _) => Failed(Interrupted(EndOfInput))
  }

  function ClientEnd(s: State): Outcome {
    match s.client
    case Ended(outcome) => outcome
    case Listening(_) => Answered(Broken(EndOfInput))
    case Sending(_, _, _) => Answered(Broken(EndOfInput))
  }

  // ---- reading what a side has written ----

  lemma SoundReadAnyhow(line: string, tail: string, closed: bool)
    requires Sound(line)
    ensures ReadLine(line + "\n" + tail, closed, MAX_LINE_LEN)
         == if |line| >= MAX_LINE_LEN then Fail(TooLong, line + "\n" + tail)
            else match Parse(line)
                 case Malformed => Fail(BadEscape, tail)
                 case Parsed(m) => Got(m, tail)
  {
    ScanOneLine(line, tail, closed, MAX_LINE_LEN);
  }

  /** One line of ReadData, whatever follows it. */
  lemma DataStep(acc: string, line: string, tail: string, closed: bool)
    requires Sound(line)
    ensures ReadData(line + "\n" + tail, acc, closed, MAX_LINE_LEN)
         == var read := TakeLine(acc, line);
            if read.Overlong? then (Interrupted(TooLong), line + "\n" + tail)
            else if read.Goes? then ReadData(tail, read.acc, closed, MAX_LINE_LEN)
            else (read.received, tail)
  {
    SoundReadAnyhow(line, tail, closed);
    hide ReadLine, Parse, DropCR, Take;
    if |line| < MAX_LINE_LEN && Parse(line).Parsed? { var taken := Take(acc, Parse(line).message); }
  }

  /** An offer is received in the same way whatever is sent after it, on an open stream or
      a closed one. */
  lemma {:induction false} StreamIsReadData(acc: string, lines: seq<string>, tail: string, closed: bool)
    requires Stream(lines)
    ensures ReadData(Bytes(lines) + tail, acc, closed, MAX_LINE_LEN)
         == (Receive(acc, lines).received, Bytes(Receive(acc, lines).unread) + tail)
    decreases |lines|
  {
    StreamStep(acc, lines);
    FirstLine(lines, tail);
    DataStep(acc, lines[0], Bytes(lines[1..]) + tail, closed);
    ReceiveStep(acc, lines);
    hide ReadData, Stream, Sound, Bytes, TakeLine, Receive;
    if TakeLine(acc, lines[0]).Goes? { StreamIsReadData(TakeLine(acc, lines[0]).acc, lines[1..], tail, closed); }
  }

  lemma ReceiveStep(acc: string, lines: seq<string>)
    requires lines != []
    ensures Receive(acc, lines)
         == var read := TakeLine(acc, lines[0]);
            if read.Overlong? then Reception(Interrupted(TooLong), lines)
            else if read.Goes? then Receive(read.acc, lines[1..])
            else Reception(read.received, lines[1..])
  {
  }

  lemma ArrivalRead(v: Value, tail: string)
    requires ValueLines(v).Some?
    ensures ReadData(Bytes(OfferLines(v)) + tail, "", true, MAX_LINE_LEN)
         == (Arrival(v).received, Bytes(Arrival(v).unread) + tail)
    ensures Arrives(v).Some? ==> Arrival(v) == Reception(Payload(Arrives(v).value), [])
    ensures Arrives(v).None? ==> !Arrival(v).received.Payload?
  {
    OfferStreams(v);
    StreamIsReadData("", OfferLines(v), tail, true);
    StreamReceived("", OfferLines(v));
    hide ReadData, OfferLines, Stream, Receive;
  }

  lemma CanRead(tail: string)
    ensures ReadData("CAN" + "\n" + tail, "", true, MAX_LINE_LEN) == (Cancelled, tail)
    ensures ReadData("", "", true, MAX_LINE_LEN) == (Interrupted(EndOfInput), "")
  {
    CleanBareLine("CAN");
    assert ToUpper("CAN") == "CAN";
    OthersEndData("CAN", Message("CAN", ""), tail, "", true, MAX_LINE_LEN);
  }

  // ---- Inquire ----

  /** What Inquire returns from the i-th keyword on, if the earlier ones are served. */
  function Collects(keywords: seq<string>, offers: Offers, i: nat): Collected
    decreases |keywords| - i
  {
    if i >= |keywords| then All(Gathered(offers, keywords))
    else if !Accepts(Question(keywords[i])) then TooLongToAsk
    else if !Heard(keywords[i]) then Failed(Interrupted(EndOfInput))
    else if keywords[i] !in offers then Failed(Cancelled)
    else
      var v := OfferAt(keywords, offers, i);
      if ValueLines(v).None? then Failed(Interrupted(EndOfInput))
      else if Arrives(v).None? then Failed(Arrival(v).received)
      else Collects(keywords, offers, i + 1)
  }

  /** The lines it leaves unread. */
  function Leaves(keywords: seq<string>, offers: Offers, i: nat): seq<string>
    decreases |keywords| - i
  {
    if i >= |keywords| || !Accepts(Question(keywords[i])) || !Heard(keywords[i]) || keywords[i] !in offers then []
    else
      var v := OfferAt(keywords, offers, i);
      if ValueLines(v).None? then []
      else if Arrives(v).None? then Arrival(v).unread
      else Leaves(keywords, offers, i + 1)
  }

  /** One keyword of Inquire. */
  lemma InquireStep(input: string, k: string, more: seq<string>, res: map<string, string>)
    requires Accepts(Question(k))
    ensures var (received, rest) := ReadData(input, "", true, MAX_LINE_LEN);
      InquireLoop(input, [k] + more, res, MAX_LINE_LEN)
        == if !received.Payload? then Inquired([LineOf(Question(k))], Failed(received), rest)
           else
             var later := InquireLoop(rest, more, res[k := received.bytes], MAX_LINE_LEN);
             later.(lines := [LineOf(Question(k))] + later.lines)
  {
    assert ([k] + more)[1..] == more;
  }

  lemma AnswersStep(keywords: seq<string>, offers: Offers, i: nat)
    requires i < |keywords| && OfferSent(keywords, offers, i)
    ensures var v := OfferAt(keywords, offers, i);
      && (Arrives(v).Some? <==> Serves(keywords, offers, i))
      && Bytes(AnswersFrom(keywords, offers, i)) == Bytes(OfferLines(v))
           + (if Arrives(v).Some? then Bytes(AnswersFrom(keywords, offers, i + 1)) else "")
      && QuestionsFrom(keywords, offers, i) == [LineOf(Question(keywords[i]))]
           + (if Arrives(v).Some? then QuestionsFrom(keywords, offers, i + 1) else [])
  {
    var v := OfferAt(keywords, offers, i);
    var later := if Arrives(v).Some? then AnswersFrom(keywords, offers, i + 1) else [];
    BytesAppend(OfferLines(v), later);
    hide OfferLines, Arrives, Accepts, Heard, LineOf, OfferAt;
  }

  lemma StopFacts(keywords: seq<string>, offers: Offers, i: nat)
    requires i < |keywords| && !OfferSent(keywords, offers, i)
    ensures var k := keywords[i];
      && Leaves(keywords, offers, i) == [] && Bytes([]) == ""
      && QuestionsFrom(keywords, offers, i) == (if Accepts(Question(k)) then [LineOf(Question(k))] else [])
      && (!Accepts(Question(k)) ==>
            AnswersFrom(keywords, offers, i) == [] && Collects(keywords, offers, i) == TooLongToAsk)
      && (Accepts(Question(k)) && Heard(k) && k !in offers ==>
            AnswersFrom(keywords, offers, i) == ["CAN"] && Collects(keywords, offers, i) == Failed(Cancelled))
      && (Accepts(Question(k)) && (!Heard(k) || k in offers) ==>
            AnswersFrom(keywords, offers, i) == []
            && Collects(keywords, offers, i) == Failed(Interrupted(EndOfInput)))
  {
    if ValueLines(OfferAt(keywords, offers, i)).None? { NoLinesNoArrival(OfferAt(keywords, offers, i)); }
    hide Arrives, Arrival, ValueLines, OfferAt, LineOf, Heard, Accepts, Gathered;
    assert [LineOf(Question(keywords[i]))] + [] == [LineOf(Question(keywords[i]))];
  }

  lemma NotAsked(input: string, k: string, more: seq<string>, res: map<string, string>)
    requires !Accepts(Question(k))
    ensures InquireLoop(input, [k] + more, res, MAX_LINE_LEN) == Inquired([], TooLongToAsk, input)
  {
  }

  /** At a keyword that ends the exchange without an offer. */
  lemma InquireStops(keywords: seq<string>, offers: Offers, i: nat, res: map<string, string>)
    requires i < |keywords| && !OfferSent(keywords, offers, i)
    ensures InquireLoop(Bytes(AnswersFrom(keywords, offers, i)), keywords[i..], res, MAX_LINE_LEN)
         == Inquired(QuestionsFrom(keywords, offers, i), Collects(keywords, offers, i), "")
    ensures Leaves(keywords, offers, i) == [] && Bytes([]) == ""
  {
    hide *;
    var k, input := keywords[i], Bytes(AnswersFrom(keywords, offers, i));
    assert keywords[i..] == [k] + keywords[i + 1..];
    StopFacts(keywords, offers, i);
    CanRead("");
    CanBytes();
    if Accepts(Question(k)) {
      InquireStep(input, k, keywords[i + 1..], res);
    } else {
      NotAsked(input, k, keywords[i + 1..], res);
    }
  }

  lemma CanBytes()
    ensures Bytes(["CAN"]) == "CAN" + "\n" + ""
  {
    assert ["CAN"][1..] == [];
  }

  /** Inquire on the client's lines from the i-th keyword on. */
  lemma {:induction false} InquireFollows(keywords: seq<string>, offers: Offers, i: nat)
    requires ServesBefore(keywords, offers, i)
    ensures InquireLoop(Bytes(AnswersFrom(keywords, offers, i)), keywords[i..],
                        Gathered(offers, keywords[..i]), MAX_LINE_LEN)
         == Inquired(QuestionsFrom(keywords, offers, i), Collects(keywords, offers, i),
                     Bytes(Leaves(keywords, offers, i)))
    decreases |keywords| - i
  {
    if i == |keywords| {
      assert keywords[..i] == keywords && keywords[i..] == [];
    } else if !OfferSent(keywords, offers, i) {
      InquireStops(keywords, offers, i, Gathered(offers, keywords[..i]));
    } else {
      InquireServes(keywords, offers, i);
      if Serves(keywords, offers, i) { InquireFollows(keywords, offers, i + 1); }
      hide *;
    }
  }

  lemma FollowsStep(keywords: seq<string>, offers: Offers, i: nat)
    requires i < |keywords| && OfferSent(keywords, offers, i)
    ensures var v := OfferAt(keywords, offers, i);
      && Collects(keywords, offers, i)
           == (if Arrives(v).None? then Failed(Arrival(v).received) else Collects(keywords, offers, i + 1))
      && Leaves(keywords, offers, i)
           == (if Arrives(v).None? then Arrival(v).unread else Leaves(keywords, offers, i + 1))
  {
    hide Arrives, Arrival, OfferAt, ValueLines, Heard, Accepts, Gathered;
  }

  /** One offer read by Inquire. */
  lemma InquireServes(keywords: seq<string>, offers: Offers, i: nat)
    requires i < |keywords| && OfferSent(keywords, offers, i)
    ensures var x := InquireLoop(Bytes(AnswersFrom(keywords, offers, i)), keywords[i..],
                                 Gathered(offers, keywords[..i]), MAX_LINE_LEN);
      if Serves(keywords, offers, i) then
        var later := InquireLoop(Bytes(AnswersFrom(keywords, offers, i + 1)), keywords[i + 1..],
                                 Gathered(offers, keywords[..i + 1]), MAX_LINE_LEN);
        && x == later.(lines := [LineOf(Question(keywords[i]))] + later.lines)
        && QuestionsFrom(keywords, offers, i)
             == [LineOf(Question(keywords[i]))] + QuestionsFrom(keywords, offers, i + 1)
        && Collects(keywords, offers, i) == Collects(keywords, offers, i + 1)
        && Leaves(keywords, offers, i) == Leaves(keywords, offers, i + 1)
        && (ServesBefore(keywords, offers, i) ==> ServesBefore(keywords, offers, i + 1))
      else
        x == Inquired(QuestionsFrom(keywords, offers, i), Collects(keywords, offers, i),
                      Bytes(Leaves(keywords, offers, i)))
  {
    hide *;
    var k, v := keywords[i], OfferAt(keywords, offers, i);
    assert keywords[i..] == [k] + keywords[i + 1..];
    SentFacts(keywords, offers, i);
    AnswersStep(keywords, offers, i);
    FollowsStep(keywords, offers, i);
    var rest := if Arrives(v).Some? then Bytes(AnswersFrom(keywords, offers, i + 1)) else "";
    ArrivalRead(v, rest);
    InquireStep(Bytes(OfferLines(v)) + rest, k, keywords[i + 1..], Gathered(offers, keywords[..i]));
    if Arrives(v).Some? {
      NoBytes(rest);
      GatheredNext(keywords, offers, i, Arrives(v).value);
      if ServesBefore(keywords, offers, i) { ServesNext(keywords, offers, i); }
    } else {
      assert Bytes(Arrival(v).unread) + "" == Bytes(Arrival(v).unread);
      assert [LineOf(Question(k))] + [] == [LineOf(Question(k))];
    }
  }

  lemma SentFacts(keywords: seq<string>, offers: Offers, i: nat)
    requires OfferSent(keywords, offers, i)
    ensures i < |keywords| && Accepts(Question(keywords[i])) && Heard(keywords[i]) && keywords[i] in offers
    ensures ValueLines(OfferAt(keywords, offers, i)).Some?
  {
  }

  lemma NoBytes(tail: string)
    ensures Bytes([]) + tail == tail
  {
    assert "" + tail == tail;
  }

  /** Inquire on everything the client sends: its questions, its result, what it leaves. */
  lemma InquireOnAnswers(keywords: seq<string>, offers: Offers)
    ensures InquireLoop(Bytes(AnswersFrom(keywords, offers, 0)), keywords, map[], MAX_LINE_LEN)
         == Inquired(QuestionsFrom(keywords, offers, 0), Collects(keywords, offers, 0),
                     Bytes(Leaves(keywords, offers, 0)))
  {
    assert keywords[0..] == keywords && keywords[..0] == [] && Gathered(offers, []) == map[];
    InquireFollows(keywords, offers, 0);
    hide *;
  }

  // ---- Transact ----

  /** How Transact ends from the i-th question on, and what it leaves unread. */
  function Concludes(keywords: seq<string>, offers: Offers, i: nat): Outcome
    decreases |keywords| - i
  {
    if i >= |keywords| then Answered(Data(""))
    else if !Accepts(Question(keywords[i])) then Answered(Broken(EndOfInput))
    else if !Heard(keywords[i]) then Answered(Broken(TooLong))
    else if keywords[i] !in offers then Missing(keywords[i])
    else if ValueLines(OfferAt(keywords, offers, i)).None? then BadOffer(keywords[i])
    else if Serves(keywords, offers, i) then Concludes(keywords, offers, i + 1)
    else Answered(Broken(EndOfInput))
  }

  function Unheard(keywords: seq<string>, offers: Offers, i: nat): string
    decreases |keywords| - i
  {
    if i >= |keywords| || !Accepts(Question(keywords[i])) then ""
    else if !Heard(keywords[i]) then LineOf(Question(keywords[i])) + "\n"
    else if Serves(keywords, offers, i) then Unheard(keywords, offers, i + 1)
    else ""
  }

  /** The server's lines from the i-th question on. */
  function ServerFrom(keywords: seq<string>, offers: Offers, i: nat): seq<string>
    decreases |keywords| - i
  {
    if i >= |keywords| then ["OK"]
    else if !Accepts(Question(keywords[i])) then []
    else
      var later := if Serves(keywords, offers, i) then ServerFrom(keywords, offers, i + 1) else [];
      [LineOf(Question(keywords[i]))] + later
  }

  lemma LinesHave(v: Value)
    requires Arrives(v).Some?
    ensures ValueLines(v).Some?
  {
  }

  lemma ServerFacts(keywords: seq<string>, offers: Offers, i: nat)
    requires i < |keywords|
    ensures var k, served := keywords[i], Serves(keywords, offers, i);
      && (!Accepts(Question(k)) ==>
            ServerFrom(keywords, offers, i) == [] && QuestionsFrom(keywords, offers, i) == [])
      && (Accepts(Question(k)) ==>
            && ServerFrom(keywords, offers, i)
                 == [LineOf(Question(k))] + (if served then ServerFrom(keywords, offers, i + 1) else [])
            && QuestionsFrom(keywords, offers, i)
                 == [LineOf(Question(k))] + (if served then QuestionsFrom(keywords, offers, i + 1) else []))
      && (served ==> Accepts(Question(k)) && Collects(keywords, offers, i) == Collects(keywords, offers, i + 1))
      && (!served ==> !Collects(keywords, offers, i).All?)
  {
    var v := OfferAt(keywords, offers, i);
    if Serves(keywords, offers, i) { LinesHave(v); }
    hide Arrives, Arrival, OfferAt, ValueLines, Heard, Accepts, Gathered, LineOf;
  }

  /** Inquire's questions, and the handler's OK if it has collected everything. */
  lemma {:induction false} ServerFromIs(keywords: seq<string>, offers: Offers, i: nat)
    requires i <= |keywords|
    ensures ServerFrom(keywords, offers, i)
         == QuestionsFrom(keywords, offers, i) + if Collects(keywords, offers, i).All? then ["OK"] else []
    decreases |keywords| - i
  {
    if i == |keywords| {
      assert [] + ["OK"] == ["OK"];
    } else {
      hide *;
      ServerFacts(keywords, offers, i);
      ServerFromIs(keywords, offers, i + 1);
      var line, later := LineOf(Question(keywords[i])), QuestionsFrom(keywords, offers, i + 1);
      Associative([line], later, if Collects(keywords, offers, i).All? then ["OK"] else []);
    }
  }

  lemma QuestionHeard(k: string, tail: string)
    ensures ReadLine(LineOf(Question(k)) + "\n" + tail, true, MAX_LINE_LEN)
         == if Heard(k) then Got(Question(k), tail) else Fail(TooLong, LineOf(Question(k)) + "\n" + tail)
  {
    hide *;
    QuestionSendable(k);
    WriteReadIff(Question(k), tail, true, MAX_LINE_LEN);
  }

  /** Transact hears a question. */
  lemma TransactStep(k: string, tail: string, left: Offers)
    requires Heard(k)
    ensures var (lines, stop) := Respond(left, k);
      TransactLoop(LineOf(Question(k)) + "\n" + tail, left, "")
        == if stop.Some? then Exchange(lines, stop.value, tail)
           else
             var later := TransactLoop(tail, Consume(left, k), "");
             later.(sent := lines + later.sent)
  {
    QuestionHeard(k, tail);
    hide ReadLine, LineOf, Respond, Consume;
  }

  lemma TransactEnds(left: Offers)
    ensures TransactLoop("", left, "") == Exchange([], Answered(Broken(EndOfInput)), "")
    ensures TransactLoop(Bytes(["OK"]), left, "") == Exchange([], Answered(Data("")), "")
  {
    CleanBareLine("OK");
    assert ToUpper("OK") == "OK";
    ReadOneLine("OK", "", true, MAX_LINE_LEN);
    assert Bytes(["OK"]) == "OK" + "\n" + "" by { assert ["OK"][1..] == []; }
  }

  lemma TransactNotHeard(k: string, left: Offers)
    requires !Heard(k)
    ensures TransactLoop(LineOf(Question(k)) + "\n", left, "")
         == Exchange([], Answered(Broken(TooLong)), LineOf(Question(k)) + "\n")
  {
    QuestionHeard(k, "");
    assert LineOf(Question(k)) + "\n" + "" == LineOf(Question(k)) + "\n";
    hide ReadLine, LineOf;
  }

  lemma ServerStep(keywords: seq<string>, offers: Offers, i: nat)
    requires i < |keywords| && Accepts(Question(keywords[i]))
    ensures Bytes(ServerFrom(keywords, offers, i)) == LineOf(Question(keywords[i])) + "\n"
         + if Serves(keywords, offers, i) then Bytes(ServerFrom(keywords, offers, i + 1)) else ""
  {
    var line := LineOf(Question(keywords[i]));
    var later := if Serves(keywords, offers, i) then ServerFrom(keywords, offers, i + 1) else [];
    assert ([line] + later)[1..] == later;
    hide Serves, LineOf, Accepts;
  }

  lemma TransactFacts(keywords: seq<string>, offers: Offers, i: nat)
    requires i < |keywords| && Accepts(Question(keywords[i])) && Heard(keywords[i])
    ensures var k, v := keywords[i], OfferAt(keywords, offers, i);
      var served := Serves(keywords, offers, i);
      && (k !in offers || ValueLines(v).None? ==> !served)
      && AnswersFrom(keywords, offers, i) == (if k !in offers then ["CAN"] else if ValueLines(v).None? then []
           else OfferLines(v) + if served then AnswersFrom(keywords, offers, i + 1) else [])
      && Concludes(keywords, offers, i) == (if k !in offers then Missing(k) else if ValueLines(v).None? then BadOffer(k)
           else if served then Concludes(keywords, offers, i + 1) else Answered(Broken(EndOfInput)))
      && Unheard(keywords, offers, i) == (if served then Unheard(keywords, offers, i + 1) else "")
  {
    if ValueLines(OfferAt(keywords, offers, i)).None? { NoLinesNoArrival(OfferAt(keywords, offers, i)); }
    hide OfferAt, ValueLines, OfferLines, Arrives, Accepts, Heard, LineOf;
  }

  /** Transact on the server's lines from the i-th question on. */
  lemma {:induction false} TransactFollows(keywords: seq<string>, offers: Offers, i: nat)
    requires i <= |keywords|
    ensures TransactLoop(Bytes(ServerFrom(keywords, offers, i)), OffersAfter(offers, keywords[..i]), "")
         == Exchange(AnswersFrom(keywords, offers, i), Concludes(keywords, offers, i), Unheard(keywords, offers, i))
    decreases |keywords| - i
  {
    var left := OffersAfter(offers, keywords[..i]);
    TransactEnds(left);
    if i == |keywords| {
    } else if !Accepts(Question(keywords[i])) {
      assert Bytes([]) == "";
    } else if !Heard(keywords[i]) {
      TransactNotHeard(keywords[i], left);
      ServerStep(keywords, offers, i);
      assert !Serves(keywords, offers, i);
      hide TransactLoop, LineOf, Bytes, Accepts, Heard, Arrives;
      assert LineOf(Question(keywords[i])) + "\n" + "" == LineOf(Question(keywords[i])) + "\n";
    } else {
      TransactFollows(keywords, offers, i + 1);
      TransactHears(keywords, offers, i);
    }
  }

  lemma TransactHears(keywords: seq<string>, offers: Offers, i: nat)
    requires i < |keywords| && Accepts(Question(keywords[i])) && Heard(keywords[i])
    requires TransactLoop(Bytes(ServerFrom(keywords, offers, i + 1)), OffersAfter(offers, keywords[..i + 1]), "")
          == Exchange(AnswersFrom(keywords, offers, i + 1), Concludes(keywords, offers, i + 1),
                      Unheard(keywords, offers, i + 1))
    ensures TransactLoop(Bytes(ServerFrom(keywords, offers, i)), OffersAfter(offers, keywords[..i]), "")
         == Exchange(AnswersFrom(keywords, offers, i), Concludes(keywords, offers, i), Unheard(keywords, offers, i))
  {
    hide *;
    var k, v := keywords[i], OfferAt(keywords, offers, i);
    var later := if Serves(keywords, offers, i) then Bytes(ServerFrom(keywords, offers, i + 1)) else "";
    ServerStep(keywords, offers, i);
    TransactStep(k, later, OffersAfter(offers, keywords[..i]));
    OfferResponse(keywords, offers, i);
    ConsumedNext(keywords, offers, i);
    TransactFacts(keywords, offers, i);
    TransactEnds(OffersAfter(offers, keywords[..i + 1]));
    assert k in offers && ValueLines(v).Some? && !Serves(keywords, offers, i) ==> OfferLines(v) + [] == OfferLines(v);
  }

  /** Transact on everything the server writes. */
  lemma TransactOnQuestions(keywords: seq<string>, offers: Offers)
    ensures TransactLoop(Bytes(ServerFrom(keywords, offers, 0)), offers, "")
         == Exchange(AnswersFrom(keywords, offers, 0), Concludes(keywords, offers, 0), Unheard(keywords, offers, 0))
  {
    assert keywords[..0] == [] && OffersAfter(offers, []) == offers;
    TransactFollows(keywords, offers, 0);
    hide *;
  }

  /** Without a question, Transact reads as SimpleCmd does: the data joined, then the OK or
      the ERR. */
  lemma {:induction false} TransactIsSimple(input: string, offers: Offers, acc: string)
    requires forall m :: m in ReadAll(input, true, MAX_LINE_LEN).0 ==> m.cmd != "INQUIRE"
    ensures var (answer, unread) := ReadAnswer(input, acc, true);
      TransactLoop(input, offers, acc) == Exchange([], Answered(answer), unread)
    decreases |input|
  {
    var r := ReadLine(input, true, MAX_LINE_LEN);
    hide ReadLine;
    if r.Got? {
      var m, rest := r.message, r.rest;
      var later := ReadAll(rest, true, MAX_LINE_LEN).0;
      assert ReadAll(input, true, MAX_LINE_LEN).0 == [m] + later;
      assert m in [m] + later && forall x :: x in later ==> x in [m] + later;
      if !Final(m) { TransactIsSimple(rest, offers, Absorb(acc, m)); }
    }
  }

  // ---- and the runs ----

  /** Up to the first keyword that is not served, nothing is decided. */
  lemma {:induction false} DecidedAt(keywords: seq<string>, offers: Offers, i: nat)
    requires ServesBefore(keywords, offers, i)
    ensures Collects(keywords, offers, 0) == Collects(keywords, offers, i)
    ensures Leaves(keywords, offers, 0) == Leaves(keywords, offers, i)
    ensures Concludes(keywords, offers, 0) == Concludes(keywords, offers, i)
    ensures Unheard(keywords, offers, 0) == Unheard(keywords, offers, i)
    decreases i
  {
    if i == 0 {
    } else {
      DecidedAt(keywords, offers, i - 1);
      assert Serves(keywords, offers, i - 1);
      ServedStep(keywords, offers, i - 1);
      hide *;
    }
  }

  lemma ServedStep(keywords: seq<string>, offers: Offers, i: nat)
    requires i < |keywords| && Serves(keywords, offers, i)
    ensures Collects(keywords, offers, i) == Collects(keywords, offers, i + 1)
    ensures Leaves(keywords, offers, i) == Leaves(keywords, offers, i + 1)
    ensures Concludes(keywords, offers, i) == Concludes(keywords, offers, i + 1)
    ensures Unheard(keywords, offers, i) == Unheard(keywords, offers, i + 1)
  {
    if ValueLines(OfferAt(keywords, offers, i)).None? { NoLinesNoArrival(OfferAt(keywords, offers, i)); }
    hide OfferAt, ValueLines, Arrives, Arrival, Accepts, Heard, LineOf, Gathered;
  }

  /** Where the exchange stops at a keyword, both sequential loops stop in the same way. */
  lemma StoppedAlike(keywords: seq<string>, offers: Offers, s: State, i: nat)
    requires FirstFailure(keywords, offers, i) && EndsAt(keywords, offers, s, i)
    ensures Collects(keywords, offers, i) == ServerEnd(s) && Bytes(Leaves(keywords, offers, i)) == s.c2s
    ensures Concludes(keywords, offers, i) == ClientEnd(s) && Unheard(keywords, offers, i) == s.s2c
  {
    hide *;
    ServerStops(keywords, offers, s, i);
    ClientStops(keywords, offers, s, i);
  }

  lemma ServerStops(keywords: seq<string>, offers: Offers, s: State, i: nat)
    requires FirstFailure(keywords, offers, i) && EndsAt(keywords, offers, s, i)
    ensures Collects(keywords, offers, i) == ServerEnd(s) && Bytes(Leaves(keywords, offers, i)) == s.c2s
  {
    var v := OfferAt(keywords, offers, i);
    if ValueLines(v).None? { NoLinesNoArrival(v); }
    assert Bytes([]) == "";
    hide OfferAt, ValueLines, Arrives, Arrival, Accepts, Heard, LineOf, Gathered, ServesBefore, Bytes;
  }

  lemma ClientStops(keywords: seq<string>, offers: Offers, s: State, i: nat)
    requires FirstFailure(keywords, offers, i) && EndsAt(keywords, offers, s, i)
    ensures Concludes(keywords, offers, i) == ClientEnd(s) && Unheard(keywords, offers, i) == s.s2c
  {
    hide OfferAt, ValueLines, Arrival, Accepts, Heard, LineOf, ServesBefore, Serves, Bytes;
  }

  lemma EndedAlike(keywords: seq<string>, offers: Offers, s: State)
    requires EndsWell(keywords, offers, s)
    ensures var n := |keywords|;
      && Collects(keywords, offers, n) == ServerEnd(s) && Bytes(Leaves(keywords, offers, n)) == s.c2s
      && Concludes(keywords, offers, n) == ClientEnd(s) && Unheard(keywords, offers, n) == s.s2c
  {
    hide Gathered;
  }

  /** Main result. There is one transcript: Inquire on the client's part of it writes the
      server's questions, and Transact on the server's part writes the client's answers.
      Every complete run ends as these two loops do: with the same result of Inquire, the
      same outcome of Transact, and the same bytes left unread on either side. */
  lemma RunsEndAsTheLoops(keywords: seq<string>, offers: Offers, run: seq<State>)
    requires Complete(keywords, offers, run)
    ensures var s := run[|run| - 1];
      var answers, lines := AnswersFrom(keywords, offers, 0), ServerFrom(keywords, offers, 0);
      var x := InquireLoop(Bytes(answers), keywords, map[], MAX_LINE_LEN);
      var y := TransactLoop(Bytes(lines), offers, "");
      && x.lines + (if x.collected.All? then ["OK"] else []) == lines && y.sent == answers
      && x.collected == ServerEnd(s) && x.unread == s.c2s
      && y.outcome == ClientEnd(s) && y.unread == s.s2c
  {
    var s := run[|run| - 1];
    hide *;
    InquireOnAnswers(keywords, offers);
    TransactOnQuestions(keywords, offers);
    ServerFromIs(keywords, offers, 0);
    ExchangeEnds(keywords, offers, run);
    if ServesBefore(keywords, offers, |keywords|) {
      EndedAlike(keywords, offers, s);
      DecidedAt(keywords, offers, |keywords|);
    } else {
      var i :| FirstFailure(keywords, offers, i);
      FailsAfter(keywords, offers, i);
      StoppedAlike(keywords, offers, s, i);
      DecidedAt(keywords, offers, i);
    }
  }

  lemma FailsAfter(keywords: seq<string>, offers: Offers, i: nat)
    requires FirstFailure(keywords, offers, i)
    ensures ServesBefore(keywords, offers, i) && i < |keywords|
  {
  }

  lemma ServedHence(keywords: seq<string>, offers: Offers)
    requires ServesBefore(keywords, offers, |keywords|)
    ensures Collects(keywords, offers, 0) == All(Gathered(offers, keywords)) && Leaves(keywords, offers, 0) == []
    ensures Bytes([]) == ""
  {
    DecidedAt(keywords, offers, |keywords|);
    hide Gathered;
  }

  /** The questions for some keywords, in order. */
  function AllAsked(keywords: seq<string>): (lines: seq<string>)
    ensures |lines| == |keywords|
    ensures forall i :: 0 <= i < |keywords| ==> lines[i] == LineOf(Question(keywords[i]))
  {
    seq(|keywords|, i requires 0 <= i < |keywords| => LineOf(Question(keywords[i])))
  }

  /** Main result on Inquire alone: given the bytes of offers that all arrive, laid one
      after the other, it asks for every keyword in order and returns exactly the keywords,
      each with what arrives of its offer when it is last asked for. */
  lemma InquireCollectsAll(keywords: seq<string>, offers: Offers)
    requires AllOffered(keywords, offers) && AllArrive(offers, keywords)
    ensures InquireLoop(Bytes(AnswersFrom(keywords, offers, 0)), keywords, map[], MAX_LINE_LEN)
         == Inquired(AllAsked(keywords), All(map k | k in keywords :: LastArrival(offers, keywords, k)), "")
  {
    InquireOnAnswers(keywords, offers);
    ServedIff(keywords, offers);
    ServedHence(keywords, offers);
    GatheredAre(offers, keywords);
    AllQuestions(keywords, offers, 0);
    hide *;
    assert keywords[0..] == keywords;
  }

  lemma {:induction false} AllQuestions(keywords: seq<string>, offers: Offers, i: nat)
    requires ServesBefore(keywords, offers, |keywords|) && i <= |keywords|
    ensures QuestionsFrom(keywords, offers, i) == AllAsked(keywords[i..])
    decreases |keywords| - i
  {
    if i == |keywords| {
      assert keywords[i..] == [];
    } else {
      assert Serves(keywords, offers, i);
      AllQuestions(keywords, offers, i + 1);
      assert keywords[i..][1..] == keywords[i + 1..];
      hide LineOf, Heard, Arrives, OfferAt, Accepts;
    }
  }

  /** The client's part of the transcript then: the lines of each offer in turn. */
  lemma AllAnswers(keywords: seq<string>, offers: Offers, i: nat)
    requires ServesBefore(keywords, offers, |keywords|) && i <= |keywords|
    ensures i == |keywords| ==> AnswersFrom(keywords, offers, i) == []
    ensures i < |keywords| ==> ValueLines(OfferAt(keywords, offers, i)).Some?
    ensures i < |keywords| ==>
      AnswersFrom(keywords, offers, i)
        == OfferLines(OfferAt(keywords, offers, i)) + AnswersFrom(keywords, offers, i + 1)
  {
    if i < |keywords| {
      assert Serves(keywords, offers, i);
      LinesHave(OfferAt(keywords, offers, i));
    }
    hide LineOf, Heard, Arrives, OfferAt, Accepts, ValueLines, OfferLines;
  }
}
