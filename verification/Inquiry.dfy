/**
 Inquire (assuan/server/inquire.go): its loop, what a handler makes of its result, what
 becomes of one offer of the client (assuan/client/session.go), and of all of them.
 */
module Inquiry {
  import opened Basics
  import opened Client
  import opened Escape
  import opened Pipes
  import S = Server
  import opened Transfer
  import opened Wire

  // ---- Inquire ----

  /** Inquire's result. ReadData's error is a value, not the pointer Inquire looks for, so
      no failure is reported to the client: nothing is written after it. */
  datatype Collected = All(res: map<string, string>) | TooLongToAsk | Failed(why: Received)

  function Question(keyword: string): Message { Message("INQUIRE", keyword) }

  /** What Inquire writes, what it returns, what it leaves unread. */
  datatype Inquired = Inquired(lines: seq<string>, collected: Collected, unread: string)

  function InquireLoop(input: string, keywords: seq<string>, res: map<string, string>, limit: nat): Inquired
    decreases keywords
  {
    if keywords == [] then Inquired([], All(res), input)
    else if !Accepts(Question(keywords[0])) then Inquired([], TooLongToAsk, input)
    else
      var (received, rest) := ReadData(input, "", true, limit);
      var line := LineOf(Question(keywords[0]));
      if !received.Payload? then Inquired([line], Failed(received), rest)
      else
        var more := InquireLoop(rest, keywords[1..], res[keywords[0] := received.bytes], limit);
        more.(lines := [line] + more.lines)
  }

  method Inquire(pipe: Pipe, keywords: seq<string>) returns (collected: Collected)
    modifies pipe`input, pipe`output
    ensures var x := InquireLoop(old(pipe.input), keywords, map[], pipe.limit);
      pipe.output == old(pipe.output) + Bytes(x.lines) && collected == x.collected && pipe.input == x.unread
  {
    var res: map<string, string> := map[];
    var left := keywords;
    ghost var whole := InquireLoop(pipe.input, keywords, map[], pipe.limit);
    ghost var goal := pipe.output + Bytes(whole.lines);
    while left != []
      invariant var x := InquireLoop(pipe.input, left, res, pipe.limit);
        && pipe.output + Bytes(x.lines) == goal
        && x.collected == whole.collected && x.unread == whole.unread
      decreases left
    {
      ghost var x := InquireLoop(pipe.input, left, res, pipe.limit);
      ghost var output, line := pipe.output, LineOf(Question(left[0]));
      var ok := pipe.WriteLine("INQUIRE", left[0]);
      if !ok {
        assert output + "" == output;
        return TooLongToAsk;
      }
      var received := pipe.ReadData();
      assert x.lines == [line] + x.lines[1..];
      PrependLine(output, line, x.lines[1..]);
      if !received.Payload? {
        assert x.lines[1..] == [] && pipe.output + "" == pipe.output;
        return Failed(received);
      }
      res := res[left[0] := received.bytes];
      left := left[1..];
      assert x.lines[1..] == InquireLoop(pipe.input, left, res, pipe.limit).lines;
    }
    assert pipe.output + "" == pipe.output;
    return All(res);
  }

  // ---- what a handler makes of it ----

  /** The verdict of a handler that returns Inquire's error if there is one: it is never a
      *common.Error. */
  function VerdictOf(collected: Collected): S.Verdict { if collected.All? then S.Fine else S.Fatal }

  /** Such a handler is answered OK, and the command loop goes on, if and only if Inquire has
      collected everything; otherwise nothing is reported and no later command is read. */
  lemma PassedOnEndsSession<T>(
    proto: S.Proto<T>, srv: S.Srv<T>, orders: S.Orders, k: nat, input: string, collected: Collected)
    requires var r := ReadLine(input, true, MAX_LINE_LEN);
      && r.Got? && r.message.cmd !in ["BYE", "NOP", "OPTION", "HELP", "RESET"]
      && srv.handlers.Some? && r.message.cmd in srv.handlers.value
      && srv.handlers.value[r.message.cmd](srv.state, r.message.params).verdict == VerdictOf(collected)
    ensures var Got(m, rest) := ReadLine(input, true, MAX_LINE_LEN);
      var h := srv.handlers.value[m.cmd](srv.state, m.params);
      S.ServeLoop(proto, srv, orders, k, input) == S.EmitLines(h.emits)
        + if collected.All? then ["OK"] + S.ServeLoop(proto, srv.(state := h.state), orders, k + 1, rest) else []
  {
    var Got(m, rest) := ReadLine(input, true, MAX_LINE_LEN);
    var h := srv.handlers.value[m.cmd](srv.state, m.params);
    var order := orders(k, S.HandlerNames(srv));
    FinalOk();
    assert S.Handle(proto, srv, m, order) == S.RunReply(srv.handlers.value, srv, m);
    hide ReadLine, S.WriteSeq, S.EmitLines, S.Handle;
    if collected.All? {
      Associative(S.EmitLines(h.emits), ["OK"], S.ServeLoop(proto, srv.(state := h.state), orders, k + 1, rest));
    } else {
      assert S.EmitLines(h.emits) + [] == S.EmitLines(h.emits);
    }
  }

  lemma FinalOk()
    ensures S.WriteSeq([S.OK]) == (["OK"], true)
  {
    S.OkLine();
    assert [S.OK][1..] == [] && ["OK"] + [] == ["OK"];
    assert S.WriteSeq([]) == ([], true);
  }

  // ---- what the server receives of one offer ----

  /** ReadData's loop on one line. */
  datatype LineRead = Overlong | Goes(acc: string) | Stops(received: Received)

  function TakeLine(acc: string, line: string): LineRead {
    if |line| >= MAX_LINE_LEN then Overlong
    else
      match Parse(line)
      case Skipped => Goes(acc)
      case Malformed => Stops(Interrupted(BadEscape))
      case Parsed(m) =>
        match Take(acc, m)
        case More(joined) => Goes(joined)
        case Over(received) => Stops(received)
  }

  /** What ReadData returns for some lines, and those it leaves. */
  datatype Reception = Reception(received: Received, unread: seq<string>)

  function Receive(acc: string, lines: seq<string>): Reception
    decreases |lines|
  {
    if lines == [] then Reception(Interrupted(Blocked), [])
    else
      match TakeLine(acc, lines[0])
      case Overlong => Reception(Interrupted(TooLong), lines)
      case Goes(joined) => Receive(joined, lines[1..])
      case Stops(received) => Reception(received, lines[1..])
  }

  /** A line the scanner hands over as it is, if it is not too long, and the parser sees. */
  predicate Sound(line: string) { '\n' !in line && DropCR(line) == line && !Parse(line).Skipped? }

  lemma SoundRead(line: string, tail: string)
    requires Sound(line)
    ensures ReadLine(line + "\n" + tail, false, MAX_LINE_LEN)
         == if |line| >= MAX_LINE_LEN then Fail(TooLong, line + "\n" + tail)
            else match Parse(line)
                 case Malformed => Fail(BadEscape, tail)
                 case Parsed(m) => Got(m, tail)
  {
    ScanOneLine(line, tail, false, MAX_LINE_LEN);
  }

  /** On such lines it is ReadData, byte for byte. */
  lemma {:induction false} ReceiveIsReadData(acc: string, lines: seq<string>)
    requires forall line :: line in lines ==> Sound(line)
    ensures ReadData(Bytes(lines), acc, false, MAX_LINE_LEN)
         == (Receive(acc, lines).received, Bytes(Receive(acc, lines).unread))
    decreases |lines|
  {
    if lines == [] {
    } else {
      assert lines[0] in lines && forall line :: line in lines[1..] ==> line in lines;
      SoundRead(lines[0], Bytes(lines[1..]));
      hide ReadLine, Parse, DropCR;
      match TakeLine(acc, lines[0]) {
        case Goes(joined) => ReceiveIsReadData(joined, lines[1..]);
        case _ =>
      }
    }
  }

  /** Lines of one offer: data lines and END. */
  predicate IsData(line: string) {
    Sound(line) && (Parse(line).Parsed? ==> Parse(line).message.cmd == "D")
  }

  ghost predicate Stream(lines: seq<string>) {
    && lines != [] && lines[|lines| - 1] == "END"
    && forall i :: 0 <= i < |lines| - 1 ==> IsData(lines[i])
  }

  lemma EndLine()
    ensures Sound("END") && Parse("END") == Parsed(Message("END", ""))
    ensures forall acc :: TakeLine(acc, "END") == Stops(Payload(acc))
  {
    CleanBareLine("END");
    assert ToUpper("END") == "END";
  }

  lemma StreamSound(lines: seq<string>)
    requires Stream(lines)
    ensures forall line :: line in lines ==> Sound(line)
  {
    EndLine();
    forall line | line in lines ensures Sound(line) {
      var i :| 0 <= i < |lines| && lines[i] == line;
      if i < |lines| - 1 { assert IsData(lines[i]); }
    }
  }

  /** One line of a stream: a payload is complete at END, which is the last line. */
  lemma StreamStep(acc: string, lines: seq<string>)
    requires Stream(lines)
    ensures Sound(lines[0])
    ensures match TakeLine(acc, lines[0])
            case Overlong => |lines| > 1
            case Goes(_) => |lines| > 1 && Stream(lines[1..])
            case Stops(received) =>
              if |lines| == 1 then received == Payload(acc) else received == Interrupted(BadEscape)
  {
    EndLine();
    if |lines| > 1 {
      assert IsData(lines[0]);
      assert forall i :: 0 <= i < |lines[1..]| ==> lines[1..][i] == lines[i + 1];
    }
  }

  /** A payload, with nothing left, or a failed read. */
  lemma {:induction false} StreamReceived(acc: string, lines: seq<string>)
    requires Stream(lines)
    ensures var r := Receive(acc, lines);
      if r.received.Payload? then r.unread == []
      else r.received == Interrupted(TooLong) || r.received == Interrupted(BadEscape)
    decreases |lines|
  {
    StreamStep(acc, lines);
    match TakeLine(acc, lines[0]) {
      case Goes(joined) => StreamReceived(joined, lines[1..]);
      case _ =>
    }
  }

  /** A payload is received only if every data line fits and can be unescaped. */
  lemma {:induction false} PayloadLines(acc: string, lines: seq<string>)
    requires Stream(lines) && Receive(acc, lines).received.Payload?
    ensures forall i :: 0 <= i < |lines| - 1 ==> |lines[i]| < MAX_LINE_LEN && Parse(lines[i]).Parsed?
    decreases |lines|
  {
    StreamStep(acc, lines);
    if |lines| > 1 {
      var joined := TakeLine(acc, lines[0]).acc;
      PayloadLines(joined, lines[1..]);
      forall i | 0 <= i < |lines| - 1 ensures |lines[i]| < MAX_LINE_LEN && Parse(lines[i]).Parsed? {
        if i > 0 { assert lines[i] == lines[1..][i - 1]; }
      }
    }
  }

  lemma ChunkIsData(chunk: string)
    requires '\n' !in chunk && '\r' !in chunk
    ensures IsData(DataLine(chunk))
  {
    DataLineParses(chunk);
  }

  lemma {:induction false} PartsWithout(blocks: seq<string>, c: char)
    requires c !in Concat(blocks)
    ensures forall b :: b in blocks ==> c !in b
  {
    if blocks == [] {
    } else {
      assert Concat(blocks) == blocks[0] + Concat(blocks[1..]);
      assert forall x :: x in blocks[0] ==> x in Concat(blocks);
      assert forall x :: x in Concat(blocks[1..]) ==> x in Concat(blocks);
      PartsWithout(blocks[1..], c);
      assert forall b :: b in blocks ==> b == blocks[0] || b in blocks[1..];
    }
  }

  lemma StreamOf(lines: seq<string>)
    requires forall i :: 0 <= i < |lines| ==> IsData(lines[i])
    ensures Stream(lines + ["END"])
  {
    hide IsData;
  }

  lemma TextStreams(text: string)
    ensures Stream(DataLines(text) + ["END"])
  {
    var encoded := EscapeParameters(text);
    EscapeAlphabet(text);
    ChunkCount(encoded);
    PartsWithout(Chunks(encoded), '\n');
    PartsWithout(Chunks(encoded), '\r');
    hide Chunks, EscapeParameters, IsData, Stream;
    forall i | 0 <= i < |DataLines(text)| ensures IsData(DataLines(text)[i]) {
      assert Chunks(encoded)[i] in Chunks(encoded);
      ChunkIsData(Chunks(encoded)[i]);
    }
    StreamOf(DataLines(text));
  }

  lemma BlocksStream(blocks: seq<string>)
    ensures Stream(BlockLines(blocks) + ["END"])
  {
    hide IsData, Stream;
    forall i | 0 <= i < |blocks| ensures IsData(BlockLines(blocks)[i]) {
      EscapeAlphabet(blocks[i]);
      ChunkIsData(EscapeParameters(blocks[i]));
    }
    StreamOf(BlockLines(blocks));
  }

  /** The lines of a usable offer, END included. */
  function OfferLines(v: Value): seq<string>
    requires ValueLines(v).Some?
  {
    ValueLines(v).value + ["END"]
  }

  lemma OfferStreams(v: Value)
    requires ValueLines(v).Some?
    ensures Stream(OfferLines(v))
  {
    match v {
      case Raw(bytes) => TextStreams(bytes);
      case Reader(blocks) => BlocksStream(blocks);
      case Marshaler(Some(text)) => TextStreams(text);
    }
  }

  function Arrival(v: Value): Reception
    requires ValueLines(v).Some?
  {
    Receive("", OfferLines(v))
  }

  /** It is what ReadData makes of the offer's bytes: a payload, with nothing left, or a
      failed read of a line that is too long or cannot be unescaped. */
  lemma ArrivalIs(v: Value)
    requires ValueLines(v).Some?
    ensures var r := Arrival(v);
      && ReadData(Bytes(OfferLines(v)), "", false, MAX_LINE_LEN) == (r.received, Bytes(r.unread))
      && if r.received.Payload? then r.unread == []
         else r.received == Interrupted(TooLong) || r.received == Interrupted(BadEscape)
  {
    OfferStreams(v);
    StreamSound(OfferLines(v));
    ReceiveIsReadData("", OfferLines(v));
    StreamReceived("", OfferLines(v));
    hide *;
  }

  /** What the server gets of an offer, if it gets a payload at all. */
  function Arrives(v: Value): Option<string> {
    if ValueLines(v).Some? && Arrival(v).received.Payload? then Some(Arrival(v).received.bytes) else None
  }

  /** What was offered. */
  function PayloadOf(v: Value): string {
    match v
    case Raw(bytes) => bytes
    case Reader(blocks) => Concat(blocks)
    case Marshaler(Some(text)) => text
    case _ => ""
  }

  ghost predicate BlocksCarried(blocks: seq<string>) {
    forall b :: b in blocks ==> !TooBig(b, MAX_LINE_LEN) && '%' !in b
  }

  /** A payload without `%`, without a bad cut, without a block whose line is too long. */
  ghost predicate Carried(v: Value) {
    match v
    case Raw(bytes) => CutFree(bytes) && '%' !in bytes
    case Reader(blocks) => BlocksCarried(blocks)
    case Marshaler(Some(text)) => CutFree(text) && '%' !in text
    case Marshaler(None) => false
    case Other => false
  }

  lemma EndOfStream(lines: seq<string>)
    ensures Bytes(lines + ["END"]) == Bytes(lines) + ("END\n" + "")
  {
    BytesAppend(lines, ["END"]);
    assert Bytes(["END"]) == "END\n" + "" by { assert ["END"][1..] == [] && "END" + "\n" + "" == "END\n" + ""; }
  }

  lemma TextArrivesIff(text: string)
    ensures Receive("", DataLines(text) + ["END"]).received == Payload(text) <==> CutFree(text) && '%' !in text
  {
    var lines := DataLines(text) + ["END"];
    TextStreams(text);
    StreamSound(lines);
    ReceiveIsReadData("", lines);
    EndOfStream(DataLines(text));
    if CutFree(text) {
      ReadDataRoundTripIff(text, "", false);
    } else {
      var b := FirstBadCut(text);
      CutLinesFail(text, b);
      assert lines[b - 1] == DataLines(text)[b - 1];
      if Receive("", lines).received.Payload? { PayloadLines("", lines); }
    }
    hide *;
  }

  lemma BlocksArriveIff(blocks: seq<string>)
    ensures Receive("", BlockLines(blocks) + ["END"]).received == Payload(Concat(blocks)) <==> BlocksCarried(blocks)
  {
    var lines := BlockLines(blocks) + ["END"];
    BlocksStream(blocks);
    StreamSound(lines);
    ReceiveIsReadData("", lines);
    EndOfStream(BlockLines(blocks));
    hide ReadData, Receive, Stream, Sound, Bytes;
    if forall b :: b in blocks ==> !TooBig(b, MAX_LINE_LEN) {
      forall b | b in blocks ensures |EscapeParameters(b)| + 3 <= MAX_LINE_LEN { EscapeLength(b); }
      BlocksReadTwice(blocks, "", "", false, MAX_LINE_LEN);
      TwiceIsIdentityIff(blocks);
      PercentIn(blocks);
      assert "" + Concat(blocks) == Concat(blocks);
    } else {
      var i :| 0 <= i < |blocks| && TooBig(blocks[i], MAX_LINE_LEN);
      BlockLineLength(blocks[i]);
      assert lines[i] == DataLine(EscapeParameters(blocks[i]));
      if Receive("", lines).received.Payload? { PayloadLines("", lines); }
    }
  }

  lemma {:induction false} PercentIn(blocks: seq<string>)
    ensures '%' in Concat(blocks) <==> exists b :: b in blocks && '%' in b
  {
    if blocks == [] {
    } else {
      PercentIn(blocks[1..]);
      assert forall b :: b in blocks <==> b == blocks[0] || b in blocks[1..];
    }
  }

  /** A usable offer arrives as it was offered if and only if it has no `%`, no bad cut and
      no block whose line is too long. */
  lemma ArrivesWholeIff(v: Value)
    ensures ValueLines(v).Some? && Arrives(v) == Some(PayloadOf(v)) <==> Carried(v)
  {
    match v {
      case Raw(bytes) => TextArrivesIff(bytes);
      case Reader(blocks) => BlocksArriveIff(blocks);
      case Marshaler(Some(text)) => TextArrivesIff(text);
      case Marshaler(None) =>
      case Other =>
    }
    hide Receive, BlocksCarried, CutFree, DataLines, BlockLines;
  }

  /** A reader that has been used arrives as nothing. */
  lemma UsedArrives()
    ensures Arrives(Reader([])) == Some("")
  {
    ArrivesWholeIff(Reader([]));
  }

  /** A single percent sign cannot be unescaped a second time: END is left unread. */
  lemma PercentArrival()
    ensures Arrival(Raw("%")) == Reception(Interrupted(BadEscape), ["END"])
  {
    assert EscapeParameters("%") == "%25" by { assert "%"[1..] == ""; }
    OneChunk("%");
    assert ["%"][1..] == [];
    assert DataLines("%") == [DataLine("%25")];
    UnescapeEscape("%");
    DataLineParses("%25");
    hide DataLines, EscapeParameters, Parse;
    assert UnescapeParameters("%") == None;
    assert TakeLine("", DataLine("%25")) == Stops(Interrupted(BadEscape));
    assert OfferLines(Raw("%")) == [DataLine("%25"), "END"];
  }

  // ---- all keywords ----

  /** The offers after some keywords have been asked for. */
  function OffersAfter(offers: Offers, keywords: seq<string>): Offers {
    if keywords == [] then offers
    else Consume(OffersAfter(offers, keywords[..|keywords| - 1]), keywords[|keywords| - 1])
  }

  /** An offer that has been asked for is used, every other one is untouched. */
  lemma {:induction false} OffersAfterAre(offers: Offers, keywords: seq<string>)
    ensures OffersAfter(offers, keywords).Keys == offers.Keys
    ensures forall k :: k in offers ==>
      OffersAfter(offers, keywords)[k] == if k in keywords then Used(offers[k]) else offers[k]
    decreases |keywords|
  {
    if keywords == [] {
    } else {
      var before, last := keywords[..|keywords| - 1], keywords[|keywords| - 1];
      OffersAfterAre(offers, before);
      assert forall k :: k in keywords <==> k in before || k == last;
    }
  }

  /** The offer for a keyword after others have been asked for. */
  function OfferAfter(offers: Offers, before: seq<string>, k: string): Value {
    if k !in offers then Other else if k in before then Used(offers[k]) else offers[k]
  }

  /** The server's map after some keywords: what arrives of each one's offer at the time it
      is asked for. */
  function Gathered(offers: Offers, keywords: seq<string>): map<string, string> {
    if keywords == [] then map[]
    else
      var before, k := keywords[..|keywords| - 1], keywords[|keywords| - 1];
      Gathered(offers, before)[k := Arrived(OfferAfter(offers, before, k))]
  }

  function Arrived(v: Value): string { if Arrives(v).Some? then Arrives(v).value else "" }

  ghost predicate Repeated(keywords: seq<string>, k: string) {
    exists i, j :: 0 <= i < j < |keywords| && keywords[i] == k && keywords[j] == k
  }

  /** The last read of a reader asked for twice finds it exhausted. */
  ghost function LastArrival(offers: Offers, keywords: seq<string>, k: string): string
    requires k in offers
  {
    if Repeated(keywords, k) && offers[k].Reader? then "" else Arrived(offers[k])
  }

  lemma RepeatedAppend(keywords: seq<string>, last: string, k: string)
    ensures Repeated(keywords + [last], k) <==> Repeated(keywords, k) || (k == last && k in keywords)
  {
    var all := keywords + [last];
    if Repeated(keywords, k) {
      var i, j :| 0 <= i < j < |keywords| && keywords[i] == k && keywords[j] == k;
      assert all[i] == k && all[j] == k;
    }
    if k == last && k in keywords {
      var i :| 0 <= i < |keywords| && keywords[i] == k;
      assert all[i] == k && all[|keywords|] == k;
    }
    if Repeated(all, k) {
      var i, j :| 0 <= i < j < |all| && all[i] == k && all[j] == k;
      assert keywords[i] == k && (j < |keywords| ==> keywords[j] == k);
    }
  }

  lemma LastArrivalAfter(offers: Offers, before: seq<string>, last: string)
    requires last in offers && forall k :: k in before ==> k in offers
    ensures LastArrival(offers, before + [last], last) == Arrived(OfferAfter(offers, before, last))
    ensures forall k :: k in before && k != last ==>
      LastArrival(offers, before + [last], k) == LastArrival(offers, before, k)
  {
    RepeatedAppend(before, last, last);
    UsedArrives();
    assert Repeated(before, last) ==> last in before;
    hide Arrives;
    forall k | k in before && k != last
      ensures LastArrival(offers, before + [last], k) == LastArrival(offers, before, k)
    {
      RepeatedAppend(before, last, k);
    }
  }

  lemma GatheredStep(offers: Offers, before: seq<string>, last: string)
    ensures Gathered(offers, before + [last])
         == Gathered(offers, before)[last := Arrived(OfferAfter(offers, before, last))]
  {
    assert (before + [last])[..|before|] == before;
  }

  lemma {:induction false} GatheredAt(offers: Offers, keywords: seq<string>)
    requires forall k :: k in keywords ==> k in offers
    ensures forall k :: k in Gathered(offers, keywords) <==> k in keywords
    ensures forall k :: k in keywords ==> Gathered(offers, keywords)[k] == LastArrival(offers, keywords, k)
    decreases |keywords|
  {
    if keywords == [] {
    } else {
      var before, last := keywords[..|keywords| - 1], keywords[|keywords| - 1];
      assert keywords == before + [last];
      GatheredAt(offers, before);
      GatheredStep(offers, before, last);
      LastArrivalAfter(offers, before, last);
      hide *;
    }
  }

  /** The server's map, for every list of offered keywords. */
  lemma GatheredAre(offers: Offers, keywords: seq<string>)
    requires forall k :: k in keywords ==> k in offers
    ensures Gathered(offers, keywords) == map k | k in keywords :: LastArrival(offers, keywords, k)
  {
    GatheredAt(offers, keywords);
    hide *;
  }

  ghost function OwnPayloads(offers: Offers, keywords: seq<string>): map<string, string>
    requires forall k :: k in keywords ==> k in offers
  {
    map k | k in keywords :: PayloadOf(offers[k])
  }

  /** A reader that holds something is asked for twice. */
  ghost predicate ReaderRepeats(offers: Offers, keywords: seq<string>) {
    exists k :: k in keywords && k in offers && Repeated(keywords, k) && offers[k].Reader? && PayloadOf(offers[k]) != ""
  }

  /** Every offer asked for arrives as something. */
  ghost predicate AllArrive(offers: Offers, keywords: seq<string>) {
    forall k :: k in keywords ==> k in offers && Arrives(offers[k]).Some?
  }

  ghost predicate AllCarried(offers: Offers, keywords: seq<string>) {
    forall k :: k in keywords ==> k in offers && Carried(offers[k])
  }

  /** Every keyword gets its own payload, and no other keyword is in the map, if and only
      if every payload can be carried and no reader that holds something is asked for twice. */
  lemma GatheredIsOwnPayloadIff(offers: Offers, keywords: seq<string>)
    requires AllArrive(offers, keywords)
    ensures Gathered(offers, keywords) == OwnPayloads(offers, keywords) <==>
      AllCarried(offers, keywords) && !ReaderRepeats(offers, keywords)
  {
    hide Arrives, Carried, PayloadOf, Gathered;
    GatheredAre(offers, keywords);
    var gathered, own := Gathered(offers, keywords), OwnPayloads(offers, keywords);
    forall k | k in keywords
      ensures gathered[k] == own[k] <==> Carried(offers[k]) && !RepeatsAt(offers, keywords, k)
    {
      OneIsOwnIff(offers, keywords, k);
    }
    if gathered == own {
      forall k | k in keywords ensures Carried(offers[k]) && !RepeatsAt(offers, keywords, k) {
        assert gathered[k] == own[k];
      }
    }
    assert ReaderRepeats(offers, keywords) <==> exists k :: k in keywords && RepeatsAt(offers, keywords, k);
  }

  ghost predicate RepeatsAt(offers: Offers, keywords: seq<string>, k: string) {
    k in offers && Repeated(keywords, k) && offers[k].Reader? && PayloadOf(offers[k]) != ""
  }

  lemma OneIsOwnIff(offers: Offers, keywords: seq<string>, k: string)
    requires k in offers && Arrives(offers[k]).Some?
    ensures LastArrival(offers, keywords, k) == PayloadOf(offers[k]) <==>
      Carried(offers[k]) && !RepeatsAt(offers, keywords, k)
  {
    ArrivesWholeIff(offers[k]);
    if offers[k].Reader? && PayloadOf(offers[k]) == "" { EmptyReader(offers[k].blocks); }
    hide Arrives, Repeated;
  }

  lemma EmptyReader(blocks: seq<string>)
    requires Concat(blocks) == ""
    ensures BlocksCarried(blocks)
  {
    PartsEmpty(blocks);
  }

  lemma {:induction false} PartsEmpty(blocks: seq<string>)
    requires Concat(blocks) == ""
    ensures forall b :: b in blocks ==> b == ""
  {
    if blocks == [] {
    } else {
      assert |Concat(blocks)| == |blocks[0]| + |Concat(blocks[1..])|;
      PartsEmpty(blocks[1..]);
      assert forall b :: b in blocks ==> b == blocks[0] || b in blocks[1..];
    }
  }

  /** A reader asked for twice under one keyword: the server is left with nothing of it. */
  lemma AskedTwice()
    ensures var offers := map["a" := Reader(["x"])];
      Gathered(offers, ["a", "a"]) == map["a" := ""] && OwnPayloads(offers, ["a", "a"]) == map["a" := "x"]
  {
    var offers, keywords := map["a" := Reader(["x"])], ["a", "a"];
    assert Repeated(keywords, "a") by { assert keywords[0] == "a" && keywords[1] == "a"; }
    GatheredAre(offers, keywords);
    assert Concat(["x"]) == "x" by { assert ["x"][1..] == []; }
    hide Arrives, Gathered, Repeated;
  }
}
