/** The client side of a session (assuan/client/session.go). */
module Client {
  import opened Basics
  import opened Errors
  import opened Pipes
  import opened Transfer
  import opened Wire

  /** What a caller can offer under a keyword: bytes, a reader (the blocks it still
      returns), a marshaler (its text, None if it fails), or something else. */
  datatype Value = Raw(bytes: string) | Reader(blocks: seq<string>) | Marshaler(text: Option<string>) | Other

  type Offers = map<string, Value>

  /** Lines sent for an offer before END; None if Transact gives up instead. */
  function ValueLines(v: Value): Option<seq<string>> {
    match v
    case Raw(bytes) => Some(DataLines(bytes))
    case Reader(blocks) => Some(BlockLines(blocks))
    case Marshaler(Some(text)) => Some(DataLines(text))
    case Marshaler(None) => None
    case Other => None
  }

  /** A reader is exhausted by its first use. */
  function Used(v: Value): Value {
    if v.Reader? then Reader([]) else v
  }

  datatype Outcome =
    | Answered(answer: Answer)
    | Refused                    // the first line is too long to send
    | Missing(keyword: string)   // "missing data with keyword"
    | BadOffer(keyword: string)  // a failing marshaler or an unusable type

  /** Transact's loop: what it sends, how it ends, what it leaves unread. */
  datatype Exchange = Exchange(sent: seq<string>, outcome: Outcome, unread: string)

  /** The reply to one INQUIRE: the lines sent, and the reason to stop, if any. */
  function Respond(offers: Offers, keyword: string): (seq<string>, Option<Outcome>) {
    if keyword !in offers then (["CAN"], Some(Missing(keyword)))
    else
      match ValueLines(offers[keyword])
      case None => ([], Some(BadOffer(keyword)))
      case Some(lines) => (lines + ["END"], None)
  }

  function Consume(offers: Offers, keyword: string): Offers {
    if keyword in offers then offers[keyword := Used(offers[keyword])] else offers
  }

  function TransactLoop(input: string, offers: Offers, rdata: string): Exchange
    decreases |input|
  {
    match ReadLine(input, true, MAX_LINE_LEN)
    case Fail(fault, rest) => Exchange([], Answered(Broken(fault)), rest)
    case Got(m, rest) =>
      if m.cmd == "INQUIRE" then
        match Respond(offers, m.params)
        case (lines, Some(outcome)) => Exchange(lines, outcome, rest)
        case (lines, None) =>
          var more := TransactLoop(rest, Consume(offers, m.params), rdata);
          more.(sent := lines + more.sent)
      else if Final(m) then Exchange([], Answered(Conclude(rdata, m)), rest)
      else TransactLoop(rest, offers, Absorb(rdata, m))
  }

  class Session {
    const pipe: Pipe

    constructor (pipe: Pipe)
      ensures this.pipe == pipe
    {
      this.pipe := pipe;
    }

    /** Init takes one line from the server and ignores what it says; if there is none to be
        had, there is no session. */
    static method Init(pipe: Pipe) returns (session: Session?)
      requires pipe.limit == MAX_LINE_LEN
      modifies pipe`input
      ensures var r := Wire.ReadLine(old(pipe.input), true, MAX_LINE_LEN);
        && pipe.input == r.rest
        && (session != null <==> r.Got?)
        && (session != null ==> fresh(session) && session.pipe == pipe)
    {
      var greeting := pipe.ReadLine();
      if greeting.Fail? {
        return null;
      }
      session := new Session(pipe);
    }

    method SimpleCmd(cmd: string, params: string) returns (outcome: Outcome)
      requires pipe.limit == MAX_LINE_LEN
      modifies pipe`input, pipe`output
      ensures var m := Message(cmd, params);
        if !Accepts(m) then
          outcome == Refused && pipe.output == old(pipe.output) && pipe.input == old(pipe.input)
        else
          && pipe.output == old(pipe.output) + LineOf(m) + "\n"
          && outcome == Answered(ReadAnswer(old(pipe.input), "", true).0)
          && pipe.input == ReadAnswer(old(pipe.input), "", true).1
    {
      var ok := pipe.WriteLine(cmd, params);
      if !ok {
        return Refused;
      }
      var data := "";
      while true
        invariant pipe.output == old(pipe.output) + LineOf(Message(cmd, params)) + "\n"
        invariant ReadAnswer(pipe.input, data, true) == ReadAnswer(old(pipe.input), "", true)
        decreases |pipe.input|
      {
        var r := pipe.ReadLine();
        if r.Fail? {
          return Answered(Broken(r.fault));
        }
        if r.message.cmd == "OK" {
          return Answered(Data(data));
        }
        if r.message.cmd == "ERR" {
          return Answered(ErrorReply(r.message.params));
        }
        if r.message.cmd == "D" {
          data := data + r.message.params;
        }
      }
    }

    /** The type switch of Transact. */
    method WriteOffer(v: Value) returns (ok: bool)
      modifies pipe`output
      ensures ok == ValueLines(v).Some?
      ensures pipe.output == if ok then old(pipe.output) + Bytes(ValueLines(v).value) else old(pipe.output)
    {
      match v {
        case Raw(bytes) => pipe.WriteData(bytes);
        case Reader(blocks) =>
          BlocksOfWhole(blocks);
          ok := pipe.WriteDataReader(Whole(blocks));
        case Marshaler(Some(text)) => pipe.WriteData(text);
        case Marshaler(None) => return false;
        case Other => return false;
      }
      return true;
    }

    /** Transact's reply to one INQUIRE. */
    method AnswerInquiry(offers: Offers, keyword: string) returns (stop: Option<Outcome>)
      modifies pipe`output
      ensures pipe.output == old(pipe.output) + Bytes(Respond(offers, keyword).0)
      ensures stop == Respond(offers, keyword).1
    {
      ghost var start := pipe.output;
      BareLines();
      if keyword !in offers {
        var _ := pipe.WriteLine("CAN", "");
        return Some(Missing(keyword));
      }
      var ok := WriteOffer(offers[keyword]);
      if !ok {
        assert start + "" == start;
        return Some(BadOffer(keyword));
      }
      ghost var lines := ValueLines(offers[keyword]).value;
      var _ := pipe.WriteLine("END", "");
      BytesAppend(lines, ["END"]);
      OutputGrows(start, lines, ["END"]);
      return None;
    }

    method Transact(cmd: string, params: string, offers: Offers) returns (outcome: Outcome)
      requires pipe.limit == MAX_LINE_LEN
      modifies pipe`input, pipe`output
      ensures var m := Message(cmd, params);
        if !Accepts(m) then
          outcome == Refused && pipe.output == old(pipe.output) && pipe.input == old(pipe.input)
        else
          var x := TransactLoop(old(pipe.input), offers, "");
          && pipe.output == old(pipe.output) + LineOf(m) + "\n" + Bytes(x.sent)
          && outcome == x.outcome && pipe.input == x.unread
    {
      var ok := pipe.WriteLine(cmd, params);
      if !ok {
        return Refused;
      }
      outcome := AnswerServer(offers);
    }

    /** Transact's loop. */
    method AnswerServer(offers: Offers) returns (outcome: Outcome)
      requires pipe.limit == MAX_LINE_LEN
      modifies pipe`input, pipe`output
      ensures var x := TransactLoop(old(pipe.input), offers, "");
        && pipe.output == old(pipe.output) + Bytes(x.sent)
        && outcome == x.outcome && pipe.input == x.unread
    {
      var offer, rdata := offers, "";
      ghost var whole := TransactLoop(pipe.input, offers, "");
      ghost var goal := pipe.output + Bytes(whole.sent);
      while true
        invariant var x := TransactLoop(pipe.input, offer, rdata);
          && pipe.output + Bytes(x.sent) == goal
          && x.outcome == whole.outcome && x.unread == whole.unread
        decreases |pipe.input|
      {
        ghost var output := pipe.output;
        assert output + "" == output;
        var r := pipe.ReadLine();
        if r.Fail? {
          return Answered(Broken(r.fault));
        }
        var m := r.message;
        if m.cmd == "INQUIRE" {
          OutputGrows(output, Respond(offer, m.params).0,
                      TransactLoop(pipe.input, Consume(offer, m.params), rdata).sent);
          var stop := AnswerInquiry(offer, m.params);
          if stop.Some? {
            return stop.value;
          }
          offer := Consume(offer, m.params);
        } else {
          if m.cmd == "OK" {
            return Answered(Data(rdata));
          }
          if m.cmd == "ERR" {
            return Answered(ErrorReply(m.params));
          }
          if m.cmd == "D" {
            rdata := rdata + m.params;
          }
        }
      }
    }
  }

  lemma BareLines()
    ensures LineOf(Message("CAN", "")) == "CAN" && LineOf(Message("END", "")) == "END"
    ensures Bytes(["CAN"]) == "CAN" + "\n" && Bytes(["END"]) == "END" + "\n"
  {
    assert Bytes([]) == "";
  }
}
