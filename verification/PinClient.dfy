/**
 The pinentry client (pinentry/client.go): its mirror of the server's settings, and the
 two ways it fetches a password; with the bound on what the password dialog can return
 (util/credui.go).
 */
module PinClient {
  import opened Basics
  import C = Client
  import opened Errors
  import opened Escape
  import opened Lockstep
  import opened Pipes
  import opened Server
  import opened Transfer
  import opened Wire
  import P = Pinentry
  import H = PinentryHistory

  // ---- what the dialog returns ----

  type Unit = x: int | 0 <= x < 0x1_0000

  const CREDUI_MAX_PASSWORD_LENGTH: nat := 256

  predicate HighSurrogate(u: Unit) { 0xD800 <= u < 0xDC00 }

  predicate LowSurrogate(u: Unit) { 0xDC00 <= u < 0xE000 }

  /** One code point in UTF-8 (section 3 of RFC 3629), each byte a char. */
  function Utf8(r: nat): string
    requires r < 0x110000
  {
    if r < 0x80 then [r as char]
    else if r < 0x800 then [(0xC0 + r / 0x40) as char, (0x80 + r % 0x40) as char]
    else if r < 0x10000 then
      [(0xE0 + r / 0x1000) as char, (0x80 + r / 0x40 % 0x40) as char, (0x80 + r % 0x40) as char]
    else
      [(0xF0 + r / 0x40000) as char, (0x80 + r / 0x1000 % 0x40) as char, (0x80 + r / 0x40 % 0x40) as char,
       (0x80 + r % 0x40) as char]
  }

  function FromPair(high: Unit, low: Unit): nat
    requires HighSurrogate(high) && LowSurrogate(low)
  {
    var h: int, l: int := high, low;
    0x10000 + (h - 0xD800) * 0x400 + (l - 0xDC00)
  }

  /** windows.UTF16ToString: up to the first zero unit; a surrogate that is not part of a
      pair becomes U+FFFD. */
  function Utf16ToString(units: seq<Unit>): string {
    if units == [] || units[0] == 0 then ""
    else if HighSurrogate(units[0]) && |units| > 1 && LowSurrogate(units[1]) then
      Utf8(FromPair(units[0], units[1])) + Utf16ToString(units[2..])
    else if HighSurrogate(units[0]) || LowSurrogate(units[0]) then Utf8(0xFFFD) + Utf16ToString(units[1..])
    else Utf8(units[0]) + Utf16ToString(units[1..])
  }

  predicate IsScalar(r: nat) { 0 < r < 0x110000 && !(0xD800 <= r < 0xE000) }

  /** The code point some bytes spell, by the bits their lead byte leaves. */
  function RuneOf(b: string): int
    requires 1 <= |b| <= 4
  {
    var b0 := b[0] as int;
    if |b| == 1 then b0
    else
      var b1 := b[1] as int - 128;
      if |b| == 2 then (b0 - 192) * 64 + b1
      else
        var b2 := b[2] as int - 128;
        if |b| == 3 then ((b0 - 224) * 64 + b1) * 64 + b2
        else (((b0 - 240) * 64 + b1) * 64 + b2) * 64 + (b[3] as int - 128)
  }

  lemma SplitBy(n: nat, d: nat)
    requires d > 0
    ensures n == n / d * d + n % d
  {
  }

  /** The encoding can be undone: its length goes with the code point, its bytes after the
      first are continuation bytes, and their bits make up the code point. */
  lemma Utf8Decodes(r: nat)
    requires r < 0x110000
    ensures var b := Utf8(r);
      && |b| == (if r < 128 then 1 else if r < 2048 then 2 else if r < 65536 then 3 else 4)
      && RuneOf(b) == r
      && forall i :: 0 < i < |b| ==> 128 <= b[i] as int < 192
  {
    SplitBy(r, 64);
    SplitBy(r / 64, 64);
    SplitBy(r / 4096, 64);
    assert r / 64 / 64 == r / 4096 && r / 4096 / 64 == r / 262144;
  }

  /** A text in UTF-16 (section 2.1 of RFC 2781). */
  function Utf16(rs: seq<nat>): seq<Unit>
    requires forall r :: r in rs ==> IsScalar(r)
  {
    if rs == [] then []
    else
      assert IsScalar(rs[0]) && forall r :: r in rs[1..] ==> r in rs;
      var r: nat, more: seq<Unit> := rs[0], Utf16(rs[1..]);
      if r < 0x10000 then
        var unit: Unit := r;
        [unit] + more
      else
        var high: Unit, low: Unit := 0xD800 + (r - 0x10000) / 0x400, 0xDC00 + (r - 0x10000) % 0x400;
        [high, low] + more
  }

  function AllUtf8(rs: seq<nat>): string
    requires forall r :: r in rs ==> IsScalar(r)
  {
    if rs == [] then ""
    else
      assert IsScalar(rs[0]) && forall r :: r in rs[1..] ==> r in rs;
      Utf8(rs[0]) + AllUtf8(rs[1..])
  }

  /** The dialog's text, code point by code point, in UTF-8. */
  lemma {:induction false} Utf16Converts(rs: seq<nat>)
    requires forall r :: r in rs ==> IsScalar(r)
    ensures Utf16ToString(Utf16(rs)) == AllUtf8(rs)
  {
    hide Utf8;
    if rs == [] {
    } else {
      assert rs[0] in rs && forall r :: r in rs[1..] ==> r in rs;
      Utf16Converts(rs[1..]);
      var r, more := rs[0], Utf16(rs[1..]);
      if r < 0x10000 {
        var unit: Unit := r;
        assert ([unit] + more)[1..] == more;
      } else {
        var high: Unit, low: Unit := 0xD800 + (r - 0x10000) / 0x400, 0xDC00 + (r - 0x10000) % 0x400;
        SplitBy(r - 0x10000, 0x400);
        assert FromPair(high, low) == r;
        assert ([high, low] + more)[2..] == more;
      }
      hide AllUtf8;
    }
  }

  /** The text ends at the first zero unit; a surrogate without its other half is replaced. */
  lemma {:induction false} ZeroEnds(units: seq<Unit>, more: seq<Unit>)
    ensures Utf16ToString(units + [0] + more) == Utf16ToString(units)
    decreases |units|
  {
    var all := units + [0] + more;
    if units == [] || units[0] == 0 {
    } else if HighSurrogate(units[0]) && |units| > 1 && LowSurrogate(units[1]) {
      assert all[2..] == units[2..] + [0] + more;
      ZeroEnds(units[2..], more);
    } else {
      assert all[1..] == units[1..] + [0] + more;
      assert all[1] == if |units| > 1 then units[1] else 0;
      ZeroEnds(units[1..], more);
    }
    hide Utf8;
  }

  lemma LoneSurrogate(u: Unit)
    requires 0xD800 <= u < 0xE000
    ensures Utf16ToString([u]) == Utf8(0xFFFD)
  {
    assert [u][1..] == [];
    assert Utf16ToString([]) == "" && Utf8(0xFFFD) + "" == Utf8(0xFFFD);
    hide Utf8;
  }

  /** Only ASCII is ever escaped, so a code point takes at most three bytes a unit. */
  lemma EscapedRune(r: nat)
    requires r < 0x110000
    ensures |EscapeParameters(Utf8(r))| <= if r < 0x10000 then 3 else 4
  {
    if r < 0x80 {
      assert Utf8(r)[1..] == "";
      assert EscapeParameters(Utf8(r)) == EscapeChar(r as char) + "";
    } else {
      assert forall c :: c in Utf8(r) ==> c as int >= 0x80;
      NothingToEscape(Utf8(r));
    }
  }

  /** A password of n UTF-16 units escapes to at most 3n bytes. */
  lemma {:induction false} EscapedPasswordBound(units: seq<Unit>)
    ensures |EscapeParameters(Utf16ToString(units))| <= 3 * |units|
  {
    if units == [] || units[0] == 0 {
    } else if HighSurrogate(units[0]) && |units| > 1 && LowSurrogate(units[1]) {
      var r := FromPair(units[0], units[1]);
      EscapedRune(r);
      EscapedPasswordBound(units[2..]);
      EscapeConcat(Utf8(r), Utf16ToString(units[2..]));
    } else {
      var r: int := if HighSurrogate(units[0]) || LowSurrogate(units[0]) then 0xFFFD else units[0];
      EscapedRune(r);
      EscapedPasswordBound(units[1..]);
      EscapeConcat(Utf8(r), Utf16ToString(units[1..]));
    }
  }

  /** Whatever the dialog returns travels in one data line. */
  lemma DialogPasswordFitsOneLine(units: seq<Unit>)
    requires |units| <= CREDUI_MAX_PASSWORD_LENGTH
    ensures |EscapeParameters(Utf16ToString(units))| <= 768
    ensures CutFree(Utf16ToString(units))
    ensures Utf16ToString(units) != "" ==>
      DataLines(Utf16ToString(units)) == [DataLine(EscapeParameters(Utf16ToString(units)))]
  {
    EscapedPasswordBound(units);
    ShortIsOneLine(Utf16ToString(units));
  }

  lemma ShortIsOneLine(payload: string)
    requires |EscapeParameters(payload)| <= CHUNK_LEN
    ensures CutFree(payload)
    ensures payload != "" ==> DataLines(payload) == [DataLine(EscapeParameters(payload))]
  {
    if payload != "" { OneChunk(payload); }
  }

  // ---- GETPIN over the pipe ----

  /** A reply in full, read by SimpleCmd: lines with one OK or ERR, at the end. */
  lemma {:induction false} AnswerOfLines(lines: seq<string>, tail: string, acc: string, closed: bool)
    requires AllReadable(lines) && lines != []
    requires forall i :: 0 <= i < |lines| ==> (IsFinal(ParseAll(lines)[i]) <==> i == |lines| - 1)
    ensures |FeedAll(Progress([], acc), ParseAll(lines)).results| == 1
    ensures ReadAnswer(Bytes(lines) + tail, acc, closed)
         == (FeedAll(Progress([], acc), ParseAll(lines)).results[0], tail)
    decreases |lines|
  {
    var xs, more := ParseAll(lines), lines[1..];
    assert Readable(lines[0]);
    FirstLine(lines, tail);
    AnswerStep(lines[0], Bytes(more) + tail, acc, closed);
    assert xs[1..] == ParseAll(more);
    if |lines| == 1 {
      assert IsFinal(xs[0]) && xs[1..] == [] && "" + tail == tail;
    } else {
      assert !IsFinal(xs[0]);
      forall i | 0 <= i < |more| ensures Readable(more[i]) { assert Readable(lines[i + 1]); }
      assert forall i :: 0 <= i < |more| ==> ParseAll(more)[i] == xs[i + 1];
      AnswerOfLines(more, tail, Feed(Progress([], acc), xs[0]).acc, closed);
    }
  }

  /** The server's reply to a GETPIN that got a password. */
  function PinReply(statuses: seq<string>, passwd: string): seq<string> {
    EmitLines(P.Statuses(statuses) + [Block(passwd)]) + ["OK"]
  }

  /** Status texts as the program sends them. */
  ghost predicate StatusesFit(statuses: seq<string>) {
    forall t :: t in statuses ==> t != "" && |LineOf(Message("S", t))| + 1 <= MAX_LINE_LEN
  }

  // ---- the quality bar ----

  /** A Go int. */
  type GoInt = x: int | -0x8000_0000_0000_0000 <= x < 0x8000_0000_0000_0000

  type Quality = string -> GoInt

  /** strconv.Itoa. */
  function Itoa(n: GoInt): string {
    var k: int := n;
    if k < 0 then "-" + Digits(-k) else Digits(k)
  }

  /** How getPINWithQualBar returns. It panics on an INQUIRE with under eight bytes of
      parameters, which it slices without looking. */
  datatype QualResult = Password(passwd: string) | ServerError(params: string) | Failure(fault: Fault) | Panic

  /** What GetPIN returns, by the path it took. */
  datatype GotPin = Plain(answer: Answer) | Inquired(result: QualResult)

  datatype QualRun = QualRun(sent: seq<string>, result: QualResult, unread: string)

  /** What the client answers an inquiry for the quality of `passwd`. */
  function QualityLines(quality: Option<Quality>, passwd: string): seq<string> {
    var answer := if quality.None? then "0" else Itoa(quality.value(passwd));
    [LineOf(Message("D", answer)), "END"]
  }

  /** getPINWithQualBar after its GETPIN: the lines it sends, what it returns, what it
      leaves unread. */
  function QualLoop(input: string, quality: Option<Quality>, closed: bool): QualRun
    decreases |input|
  {
    match ReadLine(input, closed, MAX_LINE_LEN)
    case Fail(fault, rest) => QualRun([], Failure(fault), rest)
    case Got(m, rest) =>
      if m.cmd == "D" then
        match ReadLine(rest, closed, MAX_LINE_LEN)
        case Fail(fault, rest') => QualRun([], Failure(fault), rest')
        case Got(_, rest') => QualRun([], Password(m.params), rest')
      else if m.cmd == "INQUIRE" then
        if |m.params| < 8 then QualRun([], Panic, rest)
        else
          var more := QualLoop(rest, quality, closed);
          more.(sent := QualityLines(quality, m.params[8..]) + more.sent)
      else if m.cmd == "ERR" then QualRun([], ServerError(m.params), rest)
      else QualLoop(rest, quality, closed)
  }

  lemma StatusLineSkipped(text: string)
    requires text != "" && |LineOf(Message("S", text))| + 1 <= MAX_LINE_LEN
    ensures EmitLine(Status(text)) == [LineOf(Message("S", text))]
    ensures Fits(LineOf(Message("S", text)), MAX_LINE_LEN) && Parse(LineOf(Message("S", text))) == Skipped
  {
    assert ToUpper("S") == "S";
    CleanLine(Message("S", text));
    LineLength(Message("S", text));
  }

  ghost predicate AllSkipped(lines: seq<string>) {
    forall i {:trigger lines[i]} :: 0 <= i < |lines| ==> Fits(lines[i], MAX_LINE_LEN) && Parse(lines[i]) == Skipped
  }

  lemma QualSkipsLine(line: string, more: seq<string>, quality: Option<Quality>, closed: bool)
    requires Fits(line, MAX_LINE_LEN) && Parse(line) == Skipped
    ensures QualLoop(Bytes([line] + more), quality, closed) == QualLoop(Bytes(more), quality, closed)
  {
    FirstOf(line, more);
    ReadOneLine(line, Bytes(more), closed, MAX_LINE_LEN);
    QualReadsPast(Bytes([line] + more), Bytes(more), quality, closed);
  }

  lemma QualReadsPast(input: string, rest: string, quality: Option<Quality>, closed: bool)
    requires ReadLine(input, closed, MAX_LINE_LEN) == ReadLine(rest, closed, MAX_LINE_LEN)
    ensures QualLoop(input, quality, closed) == QualLoop(rest, quality, closed)
  {
  }

  lemma {:induction false} QualSkips(lines: seq<string>, rest: seq<string>, quality: Option<Quality>, closed: bool)
    requires AllSkipped(lines)
    ensures QualLoop(Bytes(lines + rest), quality, closed) == QualLoop(Bytes(rest), quality, closed)
    decreases lines
  {
    if lines == [] {
      assert lines + rest == rest;
    } else {
      var more := lines[1..];
      assert Parse(lines[0]) == Skipped;
      assert AllSkipped(more) by {
        forall i | 0 <= i < |more| ensures Fits(more[i], MAX_LINE_LEN) && Parse(more[i]) == Skipped {
          assert Parse(lines[i + 1]) == Skipped;
        }
      }
      assert lines + rest == [lines[0]] + (more + rest);
      QualSkipsLine(lines[0], more + rest, quality, closed);
      QualSkips(more, rest, quality, closed);
    }
  }

  function StatusLines(statuses: seq<string>): seq<string> {
    seq(|statuses|, i requires 0 <= i < |statuses| => LineOf(Message("S", statuses[i])))
  }

  /** The lines the GETPIN handler writes: its statuses, then its data lines. */
  lemma {:induction false} PinEmitLines(statuses: seq<string>, passwd: string)
    requires StatusesFit(statuses)
    ensures EmitLines(P.Statuses(statuses) + [Block(passwd)]) == StatusLines(statuses) + DataLines(passwd)
    decreases statuses
  {
    if statuses == [] {
      assert P.Statuses(statuses) + [Block(passwd)] == [Block(passwd)] + [];
      FirstEmit(Block(passwd), []);
      assert DataLines(passwd) + [] == DataLines(passwd) == StatusLines(statuses) + DataLines(passwd);
    } else {
      var first, more := statuses[0], P.Statuses(statuses[1..]) + [Block(passwd)];
      assert first in statuses;
      forall t | t in statuses[1..] ensures t in statuses {}
      assert P.Statuses(statuses) + [Block(passwd)] == [P.Statuses(statuses)[0]] + more;
      FirstEmit(P.Statuses(statuses)[0], more);
      StatusLineSkipped(first);
      PinEmitLines(statuses[1..], passwd);
      FirstStatusLine(statuses);
      Associative([LineOf(Message("S", first))], StatusLines(statuses[1..]), DataLines(passwd));
    }
  }

  lemma FirstEmit(e: Emit, more: seq<Emit>)
    ensures EmitLines([e] + more) == EmitLine(e) + EmitLines(more)
  {
    assert ([e] + more)[1..] == more;
  }

  lemma FirstStatusLine(statuses: seq<string>)
    requires statuses != []
    ensures StatusLines(statuses) == [LineOf(Message("S", statuses[0]))] + StatusLines(statuses[1..])
  {
  }

  /** Status lines are passed over. */
  lemma QualSkipsStatuses(statuses: seq<string>, rest: seq<string>, quality: Option<Quality>, closed: bool)
    requires StatusesFit(statuses)
    ensures QualLoop(Bytes(StatusLines(statuses) + rest), quality, closed) == QualLoop(Bytes(rest), quality, closed)
  {
    StatusLinesSkipped(statuses);
    QualSkips(StatusLines(statuses), rest, quality, closed);
  }

  lemma FirstOf(line: string, more: seq<string>)
    ensures Bytes([line] + more) == line + "\n" + Bytes(more)
  {
    assert ([line] + more)[1..] == more;
  }

  lemma PinReplyLines(statuses: seq<string>, passwd: string)
    requires StatusesFit(statuses)
    ensures PinReply(statuses, passwd) == StatusLines(statuses) + (DataLines(passwd) + ["OK"])
  {
    PinEmitLines(statuses, passwd);
    Associative(StatusLines(statuses), DataLines(passwd), ["OK"]);
  }

  lemma {:induction false} AnswerSkips(lines: seq<string>, tail: string, acc: string, closed: bool)
    requires AllSkipped(lines)
    ensures ReadAnswer(Bytes(lines) + tail, acc, closed) == ReadAnswer(tail, acc, closed)
    decreases lines
  {
    if lines == [] {
      assert "" + tail == tail;
    } else {
      var more := lines[1..];
      assert Parse(lines[0]) == Skipped;
      forall i | 0 <= i < |more| ensures Fits(more[i], MAX_LINE_LEN) && Parse(more[i]) == Skipped {
        assert Parse(lines[i + 1]) == Skipped;
      }
      FirstLine(lines, tail);
      AnswerStep(lines[0], Bytes(more) + tail, acc, closed);
      AnswerSkips(more, tail, acc, closed);
    }
  }

  lemma StatusLinesSkipped(statuses: seq<string>)
    requires StatusesFit(statuses)
    ensures AllSkipped(StatusLines(statuses))
  {
    var lines := StatusLines(statuses);
    forall i | 0 <= i < |lines| ensures Fits(lines[i], MAX_LINE_LEN) && Parse(lines[i]) == Skipped {
      assert statuses[i] in statuses;
      StatusLineSkipped(statuses[i]);
    }
  }

  lemma ReplyBytes(statuses: seq<string>, passwd: string, tail: string)
    requires StatusesFit(statuses)
    ensures Bytes(PinReply(statuses, passwd)) + tail
         == Bytes(StatusLines(statuses)) + (Bytes(DataLines(passwd)) + ("OK\n" + tail))
  {
    PinReplyLines(statuses, passwd);
    BytesAppend(StatusLines(statuses), DataLines(passwd) + ["OK"]);
    BytesAppend(DataLines(passwd), ["OK"]);
    assert Bytes(["OK"]) == "OK\n" by { assert ["OK"][1..] == [] && "OK" + "\n" + "" == "OK\n"; }
    Associative(Bytes(StatusLines(statuses)), Bytes(DataLines(passwd)) + "OK\n", tail);
    Associative(Bytes(DataLines(passwd)), "OK\n", tail);
  }

  /** Main result on the plain path: SimpleCmd returns the password the server sent, the
      empty one included, and takes the whole reply from the channel, if and only if no
      cut of its escaped text falls inside a triplet; otherwise it returns an error. */
  lemma PlainPathIff(statuses: seq<string>, passwd: string, tail: string, closed: bool)
    requires StatusesFit(statuses)
    ensures var (answer, unread) := ReadAnswer(Bytes(PinReply(statuses, passwd)) + tail, "", closed);
      if CutFree(passwd) then answer == Data(passwd) && unread == tail
      else answer == Broken(BadEscape)
  {
    ReplyBytes(statuses, passwd, tail);
    StatusLinesSkipped(statuses);
    AnswerSkips(StatusLines(statuses), Bytes(DataLines(passwd)) + ("OK\n" + tail), "", closed);
    WriteDataRoundTripIff(passwd, tail, closed);
  }

  /** A data line, then another line: if that one can be parsed, the password is the data
      line's; if it cannot, the call fails. */
  lemma QualTakesFirstBlock(block: string, next: string, tail: string, quality: Option<Quality>, closed: bool)
    requires |EscapeParameters(block)| <= CHUNK_LEN
    requires Fits(next, MAX_LINE_LEN) && !Parse(next).Skipped?
    ensures QualLoop(DataLine(EscapeParameters(block)) + "\n" + (next + "\n" + tail), quality, closed)
         == QualRun([], if Parse(next).Parsed? then Password(block) else Failure(BadEscape), tail)
  {
    EscapeLength(block);
    BlockLineReadIff(block, next + "\n" + tail, closed, MAX_LINE_LEN);
    ReadOneLine(next, tail, closed, MAX_LINE_LEN);
  }

  /** Main result on the quality bar, for every password. The server's GETPIN reply gives
      the client exactly the password if and only if it is not empty and escapes to at
      most 997 bytes. An empty password never arrives: the OK is passed over and the call
      waits. A longer one fails if the first or the second cut falls inside a triplet, and
      otherwise arrives cut, with lines of the reply left in the channel. */
  lemma QualityPathIff(statuses: seq<string>, passwd: string, quality: Option<Quality>)
    requires StatusesFit(statuses)
    ensures var r := QualLoop(Bytes(PinReply(statuses, passwd)), quality, false);
      if passwd == "" then r == QualRun([], Failure(Blocked), "")
      else if |EscapeParameters(passwd)| <= CHUNK_LEN then r == QualRun([], Password(passwd), "")
      else if BadCut(passwd, 1) || BadCut(passwd, 2) then r.result == Failure(BadEscape)
      else r.result.Password? && r.result.passwd < passwd && r.unread != ""
  {
    PinReplyLines(statuses, passwd);
    QualSkipsStatuses(statuses, DataLines(passwd) + ["OK"], quality, false);
    OkParses();
    assert Bytes([]) == "";
    if passwd == "" {
      assert DataLines(passwd) + ["OK"] == ["OK"] + [];
      FirstOf("OK", []);
      ReadOneLine("OK", "", false, MAX_LINE_LEN);
    } else if |EscapeParameters(passwd)| <= CHUNK_LEN {
      ShortIsOneLine(passwd);
      var line := DataLine(EscapeParameters(passwd));
      FirstOf(line, ["OK"]);
      FirstOf("OK", []);
      assert ["OK"] + [] == ["OK"];
      QualTakesFirstBlock(passwd, "OK", "", quality, false);
    } else {
      LongReply(passwd, ["OK"], quality);
    }
  }

  lemma OkParses()
    ensures Fits("OK", MAX_LINE_LEN) && Parse("OK") == Parsed(OK)
  {
    CleanBareLine("OK");
    assert ToUpper("OK") == "OK";
  }

  /** The first data line of a payload: it can be parsed unless the first cut splits a triplet. */
  lemma FirstDataLine(payload: string)
    requires payload != ""
    ensures var lines := DataLines(payload);
      && lines != [] && Fits(lines[0], MAX_LINE_LEN) && !Parse(lines[0]).Skipped?
      && (Parse(lines[0]).Parsed? <==> !BadCut(payload, 1))
  {
    if |EscapeParameters(payload)| <= CHUNK_LEN {
      OneChunk(payload);
      UnescapeEscape(payload);
      EscapeAlphabet(payload);
      DataLineParses(EscapeParameters(payload));
    } else {
      FirstChunk(payload);
      if BadCut(payload, 1) {
        CutPrefixFails(payload, CHUNK_LEN);
      } else {
        var k := SplitAtBoundary(payload, CHUNK_LEN);
        UnescapeEscape(payload[..k]);
      }
    }
  }

  /** A payload of more than one chunk with a good first cut: its first block and the rest. */
  lemma FirstOfMany(payload: string) returns (first: string, rest: string)
    requires |EscapeParameters(payload)| > CHUNK_LEN && !BadCut(payload, 1)
    ensures rest != "" && first < payload && |EscapeParameters(first)| <= CHUNK_LEN
    ensures DataLines(payload) == [DataLine(EscapeParameters(first))] + DataLines(rest)
    ensures BadCut(rest, 1) == BadCut(payload, 2)
  {
    var k := SplitAtBoundary(payload, CHUNK_LEN);
    first, rest := payload[..k], payload[k..];
    FirstChunk(payload);
    CutsOfRest(payload, rest, 1);
    EscapeAlphabet(rest);
    assert DataLines(payload)[1..] == DataLines(rest);
  }

  lemma LongReply(passwd: string, more: seq<string>, quality: Option<Quality>)
    requires |EscapeParameters(passwd)| > CHUNK_LEN && more != []
    ensures var r := QualLoop(Bytes(DataLines(passwd) + more), quality, false);
      if BadCut(passwd, 1) || BadCut(passwd, 2) then r.result == Failure(BadEscape)
      else r.result.Password? && r.result.passwd < passwd && r.unread != ""
  {
    LongIsNotEmpty(passwd);
    FirstDataLine(passwd);
    hide *;
    if BadCut(passwd, 1) {
      FirstLineBytes(DataLines(passwd), more);
      QualFailsFirst(DataLines(passwd)[0], Bytes(DataLines(passwd)[1..] + more), quality);
    } else {
      var first, rest := FirstOfMany(passwd);
      var later := DataLines(rest);
      FirstDataLine(rest);
      TwoLinesBytes(DataLine(EscapeParameters(first)), later, more);
      QualTakesFirstBlock(first, later[0], Bytes(later[1..] + more), quality, false);
      SomeBytes(later[1..] + more);
    }
  }

  lemma FirstLineBytes(lines: seq<string>, more: seq<string>)
    requires lines != []
    ensures Bytes(lines + more) == lines[0] + "\n" + Bytes(lines[1..] + more)
  {
    assert lines + more == [lines[0]] + (lines[1..] + more);
    FirstOf(lines[0], lines[1..] + more);
  }

  lemma TwoLinesBytes(line: string, later: seq<string>, more: seq<string>)
    requires later != []
    ensures Bytes(([line] + later) + more) == line + "\n" + (later[0] + "\n" + Bytes(later[1..] + more))
  {
    FirstLineBytes([line] + later, more);
    assert ([line] + later)[1..] == later;
    FirstLineBytes(later, more);
  }

  lemma LongIsNotEmpty(passwd: string)
    requires |EscapeParameters(passwd)| > CHUNK_LEN
    ensures passwd != ""
  {
  }

  lemma SomeBytes(lines: seq<string>)
    requires lines != []
    ensures Bytes(lines) != ""
  {
  }

  lemma QualFailsFirst(line: string, tail: string, quality: Option<Quality>)
    requires Fits(line, MAX_LINE_LEN) && Parse(line).Malformed?
    ensures QualLoop(line + "\n" + tail, quality, false).result == Failure(BadEscape)
  {
    ReadOneLine(line, tail, false, MAX_LINE_LEN);
  }

  // ---- the other lines of the quality-bar path ----

  /** An ERR ends the call with its parameters. */
  lemma QualErr(input: string, params: string, rest: string, quality: Option<Quality>, closed: bool)
    requires ReadLine(input, closed, MAX_LINE_LEN) == Got(Message("ERR", params), rest)
    ensures QualLoop(input, quality, closed) == QualRun([], ServerError(params), rest)
  {
  }

  /** An inquiry for the quality of a text is answered with a number, as data, and END, and
      the call goes on: zero without a quality function, and otherwise what the function
      gives for what follows `QUALITY `. */
  lemma QualInquired(input: string, text: string, rest: string, quality: Option<Quality>, closed: bool)
    requires ReadLine(input, closed, MAX_LINE_LEN) == Got(Message("INQUIRE", "QUALITY " + text), rest)
    ensures var later := QualLoop(rest, quality, closed);
      var number := if quality.None? then "0" else Itoa(quality.value(text));
      QualLoop(input, quality, closed) == later.(sent := ["D " + number, "END"] + later.sent)
  {
    var m := Message("INQUIRE", "QUALITY " + text);
    assert m.params[8..] == text;
    var number := if quality.None? then "0" else Itoa(quality.value(text));
    NumberLine(quality, text);
    hide ReadLine, LineOf, Itoa;
    assert QualityLines(quality, text) == ["D " + number, "END"];
  }

  lemma NumberLine(quality: Option<Quality>, text: string)
    ensures var number := if quality.None? then "0" else Itoa(quality.value(text));
      LineOf(Message("D", number)) == "D " + number
  {
    var number := if quality.None? then "0" else Itoa(quality.value(text));
    if quality.Some? {
      NumberIsPlain(quality.value(text));
    }
    assert "0"[1..] == "";
    NothingToEscape(number);
    assert ToUpper("D") == "D" && "D" + " " == "D ";
    hide Itoa, EscapeParameters;
  }

  lemma NumberIsPlain(n: GoInt)
    ensures Itoa(n) != "" && forall c :: c in Itoa(n) ==> !Escapable(c)
  {
    var k: int := n;
    DigitsRoundTrip(if k < 0 then -k else k);
    hide Digits;
  }

  // ---- from the dialog to the caller ----

  lemma ShortStatusFits(text: string)
    requires |text| <= 100
    ensures |LineOf(Message("S", text))| + 1 <= MAX_LINE_LEN
  {
    LineLength(Message("S", text));
    EscapablesBound(text);
  }

  lemma PinStatusesFit(s: P.Settings, vault: P.Vault, env: P.Env)
    ensures StatusesFit(P.GetPin(s, vault, env).statuses)
  {
    var statuses := P.GetPin(s, vault, env).statuses;
    H.PinStatuses(s, vault, env);
    forall t | t in statuses ensures t != "" && |LineOf(Message("S", t))| + 1 <= MAX_LINE_LEN {
      assert t != "" && |t| <= 100;
      ShortStatusFits(t);
    }
  }

  /** What the server's command loop writes for a GETPIN that got a password. */
  lemma PinReplyIsHandled(program: P.Program, w: P.World, params: string, order: seq<string>)
    requires P.GetPin(w.s.(cmdArgs := params), w.vault, P.NextEnv(w)).result.Pin?
    ensures var r := P.GetPin(w.s.(cmdArgs := params), w.vault, P.NextEnv(w));
      Handle(P.PinProto(), Srv(Some(P.PinHandlers(program)), w), Message("GETPIN", params), order).lines
        == PinReply(r.statuses, r.result.passwd)
  {
    var handlers, srv, m := P.PinHandlers(program), Srv(Some(P.PinHandlers(program)), w), Message("GETPIN", params);
    assert "GETPIN" in handlers && handlers["GETPIN"](w, params) == P.GetPinHandler(w, params);
    FineReply(handlers, srv, m);
  }

  lemma FineReply<S>(handlers: map<string, Handler<S>>, srv: Srv<S>, m: Message)
    requires m.cmd in handlers && handlers[m.cmd](srv.state, m.params).verdict.Fine?
    ensures RunReply(handlers, srv, m).lines == EmitLines(handlers[m.cmd](srv.state, m.params).emits) + ["OK"]
  {
    FinalLine(OK);
    assert LineOf(OK) == "OK" by { assert ToUpper("OK") == "OK"; }
  }

  /** Main result from end to end: in every world, a password the dialog can return reaches
      the caller of the plain path whatever it is, and the caller of the quality-bar path if
      and only if it is not empty. */
  lemma DialogPasswordArrives(
    program: P.Program, w: P.World, params: string, order: seq<string>, units: seq<Unit>, quality: Option<Quality>)
    requires |units| <= CREDUI_MAX_PASSWORD_LENGTH
    requires P.GetPin(w.s.(cmdArgs := params), w.vault, P.NextEnv(w)).result == P.Pin(Utf16ToString(units))
    ensures var passwd := Utf16ToString(units);
      var lines := Handle(P.PinProto(), Srv(Some(P.PinHandlers(program)), w), Message("GETPIN", params), order).lines;
      && ReadAnswer(Bytes(lines), "", false) == (Data(passwd), "")
      && (QualLoop(Bytes(lines), quality, false) == QualRun([], Password(passwd), "") <==> passwd != "")
  {
    var passwd := Utf16ToString(units);
    var statuses := P.GetPin(w.s.(cmdArgs := params), w.vault, P.NextEnv(w)).statuses;
    PinReplyIsHandled(program, w, params, order);
    PinStatusesFit(w.s.(cmdArgs := params), w.vault, P.NextEnv(w));
    DialogPasswordFitsOneLine(units);
    PlainPathIff(statuses, passwd, "", false);
    assert Bytes(PinReply(statuses, passwd)) + "" == Bytes(PinReply(statuses, passwd));
    QualityPathIff(statuses, passwd, quality);
  }

  // ---- the client's mirror ----

  /** Whole seconds of a Duration, truncated toward zero. */
  function WholeSeconds(timeout: GoInt): GoInt {
    var t: int := timeout;
    if t >= 0 then t / 1_000_000_000 else -(-t / 1_000_000_000)
  }

  /** The text fields a client sets on the server and keeps a copy of. */
  datatype TextField =
    | Desc | Prompt | ErrorText | OkBtn | NotOkBtn | CancelBtn | Title | RepeatPrompt | RepeatError | QualityBar

  function CommandOf(f: TextField): string {
    match f
    case Desc => "SETDESC"
    case Prompt => "SETPROMPT"
    case ErrorText => "SETERROR"
    case OkBtn => "SETOK"
    case NotOkBtn => "SETNOTOK"
    case CancelBtn => "SETCANCEL"
    case Title => "SETTITLE"
    case RepeatPrompt => "SETREPEAT"
    case RepeatError => "SETREPEATERROR"
    case QualityBar => "SETQUALITYBAR"
  }

  function Get(s: P.Settings, f: TextField): string {
    match f
    case Desc => s.desc
    case Prompt => s.prompt
    case ErrorText => s.error
    case OkBtn => s.okBtn
    case NotOkBtn => s.notOkBtn
    case CancelBtn => s.cancelBtn
    case Title => s.title
    case RepeatPrompt => s.repeatPrompt
    case RepeatError => s.repeatError
    case QualityBar => s.qualityBar
  }

  function Put(s: P.Settings, f: TextField, text: string): P.Settings {
    match f
    case Desc => s.(desc := text)
    case Prompt => s.(prompt := text)
    case ErrorText => s.(error := text)
    case OkBtn => s.(okBtn := text)
    case NotOkBtn => s.(notOkBtn := text)
    case CancelBtn => s.(cancelBtn := text)
    case Title => s.(title := text)
    case RepeatPrompt => s.(repeatPrompt := text)
    case RepeatError => s.(repeatError := text)
    case QualityBar => s.(qualityBar := text)
  }

  /** A call of the client: a setter, Reset, or another command. */
  datatype Call = Set(field: TextField, text: string) | SetTime(timeout: GoInt) | Reset | Other(m: Message)

  function MessageOf(c: Call): Message {
    match c
    case Set(f, text) => Message(CommandOf(f), text)
    case SetTime(timeout) => Message("SETTIMEOUT", Itoa(WholeSeconds(timeout)))
    case Reset => Message("RESET", "")
    case Other(m) => m
  }

  /** The setters of Apply, in its order. */
  function ApplyCalls(s: P.Settings, timeout: GoInt): seq<Call> {
    [Set(Desc, s.desc), Set(Prompt, s.prompt), Set(ErrorText, s.error), Set(OkBtn, s.okBtn), Set(NotOkBtn, s.notOkBtn),
     Set(CancelBtn, s.cancelBtn), Set(Title, s.title), SetTime(timeout), Set(RepeatPrompt, s.repeatPrompt),
     Set(RepeatError, s.repeatError), Set(QualityBar, s.qualityBar)]
  }

  /** The client's copy after a call. Reset leaves it as it is. */
  function AfterCall(current: P.Settings, c: Call, ok: bool): P.Settings {
    match c
    case Set(f, text) => if ok then Put(current, f, text) else current
    case SetTime(timeout) => if ok then current.(timeout := timeout) else current
    case _ => current
  }

  lemma ItoaRoundTrip(n: GoInt)
    ensures P.Atoi(Itoa(n)) == Some(n) && 1 <= |Itoa(n)| <= 20
  {
    var k: int := n;
    var a: int := if k < 0 then -k else k;
    DigitsRoundTrip(a);
    assert Power10(10) == 10_000_000_000;
    assert Power10(15) == 1_000_000_000_000_000;
    assert Power10(19) == 10_000_000_000_000_000_000;
    DigitsLength(a, 19);
    var digits := Digits(a);
    assert IsDigit(digits[0]) by { assert digits[0] in digits; }
    assert DigitSpan(digits) == |digits| by {
      assert forall i :: 0 <= i < |digits| ==> digits[i] in digits;
    }
    if n < 0 { assert ("-" + digits)[1..] == digits; }
  }

  /** The fraction of a second is cut off, toward zero. */
  lemma WholeSecondsIs(timeout: GoInt)
    ensures var t: int, w: int := timeout, WholeSeconds(timeout);
      && -1_000_000_000 < t - w * 1_000_000_000 < 1_000_000_000
      && (t >= 0 ==> t - w * 1_000_000_000 >= 0) && (t <= 0 ==> t - w * 1_000_000_000 <= 0)
  {
  }

  /** The commands of Apply, in order. */
  lemma ApplyOrder(s: P.Settings, timeout: GoInt)
    ensures var cs := ApplyCalls(s, timeout);
      && |cs| == 11
      && MessageOf(cs[0]) == Message("SETDESC", s.desc) && MessageOf(cs[1]) == Message("SETPROMPT", s.prompt)
      && MessageOf(cs[2]) == Message("SETERROR", s.error) && MessageOf(cs[3]) == Message("SETOK", s.okBtn)
      && MessageOf(cs[4]) == Message("SETNOTOK", s.notOkBtn) && MessageOf(cs[5]) == Message("SETCANCEL", s.cancelBtn)
      && MessageOf(cs[6]) == Message("SETTITLE", s.title)
      && MessageOf(cs[7]) == Message("SETTIMEOUT", Itoa(WholeSeconds(timeout)))
      && MessageOf(cs[8]) == Message("SETREPEAT", s.repeatPrompt)
      && MessageOf(cs[9]) == Message("SETREPEATERROR", s.repeatError)
      && MessageOf(cs[10]) == Message("SETQUALITYBAR", s.qualityBar)
  {
  }

  /** A Duration survives the way through whole seconds exactly if it has no fraction. */
  lemma SecondsRoundTripIff(timeout: GoInt)
    ensures P.Seconds(WholeSeconds(timeout)) == timeout <==> timeout % 1_000_000_000 == 0
  {
    var t, w: int := timeout, WholeSeconds(timeout);
    assert -0x8000_0000_0000_0000 <= w * 1_000_000_000 < 0x8000_0000_0000_0000;
    assert P.Seconds(w) == w * 1_000_000_000;
  }

  /** What one command does to the pipe: the bytes sent, what is left unread, and whether
      the answer was OK. A command that is too long is not sent. */
  datatype Sent = Sent(bytes: string, unread: string, ok: bool)

  function SendOne(m: Message, input: string): Sent {
    if !Accepts(m) then Sent("", input, false)
    else
      var (answer, unread) := ReadAnswer(input, "", true);
      Sent(LineOf(m) + "\n", unread, answer.Data?)
  }

  /** A client between calls: what it has written, what it has not read, whether all went
      well so far, and its copy of the settings. */
  datatype Ran = Ran(output: string, input: string, ok: bool, current: P.Settings)

  /** The next of a row of calls that stops at the first failure. */
  function RunOne(c: Call, r: Ran): Ran {
    if !r.ok then r
    else
      var x := SendOne(MessageOf(c), r.input);
      Ran(r.output + x.bytes, x.unread, x.ok, AfterCall(r.current, c, x.ok))
  }

  function RunAll(cs: seq<Call>, r: Ran): Ran
    decreases cs
  {
    if cs == [] then r else RunAll(cs[1..], RunOne(cs[0], r))
  }

  lemma RunNext(cs: seq<Call>, k: nat, r: Ran)
    requires k < |cs|
    ensures RunAll(cs[k..], r) == RunAll(cs[k + 1..], RunOne(cs[k], r))
  {
    assert cs[k..][1..] == cs[k + 1..];
  }

  lemma RunNone(cs: seq<Call>, r: Ran)
    ensures cs[0..] == cs && RunAll(cs[|cs|..], r) == r
  {
  }

  lemma RunStopped(c: Call, r: Ran)
    requires !r.ok
    ensures RunOne(c, r) == r
  {
  }

  /** The copy after calls that were all answered OK. */
  function CopyAfter(current: P.Settings, cs: seq<Call>): P.Settings
    decreases cs
  {
    if cs == [] then current else CopyAfter(AfterCall(current, cs[0], true), cs[1..])
  }

  /** How many of the calls are answered OK before one fails. */
  function OkCount(cs: seq<Call>, r: Ran): (n: nat)
    ensures n <= |cs|
    decreases cs
  {
    if cs == [] || !RunOne(cs[0], r).ok then 0 else 1 + OkCount(cs[1..], RunOne(cs[0], r))
  }

  /** After a row of calls the copy has exactly what was answered OK, and the row has gone
      well if that was all of it. */
  lemma {:induction false} RunCopies(cs: seq<Call>, r: Ran)
    requires r.ok
    ensures var n := OkCount(cs, r);
      && RunAll(cs, r).current == CopyAfter(r.current, cs[..n])
      && (RunAll(cs, r).ok <==> n == |cs|)
    decreases cs
  {
    if cs == [] {
    } else {
      var next := RunOne(cs[0], r);
      if next.ok {
        RunCopies(cs[1..], next);
        assert cs[..OkCount(cs, r)][1..] == cs[1..][..OkCount(cs[1..], next)];
      } else {
        RunAllStopped(cs[1..], next);
      }
    }
  }

  lemma {:induction false} RunAllStopped(cs: seq<Call>, r: Ran)
    requires !r.ok
    ensures RunAll(cs, r) == r
    decreases cs
  {
    if cs == [] {
    } else {
      RunAllStopped(cs[1..], r);
    }
  }

  function CallLines(cs: seq<Call>): (lines: seq<string>)
    ensures |lines| == |cs|
  {
    seq(|cs|, i requires 0 <= i < |cs| => LineOf(MessageOf(cs[i])))
  }

  /** Each call that is answered OK writes its line, takes its OK, and leaves its mark on the
      copy; then the row goes on. */
  lemma {:induction false} RowGoesOn(cs: seq<Call>, k: nat, r: Ran, later: string)
    requires r.ok && k <= |cs| && forall i :: 0 <= i < k ==> Accepts(MessageOf(cs[i]))
    requires r.input == Bytes(seq(k, _ => "OK")) + later
    ensures RunAll(cs, r)
         == RunAll(cs[k..], Ran(r.output + Bytes(CallLines(cs[..k])), later, true, CopyAfter(r.current, cs[..k])))
    decreases k
  {
    hide *;
    if k == 0 {
      RowStarts(cs, r, later);
    } else {
      var oks := Bytes(seq(k - 1, _ => "OK")) + later;
      var next := Ran(r.output + (LineOf(MessageOf(cs[0])) + "\n"), oks, true, AfterCall(r.current, cs[0], true));
      OneMoreOk(k, later);
      RowStep(cs, r, oks);
      RowGoesOn(cs[1..], k - 1, next, later);
      assert cs[1..][k - 1..] == cs[k..];
      CopyStep(cs, k, r.current);
      LinesStep(cs, k);
      Associative(r.output, LineOf(MessageOf(cs[0])) + "\n", Bytes(CallLines(cs[1..][..k - 1])));
    }
  }

  lemma RowStarts(cs: seq<Call>, r: Ran, later: string)
    requires r.ok && r.input == Bytes(seq(0, _ => "OK")) + later
    ensures Ran(r.output + Bytes(CallLines(cs[..0])), later, true, CopyAfter(r.current, cs[..0])) == r && cs[0..] == cs
  {
    assert "" + later == later && r.output + "" == r.output;
  }

  lemma OneMoreOk(k: nat, later: string)
    requires k > 0
    ensures Bytes(seq(k, _ => "OK")) + later == "OK\n" + (Bytes(seq(k - 1, _ => "OK")) + later)
  {
    assert seq(k, _ => "OK")[1..] == seq(k - 1, _ => "OK");
    FirstLine(seq(k, _ => "OK"), later);
    assert "OK" + "\n" == "OK\n";
  }

  lemma RowStep(cs: seq<Call>, r: Ran, rest: string)
    requires r.ok && cs != [] && Accepts(MessageOf(cs[0])) && r.input == "OK\n" + rest
    ensures RunAll(cs, r)
         == RunAll(cs[1..], Ran(r.output + (LineOf(MessageOf(cs[0])) + "\n"), rest, true,
                                AfterCall(r.current, cs[0], true)))
  {
    hide LineOf, ReadAnswer, Accepts, AfterCall, MessageOf;
    OkEndsAnswer(rest, "", true);
  }

  lemma CopyStep(cs: seq<Call>, k: nat, current: P.Settings)
    requires 0 < k <= |cs|
    ensures CopyAfter(current, cs[..k]) == CopyAfter(AfterCall(current, cs[0], true), cs[1..][..k - 1])
  {
    assert cs[..k][1..] == cs[1..][..k - 1];
    hide AfterCall;
  }

  lemma LinesStep(cs: seq<Call>, k: nat)
    requires 0 < k <= |cs|
    ensures Bytes(CallLines(cs[..k])) == (LineOf(MessageOf(cs[0])) + "\n") + Bytes(CallLines(cs[1..][..k - 1]))
  {
    hide LineOf, MessageOf;
    assert CallLines(cs[..k])[1..] == CallLines(cs[1..][..k - 1]);
  }

  /** A call that is too long writes nothing, one that is answered otherwise than OK has
      written its line; either ends the row, and neither changes the copy. */
  lemma RowStops(cs: seq<Call>, r: Ran)
    requires r.ok && cs != []
    requires !Accepts(MessageOf(cs[0])) || !ReadAnswer(r.input, "", true).0.Data?
    ensures RunAll(cs, r)
         == if Accepts(MessageOf(cs[0]))
            then Ran(r.output + (LineOf(MessageOf(cs[0])) + "\n"), ReadAnswer(r.input, "", true).1, false, r.current)
            else r.(ok := false)
  {
    hide LineOf, ReadAnswer, Accepts, MessageOf, Put;
    assert r.output + "" == r.output;
    RunAllStopped(cs[1..], RunOne(cs[0], r));
  }

  /** The pinentry client: each setter sends its command and changes the client's copy of
      the settings only if the server answers OK. */
  class Client {
    const session: C.Session
    var current: P.Settings
    var qualityBar: bool

    constructor (session: C.Session, initial: P.Settings)
      ensures this.session == session && current == initial && !qualityBar
    {
      this.session := session;
      current := initial;
      qualityBar := false;
    }

    /** The client as a value; `ok` is how its last call went. */
    ghost function Now(ok: bool): Ran
      reads this, session.pipe
    {
      Ran(session.pipe.output, session.pipe.input, ok, current)
    }

    /** SimpleCmd, with its data dropped: whether it returned without an error. */
    method Send(m: Message) returns (ok: bool)
      requires session.pipe.limit == MAX_LINE_LEN
      modifies session.pipe`input, session.pipe`output
      ensures var x := SendOne(m, old(session.pipe.input));
        && ok == x.ok && session.pipe.input == x.unread
        && session.pipe.output == old(session.pipe.output) + x.bytes
    {
      ghost var start := session.pipe.output;
      assert start + "" == start;
      Associative(start, LineOf(m), "\n");
      var outcome := session.SimpleCmd(m.cmd, m.params);
      return outcome.Answered? && outcome.answer.Data?;
    }

    /** What all text setters do: send, and store what was sent if the answer is OK. */
    method SetText(field: TextField, text: string) returns (ok: bool)
      requires session.pipe.limit == MAX_LINE_LEN
      modifies this, session.pipe`input, session.pipe`output
      ensures Now(ok) == RunOne(Set(field, text), old(Now(true)))
      ensures current == if ok then Put(old(current), field, text) else old(current)
      ensures qualityBar == (old(qualityBar) || (ok && field.QualityBar?))
    {
      ok := Send(Message(CommandOf(field), text));
      if !ok {
        return;
      }
      current := Put(current, field, text);
      if field.QualityBar? {
        qualityBar := true;
      }
    }

    method SetTimeout(timeout: GoInt) returns (ok: bool)
      requires session.pipe.limit == MAX_LINE_LEN
      modifies this`current, session.pipe`input, session.pipe`output
      ensures Now(ok) == RunOne(SetTime(timeout), old(Now(true)))
      ensures current == if ok then old(current).(timeout := timeout) else old(current)
    {
      ok := Send(Message("SETTIMEOUT", Itoa(WholeSeconds(timeout))));
      if !ok {
        return;
      }
      current := current.(timeout := timeout);
    }

    /** Reset: the server's settings, not the client's copy. */
    method ResetSession() returns (ok: bool)
      requires session.pipe.limit == MAX_LINE_LEN
      modifies session.pipe`input, session.pipe`output
      ensures Now(ok) == RunOne(Reset, old(Now(true))) && current == old(current)
    {
      ok := Send(Message("RESET", ""));
    }

    method SetDesc(text: string) returns (ok: bool)
      requires session.pipe.limit == MAX_LINE_LEN
      modifies this, session.pipe`input, session.pipe`output
      ensures Now(ok) == RunOne(Set(Desc, text), old(Now(true)))
      ensures current == if ok then old(current).(desc := text) else old(current)
      ensures qualityBar == old(qualityBar)
    {
      ok := SetText(Desc, text);
    }

    method SetPrompt(text: string) returns (ok: bool)
      requires session.pipe.limit == MAX_LINE_LEN
      modifies this, session.pipe`input, session.pipe`output
      ensures Now(ok) == RunOne(Set(Prompt, text), old(Now(true)))
      ensures current == if ok then old(current).(prompt := text) else old(current)
      ensures qualityBar == old(qualityBar)
    {
      ok := SetText(Prompt, text);
    }

    method SetError(text: string) returns (ok: bool)
      requires session.pipe.limit == MAX_LINE_LEN
      modifies this, session.pipe`input, session.pipe`output
      ensures Now(ok) == RunOne(Set(ErrorText, text), old(Now(true)))
      ensures current == if ok then old(current).(error := text) else old(current)
      ensures qualityBar == old(qualityBar)
    {
      ok := SetText(ErrorText, text);
    }

    method SetOkBtn(text: string) returns (ok: bool)
      requires session.pipe.limit == MAX_LINE_LEN
      modifies this, session.pipe`input, session.pipe`output
      ensures Now(ok) == RunOne(Set(OkBtn, text), old(Now(true)))
      ensures current == if ok then old(current).(okBtn := text) else old(current)
      ensures qualityBar == old(qualityBar)
    {
      ok := SetText(OkBtn, text);
    }

    method SetNotOkBtn(text: string) returns (ok: bool)
      requires session.pipe.limit == MAX_LINE_LEN
      modifies this, session.pipe`input, session.pipe`output
      ensures Now(ok) == RunOne(Set(NotOkBtn, text), old(Now(true)))
      ensures current == if ok then old(current).(notOkBtn := text) else old(current)
      ensures qualityBar == old(qualityBar)
    {
      ok := SetText(NotOkBtn, text);
    }

    method SetCancelBtn(text: string) returns (ok: bool)
      requires session.pipe.limit == MAX_LINE_LEN
      modifies this, session.pipe`input, session.pipe`output
      ensures Now(ok) == RunOne(Set(CancelBtn, text), old(Now(true)))
      ensures current == if ok then old(current).(cancelBtn := text) else old(current)
      ensures qualityBar == old(qualityBar)
    {
      ok := SetText(CancelBtn, text);
    }

    method SetTitle(text: string) returns (ok: bool)
      requires session.pipe.limit == MAX_LINE_LEN
      modifies this, session.pipe`input, session.pipe`output
      ensures Now(ok) == RunOne(Set(Title, text), old(Now(true)))
      ensures current == if ok then old(current).(title := text) else old(current)
      ensures qualityBar == old(qualityBar)
    {
      ok := SetText(Title, text);
    }

    method SetRepeatPrompt(text: string) returns (ok: bool)
      requires session.pipe.limit == MAX_LINE_LEN
      modifies this, session.pipe`input, session.pipe`output
      ensures Now(ok) == RunOne(Set(RepeatPrompt, text), old(Now(true)))
      ensures current == if ok then old(current).(repeatPrompt := text) else old(current)
      ensures qualityBar == old(qualityBar)
    {
      ok := SetText(RepeatPrompt, text);
    }

    method SetRepeatError(text: string) returns (ok: bool)
      requires session.pipe.limit == MAX_LINE_LEN
      modifies this, session.pipe`input, session.pipe`output
      ensures Now(ok) == RunOne(Set(RepeatError, text), old(Now(true)))
      ensures current == if ok then old(current).(repeatError := text) else old(current)
      ensures qualityBar == old(qualityBar)
    {
      ok := SetText(RepeatError, text);
    }

    method SetQualityBar(text: string) returns (ok: bool)
      requires session.pipe.limit == MAX_LINE_LEN
      modifies this, session.pipe`input, session.pipe`output
      ensures Now(ok) == RunOne(Set(QualityBar, text), old(Now(true)))
      ensures current == if ok then old(current).(qualityBar := text) else old(current)
      ensures qualityBar == (old(qualityBar) || ok)
    {
      ok := SetText(QualityBar, text);
    }

    /** Apply: the setters in order, up to the first that fails. */
    method Apply(s: P.Settings, timeout: GoInt) returns (ok: bool)
      requires session.pipe.limit == MAX_LINE_LEN
      modifies this, session.pipe`input, session.pipe`output
      ensures Now(ok) == RunAll(ApplyCalls(s, timeout), old(Now(true)))
      ensures qualityBar == (old(qualityBar) || ok)
    {
      ghost var cs := ApplyCalls(s, timeout);
      RunNone(cs, Now(true));
      ok := ApplyLabels(s, true, cs);
      ok := ApplyTimes(s, timeout, ok, cs);
      ok := ApplyRepeats(s, ok, cs);
      RunNone(cs, Now(ok));
    }

    /** The first five setters of Apply. `cs` is the whole row of setters, `sofar` whether none has failed. */
    method ApplyLabels(s: P.Settings, sofar: bool, ghost cs: seq<Call>) returns (ok: bool)
      requires session.pipe.limit == MAX_LINE_LEN && |cs| == 11
      requires cs[0] == Set(Desc, s.desc) && cs[1] == Set(Prompt, s.prompt) && cs[2] == Set(ErrorText, s.error)
      requires cs[3] == Set(OkBtn, s.okBtn) && cs[4] == Set(NotOkBtn, s.notOkBtn)
      modifies this, session.pipe`input, session.pipe`output
      ensures RunAll(cs[5..], Now(ok)) == old(RunAll(cs[0..], Now(sofar)))
      ensures ok ==> sofar
      ensures qualityBar == old(qualityBar)
    {
      hide RunOne, RunAll;
      ok := sofar;
      RunNext(cs, 0, Now(ok));
      if ok { ok := SetDesc(s.desc); } else { RunStopped(cs[0], Now(ok)); }
      RunNext(cs, 1, Now(ok));
      if ok { ok := SetPrompt(s.prompt); } else { RunStopped(cs[1], Now(ok)); }
      RunNext(cs, 2, Now(ok));
      if ok { ok := SetError(s.error); } else { RunStopped(cs[2], Now(ok)); }
      RunNext(cs, 3, Now(ok));
      if ok { ok := SetOkBtn(s.okBtn); } else { RunStopped(cs[3], Now(ok)); }
      RunNext(cs, 4, Now(ok));
      if ok { ok := SetNotOkBtn(s.notOkBtn); } else { RunStopped(cs[4], Now(ok)); }
    }

    /** The next three. `cs` is the whole row of setters, `sofar` whether none has failed. */
    method ApplyTimes(s: P.Settings, timeout: GoInt, sofar: bool, ghost cs: seq<Call>) returns (ok: bool)
      requires session.pipe.limit == MAX_LINE_LEN && |cs| == 11
      requires cs[5] == Set(CancelBtn, s.cancelBtn) && cs[6] == Set(Title, s.title) && cs[7] == SetTime(timeout)
      modifies this, session.pipe`input, session.pipe`output
      ensures RunAll(cs[8..], Now(ok)) == old(RunAll(cs[5..], Now(sofar)))
      ensures ok ==> sofar
      ensures qualityBar == old(qualityBar)
    {
      hide RunOne, RunAll;
      ok := sofar;
      RunNext(cs, 5, Now(ok));
      if ok { ok := SetCancelBtn(s.cancelBtn); } else { RunStopped(cs[5], Now(ok)); }
      RunNext(cs, 6, Now(ok));
      if ok { ok := SetTitle(s.title); } else { RunStopped(cs[6], Now(ok)); }
      RunNext(cs, 7, Now(ok));
      if ok { ok := SetTimeout(timeout); } else { RunStopped(cs[7], Now(ok)); }
    }

    /** The last three. `cs` is the whole row of setters, `sofar` whether none has failed. */
    method ApplyRepeats(s: P.Settings, sofar: bool, ghost cs: seq<Call>) returns (ok: bool)
      requires session.pipe.limit == MAX_LINE_LEN && |cs| == 11
      requires cs[8] == Set(RepeatPrompt, s.repeatPrompt) && cs[9] == Set(RepeatError, s.repeatError)
      requires cs[10] == Set(QualityBar, s.qualityBar)
      modifies this, session.pipe`input, session.pipe`output
      ensures RunAll(cs[11..], Now(ok)) == old(RunAll(cs[8..], Now(sofar)))
      ensures ok ==> sofar
      ensures qualityBar == (old(qualityBar) || ok)
    {
      hide RunOne, RunAll;
      ok := sofar;
      RunNext(cs, 8, Now(ok));
      if ok { ok := SetRepeatPrompt(s.repeatPrompt); } else { RunStopped(cs[8], Now(ok)); }
      RunNext(cs, 9, Now(ok));
      if ok { ok := SetRepeatError(s.repeatError); } else { RunStopped(cs[9], Now(ok)); }
      RunNext(cs, 10, Now(ok));
      if ok { ok := SetQualityBar(s.qualityBar); } else { RunStopped(cs[10], Now(ok)); }
    }

    method WriteQuality(answer: string)
      requires |answer| <= 20
      modifies session.pipe`output
      ensures session.pipe.output == old(session.pipe.output) + Bytes([LineOf(Message("D", answer)), "END"])
    {
      ghost var start, line := session.pipe.output, LineOf(Message("D", answer));
      C.BareLines();
      var _ := session.pipe.WriteLine("D", answer);
      var _ := session.pipe.WriteLine("END", "");
      PrependLine(start, line, ["END"]);
      Associative(start + line + "\n", "END", "\n");
      assert [line] + ["END"] == [line, "END"];
    }

    /** GetPIN: a successful SETQUALITYBAR makes the next call, and only that one, answer
        inquiries. */
    method GetPIN(quality: Option<Quality>) returns (pin: GotPin)
      requires session.pipe.limit == MAX_LINE_LEN
      modifies this`qualityBar, session.pipe`input, session.pipe`output
      ensures !qualityBar
      ensures if old(qualityBar) then
          var x := QualLoop(old(session.pipe.input), quality, true);
          && session.pipe.output == old(session.pipe.output) + "GETPIN" + "\n" + Bytes(x.sent)
          && pin == Inquired(x.result) && session.pipe.input == x.unread
        else
          var (answer, unread) := ReadAnswer(old(session.pipe.input), "", true);
          && session.pipe.output == old(session.pipe.output) + "GETPIN" + "\n"
          && pin == Plain(answer) && session.pipe.input == unread
    {
      if qualityBar {
        var result := GetPINWithQualBar(quality);
        return Inquired(result);
      }
      BareGetPin();
      var outcome := session.SimpleCmd("GETPIN", "");
      return Plain(outcome.answer);
    }

    /** getPINWithQualBar; the flag is reset on every way out. */
    method GetPINWithQualBar(quality: Option<Quality>) returns (result: QualResult)
      requires session.pipe.limit == MAX_LINE_LEN
      modifies this`qualityBar, session.pipe`input, session.pipe`output
      ensures !qualityBar
      ensures var x := QualLoop(old(session.pipe.input), quality, true);
        && session.pipe.output == old(session.pipe.output) + "GETPIN" + "\n" + Bytes(x.sent)
        && result == x.result && session.pipe.input == x.unread
    {
      hide ReadLine, LineOf, Itoa;
      var pipe := session.pipe;
      qualityBar := false;
      BareGetPin();
      var _ := pipe.WriteLine("GETPIN", "");
      ghost var whole := QualLoop(pipe.input, quality, true);
      ghost var goal := pipe.output + Bytes(whole.sent);
      while true
        invariant !qualityBar
        invariant var x := QualLoop(pipe.input, quality, true);
          && pipe.output + Bytes(x.sent) == goal && x.result == whole.result && x.unread == whole.unread
        decreases |pipe.input|
      {
        ghost var output := pipe.output;
        assert output + "" == output;
        var r := pipe.ReadLine();
        if r.Fail? {
          return Failure(r.fault);
        }
        var m := r.message;
        if m.cmd == "D" {
          var next := pipe.ReadLine();
          if next.Fail? {
            return Failure(next.fault);
          }
          return Password(m.params);
        }
        if m.cmd == "INQUIRE" {
          if |m.params| < 8 {
            return Panic;
          }
          var answer := if quality.None? then "0" else Itoa(quality.value(m.params[8..]));
          if quality.Some? { ItoaRoundTrip(quality.value(m.params[8..])); }
          OutputGrows(output, QualityLines(quality, m.params[8..]), QualLoop(pipe.input, quality, true).sent);
          WriteQuality(answer);
        } else if m.cmd == "ERR" {
          return ServerError(m.params);
        }
      }
    }
  }

  lemma BareGetPin()
    ensures LineOf(Message("GETPIN", "")) == "GETPIN" && Accepts(Message("GETPIN", ""))
  {
    assert ToUpper("GETPIN") == "GETPIN";
  }
}
