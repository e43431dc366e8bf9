/**
 Bulk data over D lines: how WriteData and WriteDataReader cut a payload into lines
 (assuan/common/io.go), and what the two read loops, the client's and ReadData's,
 make of those lines.
 */
module Transfer {
  import opened Basics
  import opened Escape
  import opened Wire

  const CHUNK_LEN: nat := MAX_LINE_LEN - 3   // 3 is for "D " and the line feed

  function Min(a: nat, b: nat): nat { if a <= b then a else b }

  /** WriteData cuts the escaped text, not the payload. */
  function Chunks(encoded: string): seq<string> {
    if encoded == "" then []
    else
      var n := Min(CHUNK_LEN, |encoded|);
      [encoded[..n]] + Chunks(encoded[n..])
  }

  function DataLine(chunk: string): string { "D " + chunk }

  function ChunkLines(chunks: seq<string>): (lines: seq<string>)
    ensures |lines| == |chunks|
    ensures forall i :: 0 <= i < |chunks| ==> lines[i] == DataLine(chunks[i])
  {
    if chunks == [] then [] else [DataLine(chunks[0])] + ChunkLines(chunks[1..])
  }

  /** The lines WriteData writes. */
  function DataLines(payload: string): seq<string> {
    ChunkLines(Chunks(EscapeParameters(payload)))
  }

  /** The lines WriteDataReader writes for the blocks its reader returns. */
  function BlockLines(blocks: seq<string>): (lines: seq<string>)
    ensures |lines| == |blocks|
    ensures forall i :: 0 <= i < |blocks| ==> lines[i] == DataLine(EscapeParameters(blocks[i]))
  {
    if blocks == [] then [] else [DataLine(EscapeParameters(blocks[0]))] + BlockLines(blocks[1..])
  }

  /** The `j`-th cut of the escaped text falls strictly inside a `%XX` triplet. */
  predicate BadCut(payload: string, j: nat) {
    var encoded := EscapeParameters(payload);
    1 <= j && CHUNK_LEN * j < |encoded| && CutsTriplet(encoded, CHUNK_LEN * j)
  }

  ghost predicate CutFree(payload: string) {
    forall j: nat :: !BadCut(payload, j)
  }

  // ---- the client's loop ----

  /** What SimpleCmd returns: the joined data, a decoded ERR line, or a failed read. */
  datatype Answer = Data(bytes: string) | ErrorReply(params: string) | Broken(fault: Fault)

  /** SimpleCmd's loop, started with `acc` already joined. */
  function ReadAnswer(input: string, acc: string, closed: bool): (r: (Answer, string))
    decreases |input|
  {
    match ReadLine(input, closed, MAX_LINE_LEN)
    case Fail(fault, rest) => (Broken(fault), rest)
    case Got(m, rest) =>
      if Final(m) then (Conclude(acc, m), rest) else ReadAnswer(rest, Absorb(acc, m), closed)
  }

  predicate Final(m: Message) { m.cmd == "OK" || m.cmd == "ERR" }

  function Conclude(acc: string, m: Message): Answer
    requires Final(m)
  {
    if m.cmd == "OK" then Data(acc) else ErrorReply(m.params)
  }

  function Absorb(acc: string, m: Message): string {
    if m.cmd == "D" then acc + m.params else acc
  }

  /** The client's loop over one line. */
  lemma AnswerStep(line: string, tail: string, acc: string, closed: bool)
    requires Fits(line, MAX_LINE_LEN)
    ensures ReadAnswer(line + "\n" + tail, acc, closed)
         == match Parse(line)
            case Skipped => ReadAnswer(tail, acc, closed)
            case Malformed => (Broken(BadEscape), tail)
            case Parsed(m) =>
              if Final(m) then (Conclude(acc, m), tail) else ReadAnswer(tail, Absorb(acc, m), closed)
  {
    ReadOneLine(line, tail, closed, MAX_LINE_LEN);
  }

  lemma FirstLine(lines: seq<string>, tail: string)
    requires lines != []
    ensures Bytes(lines) + tail == lines[0] + "\n" + (Bytes(lines[1..]) + tail)
  {
  }

  // ---- ReadData's loop ----

  datatype Received =
    | Payload(bytes: string)
    | Cancelled            // CAN
    | Unexpected           // any other command
    | Interrupted(fault: Fault)

  /** ReadData's loop. ReadLine has unescaped the chunk already; it is unescaped again. */
  function ReadData(input: string, acc: string, closed: bool, limit: nat): (r: (Received, string))
    decreases |input|
  {
    match ReadLine(input, closed, limit)
    case Fail(fault, rest) => (Interrupted(fault), rest)
    case Got(m, rest) =>
      match Take(acc, m)
      case Over(received) => (received, rest)
      case More(joined) => ReadData(rest, joined, closed, limit)
  }

  datatype Taken = More(acc: string) | Over(received: Received)

  /** ReadData's loop body on one message. */
  function Take(acc: string, m: Message): Taken {
    if m.cmd == "END" then Over(Payload(acc))
    else if m.cmd == "CAN" then Over(Cancelled)
    else if m.cmd != "D" then Over(Unexpected)
    else
      match UnescapeParameters(m.params)
      case None => Over(Interrupted(BadEscape))
      case Some(piece) => More(acc + piece)
  }

  /** A message that is neither data nor an end is passed over by the client's loop. */
  lemma OthersPassedOver(line: string, m: Message, tail: string, acc: string, closed: bool)
    requires Fits(line, MAX_LINE_LEN) && Parse(line) == Parsed(m) && m.cmd !in ["OK", "ERR", "D"]
    ensures ReadAnswer(line + "\n" + tail, acc, closed) == ReadAnswer(tail, acc, closed)
  {
    AnswerStep(line, tail, acc, closed);
  }

  /** It ends ReadData, which reports a cancellation for CAN and an unexpected command for
      any other. */
  lemma OthersEndData(line: string, m: Message, tail: string, acc: string, closed: bool, limit: nat)
    requires Fits(line, limit) && Parse(line) == Parsed(m) && m.cmd !in ["END", "D"]
    ensures ReadData(line + "\n" + tail, acc, closed, limit)
         == (if m.cmd == "CAN" then Cancelled else Unexpected, tail)
  {
    ReadOneLine(line, tail, closed, limit);
  }

  // ---- one D line ----

  lemma DataLineParses(chunk: string)
    requires '\n' !in chunk && '\r' !in chunk
    ensures '\n' !in DataLine(chunk) && DropCR(DataLine(chunk)) == DataLine(chunk)
    ensures Parse(DataLine(chunk)) == match UnescapeParameters(chunk)
                                      case None => Malformed
                                      case Some(piece) => Parsed(Message("D", piece))
  {
    var line := DataLine(chunk);
    assert "D" + " " + chunk == line;
    BlankSplits("D", chunk);
    IgnoredParamLine("D", chunk);
    assert ToUpper("D") == "D";
    if chunk != "" { assert line[|line| - 1] == chunk[|chunk| - 1]; }
  }

  // ---- the lines WriteData writes ----

  lemma {:induction false} ChunkCount(encoded: string)
    ensures |Chunks(encoded)| == (|encoded| + CHUNK_LEN - 1) / CHUNK_LEN
    ensures forall c :: c in Chunks(encoded) ==> 0 < |c| <= CHUNK_LEN
    ensures forall i :: 0 <= i < |Chunks(encoded)| - 1 ==> |Chunks(encoded)[i]| == CHUNK_LEN
    ensures Concat(Chunks(encoded)) == encoded
  {
    if encoded == "" {
    } else {
      var n := Min(CHUNK_LEN, |encoded|);
      ChunkCount(encoded[n..]);
      assert Chunks(encoded)[1..] == Chunks(encoded[n..]);
      assert n == CHUNK_LEN || Chunks(encoded[n..]) == [];
      OneMoreChunk(|encoded|);
      assert encoded == encoded[..n] + encoded[n..];
    }
  }

  lemma OneMoreChunk(length: nat)
    requires length > 0
    ensures (length - Min(CHUNK_LEN, length) + CHUNK_LEN - 1) / CHUNK_LEN + 1 == (length + CHUNK_LEN - 1) / CHUNK_LEN
  {
  }

  /** Every line is within the limit, all but the last fill it, their number is the escaped
      length divided by 997 and rounded up, and what follows "D " joins to the escaped payload. */
  lemma DataLinesBound(payload: string)
    ensures |DataLines(payload)| == (|EscapeParameters(payload)| + 996) / 997
    ensures forall i :: 0 <= i < |DataLines(payload)| ==>
      && 3 <= |DataLines(payload)[i]| < 1000
      && (i < |DataLines(payload)| - 1 ==> |DataLines(payload)[i]| == 999)
      && DataLines(payload)[i] == "D " + Chunks(EscapeParameters(payload))[i]
    ensures Concat(Chunks(EscapeParameters(payload))) == EscapeParameters(payload)
  {
    ChunkCount(EscapeParameters(payload));
    hide Chunks, EscapeParameters;
    var chunks := Chunks(EscapeParameters(payload));
    forall i | 0 <= i < |chunks| ensures 0 < |chunks[i]| <= 997 { assert chunks[i] in chunks; }
  }

  lemma OneChunk(payload: string)
    requires payload != "" && |EscapeParameters(payload)| <= CHUNK_LEN
    ensures DataLines(payload) == BlockLines([payload])
  {
    var encoded := EscapeParameters(payload);
    EscapeAlphabet(payload);
    assert encoded[..|encoded|] == encoded && encoded[|encoded|..] == "";
    assert Chunks(encoded) == [encoded];
  }

  lemma MoreChunks(payload: string, first: string, rest: string, more: seq<string>)
    requires CHUNK_LEN < |EscapeParameters(payload)|
    requires EscapeParameters(first) == EscapeParameters(payload)[..CHUNK_LEN]
    requires EscapeParameters(rest) == EscapeParameters(payload)[CHUNK_LEN..]
    requires DataLines(rest) == BlockLines(more)
    ensures DataLines(payload) == BlockLines([first] + more)
  {
    var encoded := EscapeParameters(payload);
    assert Chunks(encoded)[1..] == Chunks(encoded[CHUNK_LEN..]);
    assert ([first] + more)[1..] == more;
  }

  /** Without a bad cut, WriteData writes what a reader returning suitable blocks would. */
  lemma {:induction false} CutFreeBlocks(payload: string) returns (blocks: seq<string>)
    requires CutFree(payload)
    ensures DataLines(payload) == BlockLines(blocks)
    ensures Concat(blocks) == payload
    ensures forall b :: b in blocks ==> |EscapeParameters(b)| <= CHUNK_LEN
    decreases |payload|
  {
    if payload == "" {
      blocks := [];
    } else if |EscapeParameters(payload)| <= CHUNK_LEN {
      OneChunk(payload);
      blocks := [payload];
      assert blocks[1..] == [] && payload + "" == payload;
    } else {
      var first, rest := CutFreeFirst(payload);
      var more := CutFreeBlocks(rest);
      blocks := [first] + more;
      MoreChunks(payload, first, rest, more);
      hide EscapeParameters, DataLines, CutFree;
      assert blocks[1..] == more;
    }
  }

  /** The first block of a long payload without a bad cut, and the rest, which has none. */
  lemma CutFreeFirst(payload: string) returns (first: string, rest: string)
    requires CutFree(payload) && CHUNK_LEN < |EscapeParameters(payload)|
    ensures payload == first + rest && first != "" && CutFree(rest)
    ensures EscapeParameters(first) == EscapeParameters(payload)[..CHUNK_LEN]
    ensures EscapeParameters(rest) == EscapeParameters(payload)[CHUNK_LEN..]
  {
    assert !BadCut(payload, 1);
    var k := SplitAtBoundary(payload, CHUNK_LEN);
    first, rest := payload[..k], payload[k..];
    forall j: nat ensures !BadCut(rest, j) {
      CutsOfRest(payload, rest, j);
      assert !BadCut(payload, j + 1);
    }
  }

  // ---- the client reads data lines ----

  /** One block per line: the client appends exactly the blocks. */
  lemma {:induction false} BlocksDelivered(blocks: seq<string>, tail: string, acc: string, closed: bool)
    requires forall b :: b in blocks ==> |EscapeParameters(b)| <= CHUNK_LEN
    ensures ReadAnswer(Bytes(BlockLines(blocks)) + tail, acc, closed)
         == ReadAnswer(tail, acc + Concat(blocks), closed)
  {
    if blocks == [] {
      assert "" + tail == tail && acc + "" == acc;
    } else {
      var lines := BlockLines(blocks);
      EscapeAlphabet(blocks[0]);
      UnescapeEscape(blocks[0]);
      DataLineParses(EscapeParameters(blocks[0]));
      assert lines[1..] == BlockLines(blocks[1..]);
      FirstLine(lines, tail);
      AnswerStep(lines[0], Bytes(lines[1..]) + tail, acc, closed);
      BlocksDelivered(blocks[1..], tail, acc + blocks[0], closed);
      assert acc + blocks[0] + Concat(blocks[1..]) == acc + Concat(blocks);
    }
  }

  /** A payload without a bad cut arrives byte for byte. */
  lemma DataDelivered(payload: string, tail: string, acc: string, closed: bool)
    requires CutFree(payload)
    ensures ReadAnswer(Bytes(DataLines(payload)) + tail, acc, closed)
         == ReadAnswer(tail, acc + payload, closed)
  {
    var blocks := CutFreeBlocks(payload);
    BlocksDelivered(blocks, tail, acc, closed);
  }

  /** The first chunk of a text with more than one. */
  lemma FirstChunk(payload: string)
    requires CHUNK_LEN < |EscapeParameters(payload)|
    ensures var encoded, lines := EscapeParameters(payload), DataLines(payload);
      && |lines| > 1 && lines[0] == DataLine(encoded[..CHUNK_LEN]) && Fits(lines[0], MAX_LINE_LEN)
      && lines[1..] == ChunkLines(Chunks(encoded[CHUNK_LEN..]))
      && Parse(lines[0]) == match UnescapeParameters(encoded[..CHUNK_LEN])
                            case None => Malformed
                            case Some(piece) => Parsed(Message("D", piece))
  {
    var encoded := EscapeParameters(payload);
    EscapeAlphabet(payload);
    ChunkCount(encoded);
    assert forall c :: c in encoded[..CHUNK_LEN] ==> c in encoded;
    DataLineParses(encoded[..CHUNK_LEN]);
    assert Chunks(encoded)[1..] == Chunks(encoded[CHUNK_LEN..]);
  }

  /** Past a good first cut, the cuts of the rest are the later cuts. */
  lemma CutsOfRest(payload: string, rest: string, j: nat)
    requires CHUNK_LEN < |EscapeParameters(payload)|
    requires EscapeParameters(rest) == EscapeParameters(payload)[CHUNK_LEN..]
    ensures j >= 1 ==> BadCut(rest, j) == BadCut(payload, j + 1)
  {
    var encoded, tail, p := EscapeParameters(payload), EscapeParameters(rest), CHUNK_LEN * j;
    if 1 <= j && p < |tail| {
      assert tail[p - 1] == encoded[CHUNK_LEN + p - 1] && tail[p - 2] == encoded[CHUNK_LEN + p - 2];
    }
  }

  /** Past a good first cut: the rest of the payload, with the rest of the lines and cuts. */
  lemma AfterFirstChunk(payload: string, b: nat) returns (first: string, rest: string)
    requires b > 1 && BadCut(payload, b) && forall j: nat :: j < b ==> !BadCut(payload, j)
    ensures UnescapeParameters(EscapeParameters(payload)[..CHUNK_LEN]) == Some(first)
    ensures DataLines(rest) == ChunkLines(Chunks(EscapeParameters(payload)[CHUNK_LEN..]))
    ensures BadCut(rest, b - 1) && forall j: nat :: j < b - 1 ==> !BadCut(rest, j)
  {
    assert !BadCut(payload, 1);
    var k := SplitAtBoundary(payload, CHUNK_LEN);
    first, rest := payload[..k], payload[k..];
    UnescapeEscape(first);
    CutsOfRest(payload, rest, b - 1);
    forall j: nat | j < b - 1 ensures !BadCut(rest, j) { CutsOfRest(payload, rest, j); }
  }

  /** The first `b` lines: data lines that parse, then one that does not. */
  predicate FailsAt(lines: seq<string>, b: nat) {
    && 1 <= b <= |lines|
    && (forall i :: 0 <= i < b ==> Fits(lines[i], MAX_LINE_LEN))
    && (forall i :: 0 <= i < b - 1 ==> Parse(lines[i]).Parsed? && Parse(lines[i]).message.cmd == "D")
    && Parse(lines[b - 1]).Malformed?
  }

  lemma FirstCutFails(payload: string)
    requires BadCut(payload, 1)
    ensures 1 < |DataLines(payload)| && FailsAt(DataLines(payload), 1)
  {
    FirstChunk(payload);
    CutPrefixFails(payload, CHUNK_LEN);
  }

  lemma LaterCutFails(payload: string, first: string, rest: string, b: nat)
    requires b > 1 && CHUNK_LEN < |EscapeParameters(payload)|
    requires UnescapeParameters(EscapeParameters(payload)[..CHUNK_LEN]) == Some(first)
    requires DataLines(rest) == ChunkLines(Chunks(EscapeParameters(payload)[CHUNK_LEN..]))
    requires b - 1 < |DataLines(rest)| && FailsAt(DataLines(rest), b - 1)
    ensures b < |DataLines(payload)| && FailsAt(DataLines(payload), b)
  {
    FirstChunk(payload);
    var lines := DataLines(payload);
    assert lines == [lines[0]] + DataLines(rest);
    FailsLater(lines[0], DataLines(rest), b);
  }

  lemma CutAfterStart(payload: string, b: nat)
    requires BadCut(payload, b)
    ensures b >= 1 && CHUNK_LEN < |EscapeParameters(payload)|
  {
  }

  lemma {:induction false} CutLinesFail(payload: string, b: nat)
    requires BadCut(payload, b) && forall j: nat :: j < b ==> !BadCut(payload, j)
    ensures b < |DataLines(payload)| && FailsAt(DataLines(payload), b)
    decreases b
  {
    hide *;
    CutAfterStart(payload, b);
    if b == 1 {
      FirstCutFails(payload);
    } else {
      var first, rest := AfterFirstChunk(payload, b);
      CutLinesFail(rest, b - 1);
      LaterCutFails(payload, first, rest, b);
    }
  }

  lemma FailsLater(line: string, lines: seq<string>, b: nat)
    requires Fits(line, MAX_LINE_LEN) && Parse(line).Parsed? && Parse(line).message.cmd == "D"
    requires b > 1 && FailsAt(lines, b - 1)
    ensures FailsAt([line] + lines, b)
  {
  }

  lemma {:induction false} ReadFailsAt(lines: seq<string>, b: nat, tail: string, acc: string, closed: bool)
    requires FailsAt(lines, b)
    ensures ReadAnswer(Bytes(lines) + tail, acc, closed) == (Broken(BadEscape), Bytes(lines[b..]) + tail)
    decreases b
  {
    FirstLine(lines, tail);
    AnswerStep(lines[0], Bytes(lines[1..]) + tail, acc, closed);
    hide ReadAnswer, Parse, Bytes, Fits;
    if b > 1 {
      ReadFailsAt(lines[1..], b - 1, tail, Absorb(acc, Parse(lines[0]).message), closed);
      assert lines[1..][b - 1..] == lines[b..];
    }
  }

  /** With a bad cut, the first one being the `b`-th, the read fails on the line before
      it and leaves everything after that line unread. No byte is delivered. */
  lemma CutDataFails(payload: string, b: nat, tail: string, acc: string, closed: bool)
    requires BadCut(payload, b) && forall j: nat :: j < b ==> !BadCut(payload, j)
    ensures b < |DataLines(payload)|
    ensures ReadAnswer(Bytes(DataLines(payload)) + tail, acc, closed)
         == (Broken(BadEscape), Bytes(DataLines(payload)[b..]) + tail)
  {
    CutLinesFail(payload, b);
    ReadFailsAt(DataLines(payload), b, tail, acc, closed);
  }

  /** The client gets the payload of a WriteData followed by OK if and only if no cut
      falls inside a triplet; otherwise it gets an error, never other bytes. */
  lemma WriteDataRoundTripIff(payload: string, rest: string, closed: bool)
    ensures var (answer, unread) := ReadAnswer(Bytes(DataLines(payload)) + ("OK\n" + rest), "", closed);
      if CutFree(payload) then answer == Data(payload) && unread == rest
      else answer == Broken(BadEscape)
  {
    if CutFree(payload) {
      DataDelivered(payload, "OK\n" + rest, "", closed);
      assert "" + payload == payload;
      OkEndsAnswer(rest, payload, closed);
    } else {
      var b := FirstBadCut(payload);
      CutDataFails(payload, b, "OK\n" + rest, "", closed);
    }
  }

  /** There are payloads with a bad cut: the 997th byte of this one's escaped text is the
      first of a triplet. What WriteData writes for it cannot be read. */
  lemma CutPayload(rest: string, closed: bool)
    ensures var payload := seq(CHUNK_LEN - 1, _ => 'a') + "%x";
      && BadCut(payload, 1)
      && ReadAnswer(Bytes(DataLines(payload)) + ("OK\n" + rest), "", closed).0 == Broken(BadEscape)
  {
    var front: string := seq(CHUNK_LEN - 1, _ => 'a');
    var payload := front + "%x";
    NothingToEscape(front);
    EscapeConcat(front, "%x");
    assert EscapeParameters("%x") == "%25x" by { assert "%x"[1..] == "x" && "x"[1..] == ""; }
    assert EscapeParameters(payload)[CHUNK_LEN - 1] == '%';
    assert BadCut(payload, 1);
    WriteDataRoundTripIff(payload, rest, closed);
  }

  /** There are payloads ReadData changes: the digits of a triplet, which is itself escaped. */
  lemma DoublyDecoded(rest: string, closed: bool)
    ensures ReadData(Bytes(DataLines("%41")) + ("END\n" + rest), "", closed, MAX_LINE_LEN).0 != Payload("%41")
    ensures CutFree("%41")
  {
    EscapeLength("%41");
    EscapablesBound("%41");
    ReadDataRoundTripIff("%41", rest, closed);
  }

  lemma OkEndsAnswer(rest: string, acc: string, closed: bool)
    ensures ReadAnswer("OK\n" + rest, acc, closed) == (Data(acc), rest)
  {
    CleanBareLine("OK");
    assert ToUpper("OK") == "OK";
    assert "OK" + "\n" + rest == "OK\n" + rest;
    ReadOneLine("OK", rest, closed, MAX_LINE_LEN);
  }

  lemma FirstBadCut(payload: string) returns (b: nat)
    requires !CutFree(payload)
    ensures BadCut(payload, b) && forall j: nat :: j < b ==> !BadCut(payload, j)
  {
    b := 0;
    ghost var witnessed: nat :| BadCut(payload, witnessed);
    while !BadCut(payload, b)
      invariant b <= witnessed && forall j: nat :: j < b ==> !BadCut(payload, j)
      decreases witnessed - b
    {
      b := b + 1;
    }
  }

  // ---- WriteDataReader ----

  /** A block of n bytes with e escapable ones makes a line of n + 2e + 3 bytes. */
  lemma BlockLineLength(block: string)
    ensures |DataLine(EscapeParameters(block))| + 1 == |block| + 2 * Escapables(block) + 3
    ensures |block| <= CHUNK_LEN ==> |DataLine(EscapeParameters(block))| + 1 <= 2994
  {
    EscapeLength(block);
    EscapablesBound(block);
  }

  lemma {:induction false} EscapablesBound(raw: string)
    ensures Escapables(raw) <= |raw|
  {
    if raw == "" {
    } else {
      EscapablesBound(raw[1..]);
    }
  }

  /** The lines of a reader are never cut inside a triplet: each one is read back as
      its block if and only if it is within the limit of the reading pipe, whatever
      the bytes of the block are. */
  lemma BlockLineReadIff(block: string, tail: string, closed: bool, limit: nat)
    ensures ReadLine(DataLine(EscapeParameters(block)) + "\n" + tail, closed, limit)
         == if |block| + 2 * Escapables(block) + 3 <= limit then Got(Message("D", block), tail)
            else Fail(TooLong, DataLine(EscapeParameters(block)) + "\n" + tail)
  {
    EscapeAlphabet(block);
    UnescapeEscape(block);
    DataLineParses(EscapeParameters(block));
    BlockLineLength(block);
    ScanOneLine(DataLine(EscapeParameters(block)), tail, closed, limit);
  }

  // ---- what is taken from a reader ----

  /** What one Read call returns: bytes, and no error, io.EOF, or another error. */
  datatype ReadResult = ReadResult(bytes: string, status: ReadStatus)

  datatype ReadStatus = MoreToCome | AtEnd | ReadFailed

  /** The blocks sent: up to the first read that returns an error, whose bytes are dropped.
      A reader whose results are used up is at its end. */
  function BlocksOf(results: seq<ReadResult>): seq<string> {
    if results == [] || !results[0].status.MoreToCome? then [] else [results[0].bytes] + BlocksOf(results[1..])
  }

  predicate ReaderFails(results: seq<ReadResult>) {
    results != [] && if results[0].status.MoreToCome? then ReaderFails(results[1..]) else results[0].status.ReadFailed?
  }

  /** It fails if a read does, and every read before it has more to come. */
  lemma {:induction false} ReaderFailsIff(results: seq<ReadResult>)
    ensures ReaderFails(results) <==>
            exists i :: 0 <= i < |results| && results[i].status == ReadFailed
              && forall j :: 0 <= j < i ==> results[j].status == MoreToCome
  {
    if results != [] && results[0].status.MoreToCome? {
      var more := results[1..];
      ReaderFailsIff(more);
      assert forall j :: 1 <= j < |results| ==> results[j] == more[j - 1];
      if ReaderFails(more) {
        var i :| 0 <= i < |more| && more[i].status == ReadFailed
          && forall j :: 0 <= j < i ==> more[j].status == MoreToCome;
        assert results[i + 1].status == ReadFailed;
      }
      forall i | 0 <= i < |results| && results[i].status == ReadFailed
          && forall j :: 0 <= j < i ==> results[j].status == MoreToCome
        ensures ReaderFails(more)
      {
        assert more[i - 1].status == ReadFailed;
        assert forall j :: 0 <= j < i - 1 ==> more[j] == results[j + 1];
      }
    }
  }

  /** All bytes the reader returns until it stops. */
  function Content(results: seq<ReadResult>): string {
    if results == [] then ""
    else results[0].bytes + if results[0].status.MoreToCome? then Content(results[1..]) else ""
  }

  /** The bytes that come with the end of input, or with the failure. */
  function LastBytes(results: seq<ReadResult>): string {
    if results == [] then ""
    else if results[0].status.MoreToCome? then LastBytes(results[1..]) else results[0].bytes
  }

  lemma {:induction false} ContentIs(results: seq<ReadResult>)
    ensures Content(results) == Concat(BlocksOf(results)) + LastBytes(results)
  {
    if results == [] {
    } else if results[0].status.MoreToCome? {
      ContentIs(results[1..]);
      Associative(results[0].bytes, Concat(BlocksOf(results[1..])), LastBytes(results[1..]));
      assert BlocksOf(results)[1..] == BlocksOf(results[1..]);
    } else {
      assert results[0].bytes + "" == results[0].bytes && "" + results[0].bytes == results[0].bytes;
    }
  }

  /** Everything a reader returns is sent if and only if its last read returns no bytes. */
  lemma ReaderSentIff(results: seq<ReadResult>)
    ensures Concat(BlocksOf(results)) == Content(results) <==> LastBytes(results) == ""
  {
    ContentIs(results);
    assert |Content(results)| == |Concat(BlocksOf(results))| + |LastBytes(results)|;
  }

  /** Bytes returned together with io.EOF are not sent. */
  lemma LastReadDropped(last: string)
    requires last != ""
    ensures var results := [ReadResult(last, AtEnd)];
      Content(results) == last && BlocksOf(results) == [] && !ReaderFails(results)
  {
    ReaderSentIff([ReadResult(last, AtEnd)]);
    assert last + "" == last;
  }

  /** A reader that ends with an empty read. */
  function Whole(blocks: seq<string>): (results: seq<ReadResult>)
    ensures |results| == |blocks|
  {
    seq(|blocks|, i requires 0 <= i < |blocks| => ReadResult(blocks[i], MoreToCome))
  }

  lemma {:induction false} BlocksOfWhole(blocks: seq<string>)
    ensures BlocksOf(Whole(blocks)) == blocks && !ReaderFails(Whole(blocks))
    decreases |blocks|
  {
    if blocks == [] {
    } else {
      BlocksOfWhole(blocks[1..]);
      assert Whole(blocks)[1..] == Whole(blocks[1..]);
    }
  }

  // ---- a whole reader ----

  /** The block's line does not fit a pipe with the limit. */
  predicate TooBig(block: string, limit: nat) { |block| + 2 * Escapables(block) + 3 > limit }

  /** Index of the first block that is too big, or their number if none is. */
  function FirstTooBig(blocks: seq<string>, limit: nat): (n: nat)
    ensures n <= |blocks| && forall i :: 0 <= i < n ==> !TooBig(blocks[i], limit)
    ensures n < |blocks| ==> TooBig(blocks[n], limit)
  {
    if blocks == [] || TooBig(blocks[0], limit) then 0 else 1 + FirstTooBig(blocks[1..], limit)
  }

  function DataMessages(blocks: seq<string>): (ms: seq<Message>)
    ensures |ms| == |blocks| && forall i :: 0 <= i < |blocks| ==> ms[i] == Message("D", blocks[i])
  {
    seq(|blocks|, i requires 0 <= i < |blocks| => Message("D", blocks[i]))
  }

  /** A reader's lines on a pipe with any limit: every block is delivered, in order, if and
      only if none is too big; otherwise the blocks before the first such one are, and
      then the read fails. */
  lemma {:induction false} ReaderDeliveredIff(blocks: seq<string>, tail: string, closed: bool, limit: nat)
    ensures var n := FirstTooBig(blocks, limit);
      ReadAll(Bytes(BlockLines(blocks)) + tail, closed, limit)
        == if n == |blocks| then (DataMessages(blocks) + ReadAll(tail, closed, limit).0, ReadAll(tail, closed, limit).1)
           else (DataMessages(blocks[..n]), TooLong)
  {
    hide *;
    if blocks == [] {
      NoBlocks(tail);
      assert DataMessages(blocks) + ReadAll(tail, closed, limit).0 == ReadAll(tail, closed, limit).0;
    } else {
      var n, m, more := FirstTooBig(blocks, limit), Message("D", blocks[0]), blocks[1..];
      FirstTooBigStep(blocks, limit);
      FirstBlock(blocks, tail, closed, limit);
      FirstMessage(blocks, n);
      if n == 0 {
        assert DataMessages(blocks[..0]) == [];
      } else {
        ReaderDeliveredIff(more, tail, closed, limit);
        if n == |blocks| { Associative([m], DataMessages(more), ReadAll(tail, closed, limit).0); }
      }
    }
  }

  lemma NoBlocks(tail: string)
    ensures Bytes(BlockLines([])) + tail == tail
  {
    assert "" + tail == tail;
  }

  lemma FirstTooBigStep(blocks: seq<string>, limit: nat)
    requires blocks != []
    ensures FirstTooBig(blocks, limit)
         == if |blocks[0]| + 2 * Escapables(blocks[0]) + 3 > limit then 0 else 1 + FirstTooBig(blocks[1..], limit)
  {
  }

  /** The first of a reader's lines on the pipe. */
  lemma FirstBlock(blocks: seq<string>, tail: string, closed: bool, limit: nat)
    requires blocks != []
    ensures var (more, fault) := ReadAll(Bytes(BlockLines(blocks[1..])) + tail, closed, limit);
      ReadAll(Bytes(BlockLines(blocks)) + tail, closed, limit)
        == if |blocks[0]| + 2 * Escapables(blocks[0]) + 3 <= limit then ([Message("D", blocks[0])] + more, fault)
           else ([], TooLong)
  {
    hide ReadLine, Bytes, EscapeParameters, DataLine, BlockLines;
    FirstBlockLine(blocks);
    FirstLine(BlockLines(blocks), tail);
    BlockLineReadIff(blocks[0], Bytes(BlockLines(blocks[1..])) + tail, closed, limit);
  }

  lemma FirstBlockLine(blocks: seq<string>)
    requires blocks != []
    ensures BlockLines(blocks)[0] == DataLine(EscapeParameters(blocks[0]))
    ensures BlockLines(blocks)[1..] == BlockLines(blocks[1..])
  {
  }

  lemma FirstMessage(blocks: seq<string>, n: nat)
    requires blocks != [] && n <= |blocks|
    ensures DataMessages(blocks) == [Message("D", blocks[0])] + DataMessages(blocks[1..])
    ensures n > 0 ==> DataMessages(blocks[..n]) == [Message("D", blocks[0])] + DataMessages(blocks[1..][..n - 1])
  {
  }

  /** A reader that returns at most 997 bytes at a time is always delivered whole on an
      unrestricted pipe. */
  lemma ReaderAlwaysArrives(blocks: seq<string>, tail: string, closed: bool)
    requires forall b :: b in blocks ==> |b| <= CHUNK_LEN
    ensures ReadAll(Bytes(BlockLines(blocks)) + tail, closed, MAX_SCAN_TOKEN)
         == (DataMessages(blocks) + ReadAll(tail, closed, MAX_SCAN_TOKEN).0, ReadAll(tail, closed, MAX_SCAN_TOKEN).1)
  {
    ReaderDeliveredIff(blocks, tail, closed, MAX_SCAN_TOKEN);
    var n := FirstTooBig(blocks, MAX_SCAN_TOKEN);
    if n < |blocks| { BlockLineLength(blocks[n]); }
  }

  /** A reader's lines followed by OK: the client gets the whole content if and only if no
      block is too big for its restricted pipe; otherwise its read fails there. */
  lemma {:induction false} ReaderAnsweredIff(blocks: seq<string>, rest: string, acc: string, closed: bool)
    ensures var n := FirstTooBig(blocks, MAX_LINE_LEN);
      ReadAnswer(Bytes(BlockLines(blocks)) + ("OK\n" + rest), acc, closed)
        == if n == |blocks| then (Data(acc + Concat(blocks)), rest)
           else (Broken(TooLong), Bytes(BlockLines(blocks[n..])) + ("OK\n" + rest))
    decreases blocks
  {
    var tail := "OK\n" + rest;
    if blocks == [] {
      assert "" + tail == tail && acc + "" == acc;
      OkEndsAnswer(rest, acc, closed);
    } else {
      var n := FirstTooBig(blocks, MAX_LINE_LEN);
      var lines := BlockLines(blocks);
      assert lines[1..] == BlockLines(blocks[1..]);
      FirstLine(lines, tail);
      BlockLineReadIff(blocks[0], Bytes(lines[1..]) + tail, closed, MAX_LINE_LEN);
      if n == 0 {
        assert blocks[0..] == blocks;
      } else {
        ReaderAnsweredIff(blocks[1..], rest, acc + blocks[0], closed);
        Associative(acc, blocks[0], Concat(blocks[1..]));
        assert blocks[1..][n - 1..] == blocks[n..];
      }
    }
  }

  // ---- ReadData ----

  /** ReadData's loop over a block's line. */
  lemma DataStep(block: string, tail: string, acc: string, closed: bool, limit: nat)
    requires |EscapeParameters(block)| + 3 <= limit
    ensures ReadData(DataLine(EscapeParameters(block)) + "\n" + tail, acc, closed, limit)
         == match UnescapeParameters(block)
            case None => (Interrupted(BadEscape), tail)
            case Some(piece) => ReadData(tail, acc + piece, closed, limit)
  {
    EscapeLength(block);
    BlockLineReadIff(block, tail, closed, limit);
  }

  lemma EndEndsData(rest: string, acc: string, closed: bool, limit: nat)
    requires limit > 3
    ensures ReadData("END\n" + rest, acc, closed, limit) == (Payload(acc), rest)
  {
    CleanBareLine("END");
    assert ToUpper("END") == "END";
    assert "END" + "\n" + rest == "END\n" + rest;
    ReadOneLine("END", rest, closed, limit);
  }

  /** ReadData over the lines of some blocks: the second unescaping of every block. */
  function Twice(blocks: seq<string>): Option<string> {
    if blocks == [] then Some("")
    else if UnescapeParameters(blocks[0]).None? then None
    else Prepend(UnescapeParameters(blocks[0]).value, Twice(blocks[1..]))
  }

  lemma {:induction false} BlocksReadTwice(blocks: seq<string>, rest: string, acc: string, closed: bool, limit: nat)
    requires limit > 3
    requires forall b :: b in blocks ==> |EscapeParameters(b)| + 3 <= limit
    ensures var (got, unread) := ReadData(Bytes(BlockLines(blocks)) + ("END\n" + rest), acc, closed, limit);
      match Twice(blocks)
      case None => got == Interrupted(BadEscape)
      case Some(bytes) => got == Payload(acc + bytes) && unread == rest
  {
    hide ReadData, EscapeParameters;
    var tail := "END\n" + rest;
    if blocks == [] {
      assert "" + tail == tail && acc + "" == acc;
      EndEndsData(rest, acc, closed, limit);
    } else {
      var lines := BlockLines(blocks);
      assert lines[1..] == BlockLines(blocks[1..]);
      FirstLine(lines, tail);
      DataStep(blocks[0], Bytes(lines[1..]) + tail, acc, closed, limit);
      if UnescapeParameters(blocks[0]).Some? {
        var piece := UnescapeParameters(blocks[0]).value;
        BlocksReadTwice(blocks[1..], rest, acc + piece, closed, limit);
        if Twice(blocks[1..]).Some? {
          assert (acc + piece) + Twice(blocks[1..]).value == acc + (piece + Twice(blocks[1..]).value);
        }
      }
    }
  }

  /** Blocks without `%` survive the second unescaping; others do not come back whole. */
  lemma {:induction false} TwiceIsIdentityIff(blocks: seq<string>)
    ensures '%' !in Concat(blocks) <==> Twice(blocks) == Some(Concat(blocks))
    ensures Twice(blocks).Some? ==> |Twice(blocks).value| <= |Concat(blocks)|
    ensures '%' in Concat(blocks) && Twice(blocks).Some? ==> |Twice(blocks).value| < |Concat(blocks)|
  {
    if blocks == [] {
    } else {
      UnescapeIsIdentityIff(blocks[0]);
      TwiceIsIdentityIff(blocks[1..]);
    }
  }

  /** ReadData returns a payload that WriteData delivers line by line if and only if the
      payload has no `%`; if it has one, ReadData fails or returns something shorter. */
  lemma ReadDataRoundTripIff(payload: string, rest: string, closed: bool)
    requires CutFree(payload)
    ensures var (got, unread) := ReadData(Bytes(DataLines(payload)) + ("END\n" + rest), "", closed, MAX_LINE_LEN);
      if '%' !in payload then got == Payload(payload) && unread == rest
      else got == Interrupted(BadEscape) || (got.Payload? && |got.bytes| < |payload|)
  {
    var blocks := CutFreeBlocks(payload);
    BlocksReadTwice(blocks, rest, "", closed, MAX_LINE_LEN);
    TwiceIsIdentityIff(blocks);
    assert "" + payload == payload;
  }
}
