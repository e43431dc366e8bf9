/**
 The Pipe object (assuan/common/io.go), a bounded scanner over one byte stream and a
 writer to another, each method proved against the functions of Wire and Transfer.
 Writes to the stream succeed; `input` is everything the reader will still deliver.
 */
module Pipes {
  import opened Basics
  import opened Escape
  import opened Errors
  import opened Transfer
  import opened Wire

  class Pipe {
    var input: string
    var output: string
    var limit: nat

    constructor (input: string)
      ensures this.input == input && output == "" && limit == MAX_LINE_LEN
    {
      this.input := input;
      output := "";
      limit := MAX_LINE_LEN;
    }

    method RestrictInputLen(restrict: bool)
      modifies this`limit
      ensures limit == if restrict then MAX_LINE_LEN else MAX_SCAN_TOKEN
    {
      limit := if restrict then MAX_LINE_LEN else MAX_SCAN_TOKEN;
    }

    /** The scanner's Scan: takes one line off the input. */
    method ScanLine() returns (s: Scanned)
      modifies this`input
      ensures s == Scan(old(input), true, limit)
      ensures input == if s.Token? then s.rest else old(input)
    {
      s := Scan(input, true, limit);
      if s.Token? {
        input := s.rest;
      }
    }

    method ReadLine() returns (r: Read)
      modifies this`input
      ensures r == Wire.ReadLine(old(input), true, limit) && input == r.rest
    {
      var line := "";
      while true
        invariant Wire.ReadLine(input, true, limit) == Wire.ReadLine(old(input), true, limit)
        decreases |input|
      {
        var s := ScanLine();
        if s.Overflow? {
          return Fail(TooLong, input);
        }
        if !s.Token? {
          return Fail(EndOfInput, input);
        }
        line := s.line;
        if !Ignored(line) {
          assert Wire.ReadLine(old(input), true, limit)
              == match Parse(line)
                 case Malformed => Fail(BadEscape, input)
                 case Parsed(message) => Got(message, input);
          break;
        }
      }
      var n := FirstBlank(line);
      if n == |line| {
        return Got(Message(ToUpper(line), ""), input);
      }
      var params := UnescapeParameters(line[n + 1..]);
      if params.None? {
        return Fail(BadEscape, input);
      }
      return Got(Message(ToUpper(line[..n]), params.value), input);
    }

    method WriteLine(cmd: string, params: string) returns (ok: bool)
      modifies this`output
      ensures ok == Accepts(Message(cmd, params))
      ensures output == if ok then old(output) + LineOf(Message(cmd, params)) + "\n" else old(output)
    {
      if |cmd| + |params| + 2 > MAX_LINE_LEN {
        return false;
      }
      var line := if params != "" then ToUpper(cmd) + " " + EscapeParameters(params) else ToUpper(cmd);
      output := output + line + "\n";
      return true;
    }

    method WriteComment(text: string) returns (ok: bool)
      modifies this`output
      ensures ok == Accepts(Message("#", text))
      ensures output == if ok then old(output) + LineOf(Message("#", text)) + "\n" else old(output)
    {
      ok := WriteLine("#", text);
    }

    method WriteError(e: Error) returns (ok: bool)
      modifies this`output
      ensures ok == Accepts(ErrorMessage(e))
      ensures output == if ok then old(output) + LineOf(ErrorMessage(e)) + "\n" else old(output)
    {
      ok := WriteLine("ERR", ErrorParams(e));
    }

    method WriteData(payload: string)
      modifies this`output
      ensures output == old(output) + Bytes(DataLines(payload))
    {
      var encoded := EscapeParameters(payload);
      var i := 0;
      ghost var goal := output + Bytes(DataLines(payload));
      while i < |encoded|
        invariant output + Bytes(LinesFrom(encoded, i)) == goal
        decreases |encoded| - i
      {
        var j := Min(i + CHUNK_LEN, |encoded|);
        var line := DataLine(encoded[i..j]);
        NextChunk(encoded, i);
        PrependLine(output, line, LinesFrom(encoded, i + CHUNK_LEN));
        output := output + line + "\n";
        i := i + CHUNK_LEN;
      }
      assert encoded[|encoded|..] == "";
      assert output + "" == output;
    }

    method WriteDataReader(results: seq<ReadResult>) returns (ok: bool)
      modifies this`output
      ensures output == old(output) + Bytes(BlockLines(BlocksOf(results)))
      ensures ok == !ReaderFails(results)
    {
      var k := 0;
      ghost var goal := output + Bytes(BlockLines(BlocksOf(results)));
      assert results[0..] == results;
      while k < |results|
        invariant k <= |results|
        invariant output + Bytes(BlockLines(BlocksOf(results[k..]))) == goal
        invariant ReaderFails(results[k..]) == ReaderFails(results)
      {
        var r := results[k];
        assert results[k..][1..] == results[k + 1..];
        if !r.status.MoreToCome? {
          assert output + "" == output;
          return r.status.AtEnd?;
        }
        var chunk := EscapeParameters(r.bytes);
        assert BlocksOf(results[k..])[1..] == BlocksOf(results[k + 1..]);
        PrependLine(output, DataLine(chunk), BlockLines(BlocksOf(results[k + 1..])));
        output := output + DataLine(chunk) + "\n";
        k := k + 1;
      }
      assert results[k..] == [] && output + "" == output;
      return true;
    }

    method ReadData() returns (r: Received)
      modifies this`input
      ensures (r, input) == Transfer.ReadData(old(input), "", true, limit)
    {
      var data := "";
      while true
        invariant Transfer.ReadData(input, data, true, limit) == Transfer.ReadData(old(input), "", true, limit)
        decreases |input|
      {
        var line := this.ReadLine();
        if line.Fail? {
          return Interrupted(line.fault);
        }
        if line.message.cmd == "END" {
          return Payload(data);
        }
        if line.message.cmd == "CAN" {
          return Cancelled;
        }
        if line.message.cmd != "D" {
          return Unexpected;
        }
        var unescaped := UnescapeParameters(line.message.params);
        if unescaped.None? {
          return Interrupted(BadEscape);
        }
        data := data + unescaped.value;
      }
    }
  }

  /** The data lines for what is left of the escaped text at `i`. */
  ghost function LinesFrom(encoded: string, i: nat): seq<string> {
    ChunkLines(Chunks(encoded[Min(i, |encoded|)..]))
  }

  /** The chunk at `i` and the chunks after it. */
  lemma NextChunk(encoded: string, i: nat)
    requires i < |encoded|
    ensures LinesFrom(encoded, i)
         == [DataLine(encoded[i..Min(i + CHUNK_LEN, |encoded|)])] + LinesFrom(encoded, i + CHUNK_LEN)
  {
    var j, rest := Min(i + CHUNK_LEN, |encoded|), encoded[i..];
    var n := Min(CHUNK_LEN, |rest|);
    assert rest[..n] == encoded[i..j] && rest[n..] == encoded[j..];
    assert Chunks(rest)[1..] == Chunks(encoded[j..]);
  }
}
