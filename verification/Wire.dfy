/**
 The line layer of the Assuan pipe (assuan/common/io.go) on byte strings: what
 bufio.Scanner cuts from the input, what ReadLine makes of it, what WriteLine writes.
 */
module Wire {
  import opened Basics
  import opened Escape

  const MAX_LINE_LEN: nat := 1000       // bytes of a line, its line feed included
  const MAX_SCAN_TOKEN: nat := 65536    // the limit after RestrictInputLen(false)

  // ---- bufio.Scanner with ScanLines ----

  datatype Scanned =
    | Token(line: string, rest: string)
    | NeedMore   // no complete line yet, and the writer may still send more
    | NoMore     // the input has ended
    | Overflow   // the buffer is full and holds no line feed

  /** Index of the first line feed, or the length if there is none. */
  function LineEnd(input: string): (n: nat)
    ensures n <= |input|
    ensures forall i :: 0 <= i < n ==> input[i] != '\n'
    ensures n < |input| ==> input[n] == '\n'
  {
    if input == "" || input[0] == '\n' then 0 else 1 + LineEnd(input[1..])
  }

  function DropCR(line: string): string {
    if line != "" && line[|line| - 1] == '\r' then line[..|line| - 1] else line
  }

  /** One Scan call with a buffer of `limit` bytes. `closed` says that nothing follows `input`. */
  function Scan(input: string, closed: bool, limit: nat): (s: Scanned)
    ensures s.Token? ==> |s.rest| < |input|
  {
    var n := LineEnd(input);
    if n < |input| && n < limit then Token(DropCR(input[..n]), input[n + 1..])
    else if |input| >= limit then Overflow
    else if !closed then NeedMore
    else if input == "" then NoMore
    else Token(DropCR(input), "")
  }

  // ---- one line ----

  predicate IsSpace(c: char) {
    c == ' ' || c == '\t' || c == '\n' || c == '\r' || c == 11 as char || c == 12 as char
  }

  predicate Blank(line: string) {
    forall c :: c in line ==> IsSpace(c)
  }

  function UpperChar(c: char): char {
    if 'a' <= c <= 'z' then (c as int - 32) as char else c
  }

  function ToUpper(text: string): (upper: string)
    ensures |upper| == |text|
    ensures forall i :: 0 <= i < |text| ==> upper[i] == UpperChar(text[i])
  {
    if text == "" then "" else [UpperChar(text[0])] + ToUpper(text[1..])
  }

  /** Index of the first blank, or the length if there is none. */
  function FirstBlank(line: string): (n: nat)
    ensures n <= |line|
    ensures forall i :: 0 <= i < n ==> line[i] != ' '
    ensures n < |line| ==> line[n] == ' '
  {
    if line == "" || line[0] == ' ' then 0 else 1 + FirstBlank(line[1..])
  }

  datatype Message = Message(cmd: string, params: string)

  datatype Parsed = Skipped | Malformed | Parsed(message: Message)

  /** Comments, status lines and blank lines are passed over. */
  predicate Ignored(line: string) {
    (line != "" && line[0] == '#') || (|line| >= 2 && line[..2] == "S ") || Blank(line)
  }

  /** What ReadLine makes of one scanned line. */
  function Parse(line: string): Parsed {
    if Ignored(line) then Skipped
    else
      var n := FirstBlank(line);
      if n == |line| then Parsed(Message(ToUpper(line), ""))
      else
        match UnescapeParameters(line[n + 1..])
        case None => Malformed
        case Some(params) => Parsed(Message(ToUpper(line[..n]), params))
  }

  // ---- ReadLine ----

  /** Why a read does not deliver a message. `Blocked`: the call has not returned yet. */
  datatype Fault = Blocked | EndOfInput | TooLong | BadEscape

  datatype Read = Got(message: Message, rest: string) | Fail(fault: Fault, rest: string)

  function ReadLine(input: string, closed: bool, limit: nat): (r: Read)
    ensures r.Got? ==> |r.rest| < |input|
    decreases |input|
  {
    match Scan(input, closed, limit)
    case NeedMore => Fail(Blocked, input)
    case NoMore => Fail(EndOfInput, input)
    case Overflow => Fail(TooLong, input)
    case Token(line, rest) =>
      match Parse(line)
      case Skipped => ReadLine(rest, closed, limit)
      case Malformed => Fail(BadEscape, rest)
      case Parsed(message) => Got(message, rest)
  }

  /** Messages delivered by calling ReadLine until it fails, and the failure. */
  function ReadAll(input: string, closed: bool, limit: nat): (seq<Message>, Fault)
    decreases |input|
  {
    match ReadLine(input, closed, limit)
    case Fail(fault, _) => ([], fault)
    case Got(message, rest) =>
      var (more, fault) := ReadAll(rest, closed, limit);
      ([message] + more, fault)
  }

  // ---- WriteLine ----

  /** The length check WriteLine makes before it escapes. */
  predicate Accepts(m: Message) {
    |m.cmd| + |m.params| + 2 <= MAX_LINE_LEN
  }

  /** The line WriteLine writes, without its line feed. */
  function LineOf(m: Message): string {
    if m.params != "" then ToUpper(m.cmd) + " " + EscapeParameters(m.params) else ToUpper(m.cmd)
  }

  /** Lines as bytes. */
  function Bytes(lines: seq<string>): string {
    if lines == [] then "" else lines[0] + "\n" + Bytes(lines[1..])
  }

  lemma {:induction false} BytesAppend(a: seq<string>, b: seq<string>)
    ensures Bytes(a + b) == Bytes(a) + Bytes(b)
  {
    if a == [] {
      assert a + b == b;
    } else {
      BytesAppend(a[1..], b);
      assert (a + b)[1..] == a[1..] + b;
      Associative(a[0] + "\n", Bytes(a[1..]), Bytes(b));
    }
  }

  lemma OutputGrows(output: string, a: seq<string>, b: seq<string>)
    ensures output + Bytes(a) + Bytes(b) == output + Bytes(a + b)
  {
    BytesAppend(a, b);
    Associative(output, Bytes(a), Bytes(b));
  }

  lemma PrependLine(output: string, line: string, lines: seq<string>)
    ensures output + Bytes([line] + lines) == (output + line + "\n") + Bytes(lines)
  {
    assert ([line] + lines)[1..] == lines;
    Associative(output, line, "\n");
    Associative(output, line + "\n", Bytes(lines));
  }

  lemma WriteBytes(lines: seq<string>, line: string)
    ensures Bytes(lines) + line + "\n" == Bytes(lines + [line])
  {
    BytesAppend(lines, [line]);
    assert Bytes([line]) == line + "\n" by { assert [line][1..] == []; }
    Associative(Bytes(lines), line, "\n");
  }

  /** A line the scanner hands over unchanged: no line feed, no CR at its end, short enough. */
  predicate Fits(line: string, limit: nat) {
    '\n' !in line && DropCR(line) == line && |line| < limit
  }

  lemma ScanOneLine(line: string, tail: string, closed: bool, limit: nat)
    requires '\n' !in line && DropCR(line) == line
    ensures Scan(line + "\n" + tail, closed, limit)
         == if |line| < limit then Token(line, tail) else Overflow
  {
    var input := line + "\n" + tail;
    var n := LineEnd(input);
    assert input[|line|] == '\n';
    assert forall i :: 0 <= i < |line| ==> input[i] == line[i];
    assert input[..n] == line && input[n + 1..] == tail;
  }

  /** Reading past one complete line. */
  lemma ReadOneLine(line: string, tail: string, closed: bool, limit: nat)
    requires Fits(line, limit)
    ensures ReadLine(line + "\n" + tail, closed, limit)
         == match Parse(line)
            case Skipped => ReadLine(tail, closed, limit)
            case Malformed => Fail(BadEscape, tail)
            case Parsed(message) => Got(message, tail)
  {
    ScanOneLine(line, tail, closed, limit);
  }

  // ---- what the reader gets back from the writer ----

  /** A command the protocol can carry: printable ASCII without blanks. */
  predicate CleanCommand(cmd: string) {
    cmd != "" && forall c :: c in cmd ==> ' ' < c < 127 as char
  }

  /** Comments and status writes, which no reader sees. A status write without text is seen. */
  predicate Unseen(m: Message) {
    (m.cmd != "" && m.cmd[0] == '#') || (ToUpper(m.cmd) == "S" && m.params != "")
  }

  function Upper(m: Message): Message {
    Message(ToUpper(m.cmd), m.params)
  }

  /** Length on the wire, line feed included: two more bytes for every escapable one. */
  lemma LineLength(m: Message)
    ensures |LineOf(m)| + 1
         == |m.cmd| + 1 + if m.params == "" then 0 else 1 + |m.params| + 2 * Escapables(m.params)
  {
    EscapeLength(m.params);
  }

  lemma CleanUpper(cmd: string)
    requires CleanCommand(cmd)
    ensures forall c :: c in ToUpper(cmd) ==> ' ' < c
    ensures (ToUpper(cmd)[0] == '#') == (cmd[0] == '#')
  {
    var upper := ToUpper(cmd);
    forall i | 0 <= i < |upper| ensures ' ' < upper[i] {
      assert cmd[i] in cmd && upper[i] == UpperChar(cmd[i]);
    }
  }

  lemma CleanBareLine(cmd: string)
    requires cmd != "" && forall c :: c in cmd ==> ' ' < c
    ensures '\n' !in cmd && DropCR(cmd) == cmd
    ensures Parse(cmd) == if cmd[0] == '#' then Skipped else Parsed(Message(ToUpper(cmd), ""))
  {
    assert cmd[0] in cmd && !IsSpace(cmd[0]);
    assert forall i :: 0 <= i < |cmd| ==> cmd[i] in cmd;
    if |cmd| >= 2 { assert cmd[..2][1] == cmd[1]; }
    var n := FirstBlank(cmd);
    assert n == |cmd|;
  }

  lemma BlankSplits(cmd: string, rest: string)
    requires cmd != "" && (forall c :: c in cmd ==> ' ' < c)
    ensures var line := cmd + " " + rest;
      && FirstBlank(line) == |cmd| && line[..|cmd|] == cmd && line[|cmd| + 1..] == rest
  {
    var line := cmd + " " + rest;
    assert forall i :: 0 <= i < |cmd| ==> line[i] == cmd[i] && cmd[i] in cmd;
    assert line[|cmd|] == ' ';
  }

  lemma IgnoredParamLine(cmd: string, rest: string)
    requires cmd != "" && (forall c :: c in cmd ==> ' ' < c)
    ensures Ignored(cmd + " " + rest) == (cmd[0] == '#' || cmd == "S")
  {
    var line := cmd + " " + rest;
    assert cmd[0] in cmd && line[0] == cmd[0];
    assert line[0] in line && !IsSpace(line[0]);
    assert line[..2] == [line[0], line[1]];
    if |cmd| == 1 {
      assert cmd == [cmd[0]] && line[1] == ' ';
    } else {
      assert cmd[1] in cmd && line[1] == cmd[1];
    }
  }

  lemma CleanParamLine(cmd: string, params: string)
    requires cmd != "" && (forall c :: c in cmd ==> ' ' < c) && params != ""
    ensures var line := cmd + " " + EscapeParameters(params);
      && '\n' !in line && DropCR(line) == line
      && Parse(line) == if cmd[0] == '#' || cmd == "S" then Skipped
                        else Parsed(Message(ToUpper(cmd), params))
  {
    var escaped := EscapeParameters(params);
    var line := cmd + " " + escaped;
    EscapeAlphabet(params);
    UnescapeEscape(params);
    BlankSplits(cmd, escaped);
    IgnoredParamLine(cmd, escaped);
    assert escaped[|escaped| - 1] in escaped;
    assert line[|line| - 1] == escaped[|escaped| - 1];
  }

  lemma {:induction false} UpperTwice(text: string)
    ensures ToUpper(ToUpper(text)) == ToUpper(text)
  {
    if text == "" {
    } else {
      UpperTwice(text[1..]);
    }
  }

  /** A written line is read as the message it was written from. */
  lemma CleanLine(m: Message)
    requires CleanCommand(m.cmd)
    ensures '\n' !in LineOf(m) && DropCR(LineOf(m)) == LineOf(m)
    ensures Parse(LineOf(m)) == if Unseen(m) then Skipped else Parsed(Upper(m))
  {
    CleanUpper(m.cmd);
    UpperTwice(m.cmd);
    if m.params == "" {
      CleanBareLine(ToUpper(m.cmd));
    } else {
      CleanParamLine(ToUpper(m.cmd), m.params);
    }
  }

  /** The reader gets the written message back if and only if the written line, which
      is longer than what WriteLine checked, is within the limit. */
  lemma WriteReadIff(m: Message, tail: string, closed: bool, limit: nat)
    requires CleanCommand(m.cmd) && !Unseen(m)
    ensures ReadLine(LineOf(m) + "\n" + tail, closed, limit)
         == if |LineOf(m)| + 1 <= limit then Got(Upper(m), tail)
            else Fail(TooLong, LineOf(m) + "\n" + tail)
  {
    CleanLine(m);
    ScanOneLine(LineOf(m), tail, closed, limit);
  }

  /** WriteLine's own check is enough exactly for parameters that need no escaping: with
      one escapable byte there is an accepted message of every command that overflows. */
  lemma AcceptedFits(m: Message)
    requires Accepts(m) && Escapables(m.params) == 0
    ensures |LineOf(m)| + 1 <= MAX_LINE_LEN
  {
    LineLength(m);
  }

  lemma {:induction false} EscapablesOfPercents(n: nat)
    ensures Escapables(seq(n, _ => '%')) == n
  {
    if n == 0 {
    } else {
      EscapablesOfPercents(n - 1);
      assert seq(n, _ => '%')[1..] == seq(n - 1, _ => '%');
    }
  }

  /** A written line that is too long is refused whatever it is: a message, a comment or
      a status line. */
  lemma OverflowRefused(m: Message)
    requires CleanCommand(m.cmd) && |LineOf(m)| + 1 > MAX_LINE_LEN
    ensures ReadLine(LineOf(m) + "\n", true, MAX_LINE_LEN) == Fail(TooLong, LineOf(m) + "\n")
  {
    CleanLine(m);
    ScanOneLine(LineOf(m), "", true, MAX_LINE_LEN);
    assert LineOf(m) + "\n" + "" == LineOf(m) + "\n";
  }

  lemma FittingNotRefused(m: Message)
    requires CleanCommand(m.cmd) && |LineOf(m)| + 1 <= MAX_LINE_LEN
    ensures ReadLine(LineOf(m) + "\n", true, MAX_LINE_LEN)
         == if Unseen(m) then Fail(EndOfInput, "") else Got(Upper(m), "")
  {
    CleanLine(m);
    ReadOneLine(LineOf(m), "", true, MAX_LINE_LEN);
    assert LineOf(m) + "\n" + "" == LineOf(m) + "\n";
  }

  ghost predicate OverflowsWith(cmd: string, params: string) {
    var m := Message(cmd, params);
    Accepts(m) && ReadLine(LineOf(m) + "\n", true, MAX_LINE_LEN) == Fail(TooLong, LineOf(m) + "\n")
  }

  /** A command has parameters that WriteLine accepts and the reader refuses if and only if
      it leaves room for a blank and one byte of parameters within the limit. */
  lemma AcceptedOverflowsIff(cmd: string)
    requires CleanCommand(cmd)
    ensures (exists params :: OverflowsWith(cmd, params)) <==> |cmd| <= MAX_LINE_LEN - 3
  {
    if |cmd| <= MAX_LINE_LEN - 3 {
      var params := seq(MAX_LINE_LEN - 2 - |cmd|, _ => '%');
      EscapablesOfPercents(|params|);
      LineLength(Message(cmd, params));
      OverflowRefused(Message(cmd, params));
      assert OverflowsWith(cmd, params);
    } else {
      forall params ensures !OverflowsWith(cmd, params) {
        if Accepts(Message(cmd, params)) {
          LineLength(Message(cmd, params));
          FittingNotRefused(Message(cmd, params));
        }
      }
    }
  }

  function LinesOf(ms: seq<Message>): (lines: seq<string>)
    ensures |lines| == |ms|
    ensures forall i :: 0 <= i < |ms| ==> lines[i] == LineOf(ms[i])
  {
    seq(|ms|, i requires 0 <= i < |ms| => LineOf(ms[i]))
  }

  lemma FirstWrite(ms: seq<Message>)
    requires ms != []
    ensures Bytes(LinesOf(ms)) == LineOf(ms[0]) + "\n" + Bytes(LinesOf(ms[1..]))
  {
    assert LinesOf(ms)[1..] == LinesOf(ms[1..]);
    hide LineOf;
  }

  /** The writes a reader sees, in order, upper-cased. */
  function Visible(ms: seq<Message>): seq<Message> {
    if ms == [] then []
    else (if Unseen(ms[0]) then [] else [Upper(ms[0])]) + Visible(ms[1..])
  }

  /** Any sequence of writes whose written lines fit is read back as exactly the
      messages other than comments and status lines, in order, and then the input ends. */
  lemma {:induction false} WritesReadBack(ms: seq<Message>, closed: bool, limit: nat)
    requires limit > 0
    requires forall m :: m in ms ==> CleanCommand(m.cmd) && |LineOf(m)| + 1 <= limit
    ensures ReadAll(Bytes(LinesOf(ms)), closed, limit)
         == (Visible(ms), if closed then EndOfInput else Blocked)
  {
    if ms == [] {
    } else {
      var m, tail := ms[0], Bytes(LinesOf(ms[1..]));
      WritesReadBack(ms[1..], closed, limit);
      CleanLine(m);
      FirstWrite(ms);
      ReadOneLine(LineOf(m), tail, closed, limit);
      if Unseen(m) {
        assert Visible(ms) == Visible(ms[1..]);
      }
    }
  }

  // ---- other lines ----

  /** A CR before the line feed makes no difference. */
  lemma CarriageReturnDropped(line: string, tail: string, closed: bool, limit: nat)
    requires '\n' !in line && DropCR(line) == line && |line| + 1 < limit
    ensures ReadLine(line + "\r\n" + tail, closed, limit) == ReadLine(line + "\n" + tail, closed, limit)
  {
    var input, text := line + "\r\n" + tail, line + "\r";
    assert forall i :: 0 <= i < |line| ==> input[i] == line[i] && line[i] in line;
    assert input[|line|] == '\r' && input[|line| + 1] == '\n';
    assert LineEnd(input) == |line| + 1;
    assert input[..|line| + 1] == text && text[..|line|] == line && DropCR(text) == line;
    assert input[|line| + 2..] == tail;
    ScanOneLine(line, tail, closed, limit);
    hide Parse, DropCR;
  }

  /** The last line of a stream needs no line feed. */
  lemma LastLineRead(line: string, limit: nat)
    requires line != "" && Fits(line, limit)
    ensures ReadLine(line, true, limit) == ReadLine(line + "\n", true, limit)
  {
    assert line + "\n" + "" == line + "\n";
    ScanOneLine(line, "", true, limit);
    hide Parse;
  }

  /** An empty line, and one of white space, is passed over. */
  lemma BlankPassedOver(line: string, tail: string, closed: bool, limit: nat)
    requires '\n' !in line && DropCR(line) == line && |line| < limit
    requires forall c :: c in line ==> c == ' ' || 9 <= c as int <= 13
    ensures ReadLine(line + "\n" + tail, closed, limit) == ReadLine(tail, closed, limit)
  {
    assert Blank(line);
    assert Parse(line) == Skipped;
    hide *;
    ReadOneLine(line, tail, closed, limit);
  }

  /** In an upper-cased text every small letter is replaced by its capital, which comes 32
      places earlier, and nothing else changes. */
  lemma UpperIs(text: string, i: nat)
    requires i < |text|
    ensures ToUpper(text)[i] as int
         == if 97 <= text[i] as int <= 122 then text[i] as int - 32 else text[i] as int
  {
  }

  /** How the caller spells the command makes no difference to the line. */
  lemma CaseMakesNoDifference(a: Message, b: Message)
    requires ToUpper(a.cmd) == ToUpper(b.cmd) && a.params == b.params
    ensures LineOf(a) == LineOf(b) && LineOf(a) == LineOf(Upper(a))
  {
    UpperTwice(a.cmd);
  }

  // ---- reading early is reading the same ----

  /** What a call has delivered does not depend on what is sent afterwards: a message got
      from an open stream is got from every longer one, closed or not. */
  lemma {:induction false} ReadIsStable(input: string, later: string, closed: bool, limit: nat)
    requires ReadLine(input, false, limit).Got?
    ensures ReadLine(input + later, closed, limit)
         == Got(ReadLine(input, false, limit).message, ReadLine(input, false, limit).rest + later)
    decreases |input|
  {
    var n := LineEnd(input);
    assert n < |input| && n < limit;
    assert LineEnd(input + later) == n by {
      assert (input + later)[n] == '\n';
      assert forall i :: 0 <= i < n ==> (input + later)[i] == input[i];
    }
    assert (input + later)[..n] == input[..n];
    assert (input + later)[n + 1..] == input[n + 1..] + later;
    if Parse(DropCR(input[..n])).Skipped? {
      ReadIsStable(input[n + 1..], later, closed, limit);
    }
  }
}
