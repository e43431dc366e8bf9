/**
 Assuan protocol errors (assuan/common/error.go): the packed code, the ERR line the
 server writes and the client's parser of it.
 */
module Errors {
  import opened Basics
  import opened Escape
  import opened Wire

  datatype Error = Error(src: bv8, code: bv16, srcName: string, message: string)

  const SRC_PINENTRY: bv8 := 5
  const SRC_ASSUAN: bv8 := 15
  const NOT_FOUND: bv16 := 27
  const NOT_IMPLEMENTED: bv16 := 69
  const CANCELED: bv16 := 99
  const UNKNOWN_OPTION: bv16 := 174
  const ASS_GENERAL: bv16 := 257
  const ASS_INV_VALUE: bv16 := 261
  const ASS_UNKNOWN_CMD: bv16 := 275
  const ASS_PARAMETER: bv16 := 280

  // ---- the packed code; a Go int has 64 bits ----

  function MakeErrCode(source: bv8, code: bv16): bv64 {
    ((source as bv64 & 127) << 24) | (code as bv64 & 65535)
  }

  /** The conversions to uint8 and uint16 truncate. */
  function SplitErrCode(code: bv64): (bv8, bv16) {
    (((code >> 24) & 255) as bv8, (code & 65535) as bv16)
  }

  /** Splitting a packed code gives the pair back, its source modulo 128. */
  lemma CodeRoundTrip(source: bv8, code: bv16)
    ensures SplitErrCode(MakeErrCode(source, code)) == (source % 128, code)
    ensures MakeErrCode(source, code) <= 2130771967
    ensures MakeErrCode(source, code) as int <= 2130771967
  {
    assert MakeErrCode(source, code) <= 2130771967;
  }

  /** Any code is cut to eight bits above the lower 24 and to sixteen bits. */
  lemma SplitIs(code: bv64)
    ensures SplitErrCode(code) == (((code / 16777216) % 256) as bv8, (code % 65536) as bv16)
  {
    assert code >> 24 == code / 16777216;
    assert code & 65535 == code % 65536;
    assert (code / 16777216) & 255 == (code / 16777216) % 256;
  }

  // ---- decimal numbers ----

  predicate IsDigit(c: char) { '0' <= c <= '9' }

  function Digits(n: nat): string {
    if n < 10 then [(n + 48) as char] else Digits(n / 10) + [(n % 10 + 48) as char]
  }

  function ParseDigits(text: string): nat
    requires forall c :: c in text ==> IsDigit(c)
  {
    if text == "" then 0
    else
      var last := text[|text| - 1];
      assert last in text && IsDigit(last);
      10 * ParseDigits(text[..|text| - 1]) + (last as int - 48)
  }

  function Power10(k: nat): nat { if k == 0 then 1 else 10 * Power10(k - 1) }

  lemma {:induction false} DigitsRoundTrip(n: nat)
    ensures Digits(n) != "" && forall c :: c in Digits(n) ==> IsDigit(c)
    ensures ParseDigits(Digits(n)) == n
  {
    if n < 10 {
      assert Digits(n)[..0] == "";
    } else {
      DigitsRoundTrip(n / 10);
      assert Digits(n)[..|Digits(n)| - 1] == Digits(n / 10);
    }
  }

  lemma {:induction false} DigitsLength(n: nat, k: nat)
    requires k >= 1 && n < Power10(k)
    ensures |Digits(n)| <= k
  {
    if n < 10 {
    } else {
      assert Power10(1) == 10 * Power10(0);
      DigitsLength(n / 10, k - 1);
    }
  }

  // ---- the ERR line ----

  function ErrorParams(e: Error): string {
    Digits(MakeErrCode(e.src, e.code) as int) + " " + e.message + " <" + e.srcName + ">"
  }

  function ErrorMessage(e: Error): Message { Message("ERR", ErrorParams(e)) }

  /** The class `[\w ]` of the parser's pattern. */
  predicate IsWordChar(c: char) {
    IsDigit(c) || 'a' <= c <= 'z' || 'A' <= c <= 'Z' || c == '_' || c == ' '
  }

  predicate Wordy(text: string) { forall c :: c in text ==> IsWordChar(c) }

  /** Length of the longest prefix of digits. */
  function DigitSpan(text: string): (n: nat)
    ensures n <= |text| && forall i :: 0 <= i < n ==> IsDigit(text[i])
    ensures n < |text| ==> !IsDigit(text[n])
  {
    if text == "" || !IsDigit(text[0]) then 0 else 1 + DigitSpan(text[1..])
  }

  /** Length of the longest prefix of word characters and blanks. */
  function WordSpan(text: string): (n: nat)
    ensures n <= |text| && forall i :: 0 <= i < n ==> IsWordChar(text[i])
    ensures n < |text| ==> !IsWordChar(text[n])
  {
    if text == "" || !IsWordChar(text[0]) then 0 else 1 + WordSpan(text[1..])
  }

  function TrimLeft(text: string): string {
    if text != "" && IsSpace(text[0]) then TrimLeft(text[1..]) else text
  }

  function TrimRight(text: string): string {
    if text != "" && IsSpace(text[|text| - 1]) then TrimRight(text[..|text| - 1]) else text
  }

  function TrimSpace(text: string): string { TrimRight(TrimLeft(text)) }

  function LowerChar(c: char): char {
    if 'A' <= c <= 'Z' then (c as int + 32) as char else c
  }

  function ToLower(text: string): string {
    if text == "" then "" else [LowerChar(text[0])] + ToLower(text[1..])
  }

  function MapSource(src: string): string {
    if ToLower(src) == "user defined source 1" then "Assuan" else src
  }

  /** The part of the pattern after the code: a description and an optional `<source>`. */
  function MatchTail(tail: string): Option<(string, string)> {
    var w := WordSpan(tail);
    if w == 0 then None
    else if w == |tail| then Some((tail, ""))
    else if tail[w] != '<' then None
    else
      var u := WordSpan(tail[w + 1..]);
      if u > 0 && tail[w + 1 + u..] == ">" then Some((tail[..w], tail[w + 1..w + 1 + u])) else None
  }

  /** The number after strconv.Atoi, which fails when it is out of range. */
  function SplitNumber(code: nat): Option<(bv8, bv16)> {
    if code >= 0x8000_0000_0000_0000 then None else Some(SplitErrCode(code as bv64))
  }

  /** None is the error "malformed ERR arguments". */
  function DecodeErrCmd(params: string): Option<Error> {
    var d := DigitSpan(params);
    if d < 1 || d > 10 || d == |params| || params[d] != ' ' then None
    else
      assert forall c :: c in params[..d] ==> IsDigit(c);
      MakeError(SplitNumber(ParseDigits(params[..d])), MatchTail(params[d + 1..]))
  }

  function MakeError(code: Option<(bv8, bv16)>, tail: Option<(string, string)>): Option<Error> {
    if code.None? || tail.None? then None
    else Some(Error(code.value.0, code.value.1, MapSource(tail.value.1), TrimSpace(tail.value.0)))
  }

  lemma {:induction false} TrimLeftBlankAfter(text: string)
    ensures TrimLeft(text + " ") == if TrimLeft(text) == "" then "" else TrimLeft(text) + " "
  {
    if text == "" {
      assert text + " " == " ";
      assert " "[1..] == "";
    } else if IsSpace(text[0]) {
      assert (text + " ")[1..] == text[1..] + " ";
      TrimLeftBlankAfter(text[1..]);
    }
  }

  lemma TrimBlankAfter(text: string)
    ensures TrimSpace(text + " ") == TrimSpace(text)
  {
    TrimLeftBlankAfter(text);
    var left := TrimLeft(text);
    if left != "" { assert (left + " ")[..|left|] == left; }
  }

  // ---- what trimming and the source name come to ----

  /** White space as the Go library has it, in ASCII. */
  ghost predicate AllSpace(text: string) {
    forall c :: c in text ==> c == ' ' || 9 <= c as int <= 13
  }

  ghost predicate NoOuterSpace(text: string) {
    text != "" ==> !AllSpace([text[0]]) && !AllSpace([text[|text| - 1]])
  }

  lemma SpaceIs(c: char)
    ensures AllSpace([c]) <==> IsSpace(c)
  {
    assert c in [c];
  }

  lemma {:induction false} TrimLeftIs(text: string) returns (front: string)
    ensures text == front + TrimLeft(text) && AllSpace(front)
    ensures TrimLeft(text) != "" ==> !AllSpace([TrimLeft(text)[0]])
  {
    if text == "" {
      front := "";
    } else {
      SpaceIs(text[0]);
      if IsSpace(text[0]) {
        var more := TrimLeftIs(text[1..]);
        front := [text[0]] + more;
        assert [text[0]][0] in [text[0]];
        assert text == [text[0]] + text[1..];
      } else {
        front := "";
        assert text == "" + text;
      }
    }
  }

  lemma {:induction false} TrimRightIs(text: string) returns (back: string)
    ensures text == TrimRight(text) + back && AllSpace(back)
    ensures TrimRight(text) != "" ==>
      !AllSpace([TrimRight(text)[|TrimRight(text)| - 1]]) && TrimRight(text)[0] == text[0]
  {
    if text == "" {
      back := "";
    } else {
      var last := text[|text| - 1];
      SpaceIs(last);
      if IsSpace(last) {
        var more := TrimRightIs(text[..|text| - 1]);
        back := more + [last];
        assert [last][0] in [last];
        assert text == text[..|text| - 1] + [last];
      } else {
        back := "";
        assert text == text + "";
      }
    }
  }

  /** Trimming takes white space off both ends, all of it and nothing else. */
  lemma TrimSpaceIs(text: string) returns (front: string, back: string)
    ensures text == front + TrimSpace(text) + back
    ensures AllSpace(front) && AllSpace(back) && NoOuterSpace(TrimSpace(text))
  {
    front := TrimLeftIs(text);
    back := TrimRightIs(TrimLeft(text));
    Associative(front, TrimSpace(text), back);
  }

  /** So a text without outer white space is kept as it is. */
  lemma TrimKeeps(text: string)
    requires NoOuterSpace(text)
    ensures TrimSpace(text) == text
  {
    if text != "" {
      SpaceIs(text[0]);
      SpaceIs(text[|text| - 1]);
    }
  }

  const PROTOCOL_SOURCE := "user defined source 1"
  const CAPITAL_SOURCE := "USER DEFINED SOURCE 1"

  /** The name that stands for the protocol itself, in any mixture of cases. */
  ghost predicate NamesProtocol(name: string) {
    |name| == 21 && forall i :: 0 <= i < 21 ==> name[i] == PROTOCOL_SOURCE[i] || name[i] == CAPITAL_SOURCE[i]
  }

  lemma {:induction false} ToLowerIs(text: string)
    ensures |ToLower(text)| == |text| && forall i :: 0 <= i < |text| ==> ToLower(text)[i] == LowerChar(text[i])
  {
    if text == "" {
    } else {
      ToLowerIs(text[1..]);
    }
  }

  lemma LetterCases(c: char, i: nat)
    requires i < 21
    ensures LowerChar(c) == PROTOCOL_SOURCE[i] <==> c == PROTOCOL_SOURCE[i] || c == CAPITAL_SOURCE[i]
  {
  }

  lemma SourceIs(name: string)
    ensures MapSource(name) == if NamesProtocol(name) then "Assuan" else name
  {
    ToLowerIs(name);
    forall i | 0 <= i < |name| && i < 21
      ensures LowerChar(name[i]) == PROTOCOL_SOURCE[i] <==>
        name[i] == PROTOCOL_SOURCE[i] || name[i] == CAPITAL_SOURCE[i]
    {
      LetterCases(name[i], i);
    }
    hide ToLower, LowerChar;
    assert |PROTOCOL_SOURCE| == 21;
    if NamesProtocol(name) {
      assert ToLower(name) == PROTOCOL_SOURCE;
    } else if ToLower(name) == PROTOCOL_SOURCE {
      assert |name| == 21;
      forall i | 0 <= i < 21 ensures name[i] == PROTOCOL_SOURCE[i] || name[i] == CAPITAL_SOURCE[i] {
        assert ToLower(name)[i] == PROTOCOL_SOURCE[i];
      }
      assert false;
    }
  }

  /** The pattern's class by byte values: digits, letters, underscore, blank. */
  lemma WordCharsAre(text: string)
    ensures Wordy(text) <==> forall c :: c in text ==>
      48 <= c as int <= 57 || 65 <= c as int <= 90 || 97 <= c as int <= 122 || c as int == 95 || c as int == 32
  {
  }

  lemma WordSpanIs(text: string, n: nat)
    requires n <= |text| && (forall i :: 0 <= i < n ==> IsWordChar(text[i]))
    requires n < |text| ==> !IsWordChar(text[n])
    ensures WordSpan(text) == n
  {
  }

  /** Where the description and the source are cut out again. */
  lemma TailMatchesIff(message: string, name: string)
    ensures MatchTail(message + " <" + name + ">")
         == if Wordy(message) && Wordy(name) && name != "" then Some((message + " ", name)) else None
  {
    var tail := message + " <" + name + ">";
    var w := WordSpan(tail);
    assert forall i :: 0 <= i < |message| ==> tail[i] == message[i];
    assert forall c :: c in message ==> exists i :: 0 <= i < |message| && message[i] == c;
    assert tail[|message| + 1] == '<';
    if Wordy(message) {
      assert forall i :: 0 <= i < |message| ==> message[i] in message;
      WordSpanIs(tail, |message| + 1);
      var rest := tail[w + 1..];
      assert rest == name + ">";
      assert tail[..w] == message + " ";
      SourceMatchesIff(tail, w, name);
    } else {
      var i :| 0 <= i < |message| && !IsWordChar(message[i]);
      assert w < |message|;
      if tail[w] == '<' {
        var u := WordSpan(tail[w + 1..]);
        assert tail[w + 1..][|message| - w] == '<';
        assert u <= |message| - w;
        assert |tail[w + 1 + u..]| > 1;
      }
    }
  }

  lemma SourceMatchesIff(tail: string, w: nat, name: string)
    requires w < |tail| && tail[w + 1..] == name + ">"
    ensures var u := WordSpan(tail[w + 1..]);
      && (Wordy(name) ==> u == |name| && tail[w + 1 + u..] == ">" && tail[w + 1..w + 1 + u] == name)
      && (!Wordy(name) ==> tail[w + 1 + u..] != ">")
  {
    var rest := tail[w + 1..];
    assert forall i :: 0 <= i < |name| ==> rest[i] == name[i];
    var u := WordSpan(rest);
    assert tail[w + 1 + u..] == rest[u..];
    if Wordy(name) {
      assert forall i :: 0 <= i < |name| ==> name[i] in name;
      WordSpanIs(rest, |name|);
      assert tail[w + 1..w + 1 + u] == rest[..u];
      assert rest[..u] == name;
    } else {
      var c :| c in name && !IsWordChar(c);
      var i :| 0 <= i < |name| && name[i] == c;
      assert u <= i;
      assert |rest[u..]| > 1;
    }
  }

  /** The client decodes the server's ERR line if and only if message and source name
      are words and blanks and the name is not empty; then it gets the code and the
      source modulo 128 back, the mapped name and the message without outer blanks. */
  lemma ErrorRoundTripIff(e: Error)
    ensures DecodeErrCmd(ErrorParams(e))
         == if Wordy(e.message) && Wordy(e.srcName) && e.srcName != ""
            then Some(Error(e.src % 128, e.code, MapSource(e.srcName), TrimSpace(e.message)))
            else None
  {
    var tail := e.message + " <" + e.srcName + ">";
    hide DecodeErrCmd, TrimSpace, MapSource, Wordy, Digits, SplitNumber;
    SplitPacked(e.src, e.code);
    DecodeFormatted(MakeErrCode(e.src, e.code) as int, tail);
    assert ErrorParams(e) == Digits(MakeErrCode(e.src, e.code) as int) + " " + tail;
    TailMatchesIff(e.message, e.srcName);
    TrimBlankAfter(e.message);
  }

  lemma NumberMatches(n: nat)
    requires n <= 2130771967
    ensures 1 <= |Digits(n)| <= 10 && (forall c :: c in Digits(n) ==> IsDigit(c))
    ensures ParseDigits(Digits(n)) == n
  {
    DigitsRoundTrip(n);
    assert Power10(10) == 10000000000;
    DigitsLength(n, 10);
  }

  lemma SplitPacked(source: bv8, code: bv16)
    ensures MakeErrCode(source, code) as int <= 2130771967
    ensures SplitNumber(MakeErrCode(source, code) as int) == Some((source % 128, code))
  {
    CodeRoundTrip(source, code);
  }

  lemma DecodeFormatted(n: nat, tail: string)
    requires n <= 2130771967
    ensures DecodeErrCmd(Digits(n) + " " + tail) == MakeError(SplitNumber(n), MatchTail(tail))
  {
    NumberMatches(n);
    DecodeFront(Digits(n), tail);
    hide *;
  }

  lemma DecodeFront(number: string, tail: string)
    requires 1 <= |number| <= 10 && forall c :: c in number ==> IsDigit(c)
    ensures DecodeErrCmd(number + " " + tail) == MakeError(SplitNumber(ParseDigits(number)), MatchTail(tail))
  {
    FrontMatches(number, tail);
  }

  lemma FrontMatches(number: string, tail: string)
    requires forall c :: c in number ==> IsDigit(c)
    ensures var params := number + " " + tail;
      && DigitSpan(params) == |number| && params[|number|] == ' '
      && params[..|number|] == number && params[|number| + 1..] == tail
  {
    var params := number + " " + tail;
    assert forall i :: 0 <= i < |number| ==> params[i] == number[i] && number[i] in number;
    var d := DigitSpan(params);
    assert params[|number|] == ' ';
    assert d == |number|;
  }

  /** Main result on errors, from end to end. What WriteError writes for an error is read
      and decoded to the same code, the source modulo 128, the mapped name and the message
      without outer blanks if and only if the line fits and message and name match the
      pattern; a line that does not fit is refused, and one that does not match is
      delivered and reported as malformed. */
  lemma ErrorOverThePipe(e: Error, tail: string, closed: bool)
    ensures var m := ErrorMessage(e);
      var r := ReadLine(LineOf(m) + "\n" + tail, closed, MAX_LINE_LEN);
      if |LineOf(m)| + 1 > MAX_LINE_LEN then r.Fail? && r.fault == TooLong
      else
        && r == Got(m, tail)
        && DecodeErrCmd(r.message.params)
           == if Wordy(e.message) && Wordy(e.srcName) && e.srcName != ""
              then Some(Error(e.src % 128, e.code, MapSource(e.srcName), TrimSpace(e.message)))
              else None
  {
    assert ToUpper("ERR") == "ERR";
    WriteReadIff(ErrorMessage(e), tail, closed, MAX_LINE_LEN);
    LineLength(ErrorMessage(e));
    ErrorRoundTripIff(e);
  }

  /** In the protocol's own terms: a message of words without outer white space comes back
      as it was sent, and so does the source name, but for the one that means the protocol. */
  lemma ErrorArrives(e: Error, tail: string, closed: bool)
    requires Wordy(e.message) && NoOuterSpace(e.message) && Wordy(e.srcName) && e.srcName != ""
    requires |LineOf(ErrorMessage(e))| + 1 <= MAX_LINE_LEN
    ensures ReadLine(LineOf(ErrorMessage(e)) + "\n" + tail, closed, MAX_LINE_LEN) == Got(ErrorMessage(e), tail)
    ensures DecodeErrCmd(ErrorMessage(e).params)
         == Some(Error(e.src % 128, e.code, if NamesProtocol(e.srcName) then "Assuan" else e.srcName, e.message))
  {
    ErrorOverThePipe(e, tail, closed);
    TrimKeeps(e.message);
    SourceIs(e.srcName);
    hide *;
  }

  /** An ERR line without a source: its number and its message, and an empty name. */
  lemma PlainErrorDecodes(src: bv8, code: bv16, message: string)
    requires '<' !in message
    ensures DecodeErrCmd(Digits(MakeErrCode(src, code) as int) + " " + message)
         == if Wordy(message) && message != "" then Some(Error(src % 128, code, "", TrimSpace(message))) else None
  {
    SplitPacked(src, code);
    DecodeFormatted(MakeErrCode(src, code) as int, message);
    assert forall i :: 0 <= i < |message| ==> message[i] in message;
    assert MapSource("") == "" by { SourceIs(""); }
    var w := WordSpan(message);
    if Wordy(message) {
      WordSpanIs(message, |message|);
      assert message[..|message|] == message;
    } else {
      assert w < |message|;
    }
    hide DecodeErrCmd, TrimSpace, ToLower;
  }

  /** The pattern as a whole: one to ten digits, a blank, a description, and either no
      source or one in angle brackets. */
  ghost predicate Matches(params: string, number: string, text: string, name: string) {
    && 1 <= |number| <= 10 && (forall c :: c in number ==> IsDigit(c))
    && text != "" && Wordy(text) && Wordy(name)
    && params == number + " " + if name == "" then text else text + "<" + name + ">"
  }

  lemma {:induction false} ParseBound(number: string)
    requires forall c :: c in number ==> IsDigit(c)
    ensures ParseDigits(number) < Power10(|number|)
  {
    if number != "" {
      var last := number[|number| - 1];
      assert last in number && IsDigit(last);
      ParseBound(number[..|number| - 1]);
    }
  }

  lemma TailMatches(text: string, name: string)
    requires text != "" && Wordy(text) && Wordy(name)
    ensures MatchTail(if name == "" then text else text + "<" + name + ">") == Some((text, name))
  {
    var tail := if name == "" then text else text + "<" + name + ">";
    hide WordSpan;
    assert forall i :: 0 <= i < |text| ==> tail[i] == text[i] && text[i] in text;
    WordSpanIs(tail, |text|);
    assert tail[..|text|] == text;
    if name != "" {
      assert tail[|text| + 1..] == name + ">";
      SourceMatchesIff(tail, |text|, name);
    }
  }

  /** A line that matches is decoded to its parts. */
  lemma MatchDecodes(params: string, number: string, text: string, name: string)
    requires Matches(params, number, text, name)
    ensures var e := DecodeErrCmd(params);
      e.Some? && e.value.srcName == MapSource(name) && e.value.message == TrimSpace(text)
  {
    var tail := if name == "" then text else text + "<" + name + ">";
    hide TrimSpace, MapSource, MatchTail, ParseDigits, Power10, DecodeErrCmd, Wordy, IsDigit;
    DecodeFront(number, tail);
    TailMatches(text, name);
    ParseBound(number);
    PowersGrow(|number|);
  }

  lemma PowersGrow(n: nat)
    requires n <= 10
    ensures Power10(n) <= 10_000_000_000
    decreases 10 - n
  {
    if n == 10 {
      assert Power10(10) == 10_000_000_000;
    } else {
      PowersGrow(n + 1);
    }
  }

  /** The decoder accepts exactly the lines of the pattern. */
  lemma DecodesIff(params: string)
    ensures DecodeErrCmd(params).Some? <==> exists number, text, name :: Matches(params, number, text, name)
  {
    if DecodeErrCmd(params).Some? {
      var d := DigitSpan(params);
      var number, tail := params[..d], params[d + 1..];
      assert params == number + " " + tail;
      var text, name := TailParts(tail);
      assert Matches(params, number, text, name);
    }
    forall number, text, name | Matches(params, number, text, name) ensures DecodeErrCmd(params).Some? {
      MatchDecodes(params, number, text, name);
    }
    hide DecodeErrCmd;
  }

  lemma TailParts(tail: string) returns (text: string, name: string)
    requires MatchTail(tail).Some?
    ensures text != "" && Wordy(text) && Wordy(name)
    ensures tail == if name == "" then text else text + "<" + name + ">"
  {
    text, name := MatchTail(tail).value.0, MatchTail(tail).value.1;
    var w := WordSpan(tail);
    assert text == tail[..w];
    if w < |tail| {
      var u := WordSpan(tail[w + 1..]);
      assert tail[w + 1..] == name + ">" by {
        assert tail[w + 1..] == tail[w + 1..w + 1 + u] + tail[w + 1 + u..];
      }
      assert tail == tail[..w] + "<" + tail[w + 1..];
    }
  }

  lemma EscapablesConcat(a: string, b: string)
    ensures Escapables(a + b) == Escapables(a) + Escapables(b)
  {
    EscapeConcat(a, b);
    EscapeLength(a);
    EscapeLength(b);
    EscapeLength(a + b);
  }

  /** There are errors WriteError accepts and no reader does: an escapable byte counts once
      for the one and three times for the other. */
  lemma AcceptedErrorOverflows(src: bv8, code: bv16)
    ensures var m := ErrorMessage(Error(src, code, "gpg", seq(900, _ => '%')));
      Accepts(m) && ReadLine(LineOf(m) + "\n", true, MAX_LINE_LEN).Fail?
  {
    var message := seq(900, _ => '%');
    var e := Error(src, code, "gpg", message);
    var number := Digits(MakeErrCode(src, code) as int);
    SplitPacked(src, code);
    NumberMatches(MakeErrCode(src, code) as int);
    EscapablesOfPercents(900);
    EscapablesConcat(number + " ", message);
    EscapablesConcat((number + " ") + message, " <gpg>");
    assert ErrorParams(e) == (number + " ") + message + " <gpg>";
    LineLength(ErrorMessage(e));
    hide *;
    ErrorOverThePipe(e, "", true);
    assert LineOf(ErrorMessage(e)) + "\n" + "" == LineOf(ErrorMessage(e)) + "\n";
  }

  /** The pinentry server's "unknown option" error, whose message has a colon, is one
      the client cannot decode. */
  lemma UnknownOptionIsMalformed(key: string)
    ensures DecodeErrCmd(ErrorParams(Error(SRC_PINENTRY, UNKNOWN_OPTION, "pinentry", "unknown option: " + key))) == None
  {
    var message := "unknown option: " + key;
    assert message[14] == ':';
    assert !Wordy(message) by { assert message[14] in message; }
    ErrorRoundTripIff(Error(SRC_PINENTRY, UNKNOWN_OPTION, "pinentry", message));
  }
}
