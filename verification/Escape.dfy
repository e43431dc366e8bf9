/** Values shared by the other modules. */
module Basics {
  datatype Option<+T> = None | Some(value: T)

  /** Concatenation of a list of byte strings. */
  function Concat(parts: seq<string>): string {
    if parts == [] then "" else parts[0] + Concat(parts[1..])
  }

  lemma Associative<T>(a: seq<T>, b: seq<T>, c: seq<T>)
    ensures (a + b) + c == a + (b + c)
  {
  }

  lemma MoveFirst<T>(a: seq<T>, b: seq<T>)
    requires b != []
    ensures (a + [b[0]]) + b[1..] == a + b
  {
  }

  lemma {:induction false} ConcatAppend(a: seq<string>, b: seq<string>)
    ensures Concat(a + b) == Concat(a) + Concat(b)
  {
    if a == [] {
      assert a + b == b;
    } else {
      ConcatAppend(a[1..], b);
      assert (a + b)[1..] == a[1..] + b;
      Associative(a[0], Concat(a[1..]), Concat(b));
    }
  }
}

/**
 Percent-encoding of Assuan parameters (assuan/common/escape.go), which is the
 encoding of section 2.1 of RFC 3986 restricted on the writing side to four bytes.

 A Go string is a byte string; one `char` stands for one byte here. Nothing below
 depends on a char being under 256.
 */
module Escape {
  import opened Basics

  /** The bytes the writer replaces. */
  predicate Escapable(c: char) {
    c == '\r' || c == '\n' || c == '%' || c == '\\'
  }

  function EscapeChar(c: char): string {
    if c == '\r' then "%0D"
    else if c == '\n' then "%0A"
    else if c == '%' then "%25"
    else if c == '\\' then "%5C"
    else [c]
  }

  function EscapeParameters(raw: string): string {
    if raw == "" then "" else EscapeChar(raw[0]) + EscapeParameters(raw[1..])
  }

  /** Number of escapable bytes. */
  function Escapables(raw: string): nat {
    if raw == "" then 0 else (if Escapable(raw[0]) then 1 else 0) + Escapables(raw[1..])
  }

  predicate IsHex(c: char) {
    '0' <= c <= '9' || 'a' <= c <= 'f' || 'A' <= c <= 'F'
  }

  function HexValue(c: char): nat
    requires IsHex(c)
  {
    if '0' <= c <= '9' then (c - '0') as int
    else if 'a' <= c <= 'f' then (c - 'a') as int + 10
    else (c - 'A') as int + 10
  }

  /** url.PathUnescape: fails on a `%` that two hexadecimal digits do not follow. */
  function UnescapeParameters(encoded: string): Option<string> {
    if encoded == "" then Some("")
    else if encoded[0] != '%' then Prepend([encoded[0]], UnescapeParameters(encoded[1..]))
    else if |encoded| < 3 || !IsHex(encoded[1]) || !IsHex(encoded[2]) then None
    else Prepend([HexByte(encoded[1], encoded[2])], UnescapeParameters(encoded[3..]))
  }

  function HexByte(high: char, low: char): char
    requires IsHex(high) && IsHex(low)
  {
    (16 * HexValue(high) + HexValue(low)) as char
  }

  function Prepend(head: string, tail: Option<string>): Option<string> {
    if tail.None? then None else Some(head + tail.value)
  }

  // ---- laws of escaping ----

  lemma {:induction false} EscapeConcat(a: string, b: string)
    ensures EscapeParameters(a + b) == EscapeParameters(a) + EscapeParameters(b)
  {
    hide EscapeChar;
    if a == "" {
      assert a + b == b && EscapeParameters(a) == "";
    } else {
      EscapeConcat(a[1..], b);
      assert (a + b)[0] == a[0] && (a + b)[1..] == a[1..] + b;
      Associative(EscapeChar(a[0]), EscapeParameters(a[1..]), EscapeParameters(b));
    }
  }

  lemma {:induction false} EscapeLength(raw: string)
    ensures |EscapeParameters(raw)| == |raw| + 2 * Escapables(raw)
  {
    if raw == "" {
    } else {
      EscapeLength(raw[1..]);
    }
  }

  lemma {:induction false} NothingToEscape(raw: string)
    requires forall c :: c in raw ==> !Escapable(c)
    ensures EscapeParameters(raw) == raw
  {
    if raw == "" {
    } else {
      assert raw[0] in raw;
      NothingToEscape(raw[1..]);
      assert raw == [raw[0]] + raw[1..];
    }
  }

  /** What is left of the four bytes after escaping: only `%`, and that exactly once
      for every escapable byte of the input, two hexadecimal digits after it. */
  lemma {:induction false} EscapeAlphabet(raw: string)
    ensures forall c :: c in EscapeParameters(raw) ==> c != '\r' && c != '\n' && c != '\\'
    ensures (EscapeParameters(raw) == "") == (raw == "")
  {
    if raw == "" {
    } else {
      EscapeAlphabet(raw[1..]);
    }
  }

  lemma PrependTwice(head: string, mid: string, tail: Option<string>)
    ensures Prepend(head, Prepend(mid, tail)) == Prepend(head + mid, tail)
  {
    if tail.Some? {
      assert head + (mid + tail.value) == (head + mid) + tail.value;
    }
  }

  lemma {:induction false} UnescapeAppend(a: string, b: string)
    requires UnescapeParameters(a).Some?
    ensures UnescapeParameters(a + b) == Prepend(UnescapeParameters(a).value, UnescapeParameters(b))
  {
    var ab := a + b;
    if a == "" {
      assert ab == b;
      if UnescapeParameters(b).Some? {
        assert "" + UnescapeParameters(b).value == UnescapeParameters(b).value;
      }
    } else if a[0] != '%' {
      assert ab[0] == a[0];
      assert ab[1..] == a[1..] + b;
      UnescapeAppend(a[1..], b);
      PrependTwice([a[0]], UnescapeParameters(a[1..]).value, UnescapeParameters(b));
    } else {
      assert ab[0] == a[0] && ab[1] == a[1] && ab[2] == a[2];
      assert ab[3..] == a[3..] + b;
      UnescapeAppend(a[3..], b);
      PrependTwice([HexByte(a[1], a[2])], UnescapeParameters(a[3..]).value, UnescapeParameters(b));
    }
  }

  lemma UnescapeEscapedChar(c: char)
    ensures UnescapeParameters(EscapeChar(c)) == Some([c])
  {
    assert EscapeChar(c)[|EscapeChar(c)|..] == "";
    assert [c] + "" == [c];
  }

  /** Unescaping inverts escaping on every byte string. */
  lemma {:induction false} UnescapeEscape(raw: string)
    ensures UnescapeParameters(EscapeParameters(raw)) == Some(raw)
  {
    if raw == "" {
    } else {
      UnescapeEscapedChar(raw[0]);
      UnescapeEscape(raw[1..]);
      UnescapeAppend(EscapeChar(raw[0]), EscapeParameters(raw[1..]));
      assert raw == [raw[0]] + raw[1..];
    }
  }

  /** Text without `%` is its own unescaping; text with one never comes back whole:
      it fails, or comes back strictly shorter. */
  lemma {:induction false} UnescapeIsIdentityIff(text: string)
    ensures '%' !in text <==> UnescapeParameters(text) == Some(text)
    ensures UnescapeParameters(text).Some? ==> |UnescapeParameters(text).value| <= |text|
    ensures '%' in text && UnescapeParameters(text).Some? ==> |UnescapeParameters(text).value| < |text|
  {
    if text == "" {
    } else {
      if text[0] != '%' {
        UnescapeIsIdentityIff(text[1..]);
        assert text == [text[0]] + text[1..];
      } else if |text| >= 3 {
        UnescapeIsIdentityIff(text[3..]);
      }
    }
  }

  // ---- byte by byte ----

  /** The four replacements; every other byte stays as it is. */
  lemma EscapesFour(c: char)
    ensures EscapeParameters([c])
         == if c == 13 as char then "%0D" else if c == 10 as char then "%0A"
            else if c == 37 as char then "%25" else if c == 92 as char then "%5C" else [c]
  {
    assert [c][1..] == "" && EscapeParameters("") == "";
    assert EscapeParameters([c]) == EscapeChar(c) + "";
  }

  const UPPER_HEX := "0123456789ABCDEF"
  const LOWER_HEX := "0123456789abcdef"

  lemma HexDigitIs(d: nat)
    requires d < 16
    ensures IsHex(UPPER_HEX[d]) && HexValue(UPPER_HEX[d]) == d
    ensures IsHex(LOWER_HEX[d]) && HexValue(LOWER_HEX[d]) == d
  {
    if d < 10 {
      assert UPPER_HEX[d] == (48 + d) as char && LOWER_HEX[d] == (48 + d) as char;
    } else {
      assert UPPER_HEX[d] == (55 + d) as char && LOWER_HEX[d] == (87 + d) as char;
    }
  }

  /** A triplet stands for the byte its two digits spell, in capitals or not. */
  lemma TripletIs(b: nat, high: char, low: char, rest: string)
    requires b < 256
    requires high == UPPER_HEX[b / 16] || high == LOWER_HEX[b / 16]
    requires low == UPPER_HEX[b % 16] || low == LOWER_HEX[b % 16]
    ensures UnescapeParameters(['%', high, low] + rest) == Prepend([b as char], UnescapeParameters(rest))
  {
    HexDigitIs(b / 16);
    HexDigitIs(b % 16);
    assert (['%', high, low] + rest)[3..] == rest;
  }

  /** Two hexadecimal digits follow position i. */
  predicate DigitsFollow(text: string, i: nat) {
    i + 2 < |text| && IsHex(text[i + 1]) && IsHex(text[i + 2])
  }

  /** Unescaping fails if and only if somewhere a percent sign is not followed by two
      hexadecimal digits. */
  lemma {:induction false} UnescapeFailsIff(text: string)
    ensures UnescapeParameters(text).None? <==> exists i: nat :: i < |text| && text[i] == '%' && !DigitsFollow(text, i)
    decreases |text|
  {
    if text == "" {
    } else {
      var step := if text[0] != '%' then 1 else 3;
      if text[0] == '%' && !DigitsFollow(text, 0) {
      } else {
        UnescapeFailsIff(text[step..]);
        LaterPercents(text, step);
      }
    }
  }

  lemma LaterPercents(text: string, step: nat)
    requires step <= |text| && step == (if text != "" && text[0] != '%' then 1 else 3)
    requires text[0] == '%' ==> DigitsFollow(text, 0)
    ensures (exists i: nat :: i < |text| && text[i] == '%' && !DigitsFollow(text, i))
       <==> exists i: nat :: i < |text[step..]| && text[step..][i] == '%' && !DigitsFollow(text[step..], i)
  {
    var rest := text[step..];
    forall i: nat | i < |rest|
      ensures rest[i] == text[i + step] && DigitsFollow(rest, i) == DigitsFollow(text, i + step)
    {
    }
    if i: nat :| i < |text| && text[i] == '%' && !DigitsFollow(text, i) {
      assert i >= step;
      assert rest[i - step] == '%' && !DigitsFollow(rest, i - step);
    }
    if i: nat :| i < |rest| && rest[i] == '%' && !DigitsFollow(rest, i) {
      assert text[i + step] == '%' && !DigitsFollow(text, i + step);
    }
  }

  // ---- cutting escaped text ----

  /** Position `p` of `encoded` lies strictly inside a `%XX` triplet. */
  predicate CutsTriplet(encoded: string, p: nat) {
    || (1 <= p <= |encoded| && encoded[p - 1] == '%')
    || (2 <= p <= |encoded| && encoded[p - 2] == '%')
  }

  /** Cuts past the first byte's encoding are cuts of the rest. */
  lemma CutsOfTail(head: string, tail: string, p: nat)
    requires p >= |head| && !CutsTriplet(head + tail, p)
    ensures !CutsTriplet(tail, p - |head|)
  {
    var q := p - |head|;
    assert 1 <= q <= |tail| ==> (head + tail)[p - 1] == tail[q - 1];
    assert 2 <= q <= |tail| ==> (head + tail)[p - 2] == tail[q - 2];
  }

  lemma SliceTail(head: string, tail: string, p: nat)
    requires |head| <= p <= |head| + |tail|
    ensures (head + tail)[..p] == head + tail[..p - |head|] && (head + tail)[p..] == tail[p - |head|..]
  {
  }

  /** The encoding of the first `k + 1` bytes and of the others. */
  lemma EscapeSlices(raw: string, k: nat)
    requires raw != "" && k <= |raw| - 1
    ensures EscapeParameters(raw[..k + 1]) == EscapeChar(raw[0]) + EscapeParameters(raw[1..][..k])
    ensures EscapeParameters(raw[k + 1..]) == EscapeParameters(raw[1..][k..])
  {
    assert raw[..k + 1][1..] == raw[1..][..k];
    assert raw[1..][k..] == raw[k + 1..];
  }

  /** A position outside all triplets splits the input as well as its encoding. */
  lemma {:induction false} SplitAtBoundary(raw: string, p: nat) returns (k: nat)
    requires p <= |EscapeParameters(raw)| && !CutsTriplet(EscapeParameters(raw), p)
    ensures k <= |raw|
    ensures EscapeParameters(raw[..k]) == EscapeParameters(raw)[..p]
    ensures EscapeParameters(raw[k..]) == EscapeParameters(raw)[p..]
    ensures p > 0 ==> k > 0
  {
    if p == 0 {
      k := 0;
      assert raw[0..] == raw;
    } else {
      var head, tail := EscapeChar(raw[0]), EscapeParameters(raw[1..]);
      assert EscapeParameters(raw) == head + tail;
      assert (head + tail)[0] == head[0];
      assert p >= |head|;
      CutsOfTail(head, tail, p);
      var k' := SplitAtBoundary(raw[1..], p - |head|);
      k := k' + 1;
      EscapeSlices(raw, k');
      SliceTail(head, tail, p);
    }
  }

  /** A prefix that ends inside a triplet cannot be unescaped. */
  lemma {:induction false} CutPrefixFails(raw: string, p: nat)
    requires CutsTriplet(EscapeParameters(raw), p)
    ensures UnescapeParameters(EscapeParameters(raw)[..p]) == None
  {
    var encoded := EscapeParameters(raw);
    var head, tail := EscapeChar(raw[0]), EscapeParameters(raw[1..]);
    assert encoded == head + tail;
    assert encoded[0] == head[0];
    if p < |head| {
    } else {
      assert CutsTriplet(tail, p - |head|);
      CutPrefixFails(raw[1..], p - |head|);
      assert encoded[..p] == head + tail[..p - |head|];
      UnescapeEscapedChar(raw[0]);
      UnescapeAppend(head, tail[..p - |head|]);
    }
  }
}
