/** The HTTP-chunked subscriber, and the chunked transfer coding of section 7.1 of RFC 9112 that its
    reader applies. */
module Chunked {

  const CRLF := "\r\n"
  const TERMINATOR := "0\r\n\r\n"
  /** Room for the chunk size line. */
  const SIZE_LINE := 15

  // ---- Hexadecimal ----------------------------------------------------------------------------------

  function Digit(d: nat): char
    requires d < 16
  {
    if d < 10 then ('0' as int + d) as char else ('a' as int + d - 10) as char
  }

  predicate IsHex(c: char) {
    '0' <= c <= '9' || 'a' <= c <= 'f' || 'A' <= c <= 'F'
  }

  function DigitValue(c: char): (d: int)
    requires IsHex(c)
    ensures 0 <= d < 16
  {
    if '0' <= c <= '9' then c as int - '0' as int
    else if 'a' <= c <= 'f' then 10 + c as int - 'a' as int
    else 10 + c as int - 'A' as int
  }

  ghost predicate AllHex(s: string) {
    forall i :: 0 <= i < |s| ==> IsHex(s[i])
  }

  function Hex(n: nat): (s: string)
    ensures s != ""
  {
    if n < 16 then [Digit(n)] else Hex(n / 16) + [Digit(n % 16)]
  }

  function Value(s: string): (n: nat)
    requires forall i :: 0 <= i < |s| ==> IsHex(s[i])
  {
    if s == "" then 0 else Value(s[..|s| - 1]) * 16 + DigitValue(s[|s| - 1])
  }

  lemma DigitIs(d: nat)
    requires d < 16
    ensures IsHex(Digit(d)) && DigitValue(Digit(d)) == d
  {
  }

  lemma {:induction false} HexValue(n: nat)
    ensures AllHex(Hex(n)) && Value(Hex(n)) == n
  {
    DigitIs(n % 16);
    if n >= 16 {
      HexValue(n / 16);
      ValueSnoc(Hex(n / 16), Digit(n % 16));
    } else {
      ValueSnoc("", Digit(n));
      assert "" + [Digit(n)] == [Digit(n)];
    }
  }

  lemma ValueSnoc(s: string, c: char)
    requires AllHex(s) && IsHex(c)
    ensures AllHex(s + [c]) && Value(s + [c]) == Value(s) * 16 + DigitValue(c)
  {
    assert (s + [c])[..|s|] == s;
  }

  function Power16(k: nat): nat {
    if k == 0 then 1 else 16 * Power16(k - 1)
  }

  lemma {:induction false} HexLength(n: nat, k: nat)
    requires k > 0
    ensures |Hex(n)| <= k <==> n < Power16(k)
  {
    if n >= 16 {
      if k > 1 {
        HexLength(n / 16, k - 1);
        Quotient(n, Power16(k - 1));
      }
    } else {
      PowerPositive(k - 1);
    }
  }

  lemma Quotient(n: nat, p: nat)
    ensures n / 16 < p <==> n < 16 * p
  {
  }

  lemma {:induction false} PowerPositive(k: nat)
    ensures Power16(k) >= 1
  {
    if k > 0 { PowerPositive(k - 1); }
  }

  // ---- The writer -----------------------------------------------------------------------------------

  /** The size line as printed into its buffer: what does not fit is cut off. */
  function SizeLine(n: nat): string {
    var line := Hex(n) + "\r\n";
    if |line| <= SIZE_LINE then line else line[..SIZE_LINE]
  }

  /** `chunked_respond_message`: three links, or nothing at all for an empty message. */
  method RespondMessage(msg: string) returns (chain: seq<string>)
    ensures chain == if msg == "" then [] else [SizeLine(|msg|), msg, "\r\n"]
  {
    if |msg| == 0 { return []; }
    var line := Hex(|msg|) + "\r\n";
    chain := [if |line| <= SIZE_LINE then line else line[..SIZE_LINE]];
    chain := chain + [msg];
    chain := chain + ["\r\n"];
  }

  function Written(msg: string): string {
    if msg == "" then "" else SizeLine(|msg|) + msg + "\r\n"
  }

  function WrittenAll(msgs: seq<string>): string {
    if msgs == [] then "" else Written(msgs[0]) + WrittenAll(msgs[1..])
  }

  method Output(sent: string, msg: string) returns (out: string)
    ensures out == sent + Written(msg)
  {
    var chain := RespondMessage(msg);
    if chain == [] {
      out := sent;
    } else {
      out := sent + (chain[0] + chain[1] + chain[2]);
    }
  }

  lemma Regroup(a: string, b: string, c: string)
    ensures a + (b + c) == a + b + c
  {
  }

  /** All messages, then the end of the response. */
  method Respond(msgs: seq<string>) returns (out: string)
    ensures out == WrittenAll(msgs) + TERMINATOR
  {
    out := "";
    for i := 0 to |msgs|
      invariant out + WrittenAll(msgs[i..]) == WrittenAll(msgs)
    {
      assert msgs[i..][1..] == msgs[i + 1..];
      Regroup(out, Written(msgs[i]), WrittenAll(msgs[i + 1..]));
      out := Output(out, msgs[i]);
    }
    assert out + "" == out;
    out := out + TERMINATOR;
  }

  /** Less than 16^13 bytes. */
  predicate Fits(n: nat) {
    n < 0x10_0000_0000_0000
  }

  lemma FitsLine()
    ensures Power16(SIZE_LINE - 2) == 0x10_0000_0000_0000
  {
    assert Power16(4) == 0x1_0000;
    assert Power16(8) == 0x1_0000_0000;
    assert Power16(12) == 0x1_0000_0000_0000;
    assert Power16(13) == 16 * Power16(12);
  }

  /** The size line is a whole line exactly for messages that fit. */
  lemma SizeLineWhole(n: nat)
    ensures Fits(n) ==> SizeLine(n) == Hex(n) + CRLF
    ensures !Fits(n) ==> |SizeLine(n)| == SIZE_LINE && SizeLine(n)[SIZE_LINE - 1] != '\n'
  {
    HexLength(n, SIZE_LINE - 2);
    FitsLine();
    assert AllHex(Hex(n)) by { HexValue(n); }
    var line := Hex(n) + CRLF;
    assert line[|Hex(n)|] == '\r';
  }

  // ---- The reader -----------------------------------------------------------------------------------

  datatype Decoded = Decoded(chunks: seq<string>, rest: string) | Malformed

  function Digits(s: string): (k: nat)
    ensures k <= |s| && (forall i :: 0 <= i < k ==> IsHex(s[i])) && (k < |s| ==> !IsHex(s[k]))
  {
    if s == "" || !IsHex(s[0]) then 0 else 1 + Digits(s[1..])
  }

  /** Where the first CRLF is. */
  function LineEnd(s: string): (k: nat)
    ensures k <= |s| && (k < |s| ==> k + 2 <= |s| && s[k..k + 2] == CRLF)
  {
    if |s| < 2 then |s| else if s[..2] == CRLF then 0 else 1 + LineEnd(s[1..])
  }

  /** The trailer section, skipped. */
  function Trailer(s: string): Decoded
    decreases |s|
  {
    var e := LineEnd(s);
    if e == |s| then Malformed else if e == 0 then Decoded([], s[2..]) else Trailer(s[e + 2..])
  }

  function WithChunk(msg: string, d: Decoded): Decoded {
    if d.Malformed? then Malformed else Decoded([msg] + d.chunks, d.rest)
  }

  /** A size line; extensions are skipped. */
  function Decode(s: string): Decoded
    decreases |s|, 0
  {
    var k := Digits(s);
    var ext := s[k..];
    var e := LineEnd(ext);
    if k == 0 || e == |ext| || (e > 0 && ext[0] != ';') then Malformed else DecodeBody(Value(s[..k]), ext[e + 2..])
  }

  /** What follows a size line. */
  function DecodeBody(n: nat, body: string): Decoded
    decreases |body|, 1
  {
    if n == 0 then Trailer(body)
    else if |body| < n + 2 || body[n..n + 2] != CRLF then Malformed
    else WithChunk(body[..n], Decode(body[n + 2..]))
  }

  lemma {:induction false} DigitsAre(h: string, rest: string)
    requires AllHex(h) && (rest == "" || !IsHex(rest[0]))
    ensures Digits(h + rest) == |h|
  {
    if h == "" {
      assert h + rest == rest;
    } else {
      assert (h + rest)[1..] == h[1..] + rest;
      DigitsAre(h[1..], rest);
    }
  }

  lemma Slices(h: string, nl: string, msg: string, rest: string, body: string, tail: string)
    requires |nl| == 2 && body == msg + nl + rest && tail == nl + body
    ensures (h + tail)[..|h|] == h && (h + tail)[|h|..] == tail
    ensures tail[..2] == nl && tail[2..] == body
    ensures body[|msg|..|msg| + 2] == nl && body[..|msg|] == msg && body[|msg| + 2..] == rest
  {
  }

  lemma StartsWithCrlf(tail: string)
    requires |tail| >= 2 && tail[..2] == CRLF
    ensures LineEnd(tail) == 0 && !IsHex(tail[0])
  {
    assert tail[..2][0] == tail[0];
  }

  lemma DecodeSized(h: string, msg: string, rest: string, body: string, tail: string)
    requires AllHex(h) && h != "" && Value(h) == |msg| > 0 && body == msg + CRLF + rest && tail == CRLF + body
    ensures Decode(h + tail) == WithChunk(msg, Decode(rest))
  {
    Slices(h, CRLF, msg, rest, body, tail);
    StartsWithCrlf(tail);
    DigitsAre(h, tail);
  }

  /** One chunk, read. */
  lemma DecodeChunk(msg: string, rest: string)
    requires msg != ""
    ensures Decode(Hex(|msg|) + (CRLF + (msg + CRLF + rest))) == WithChunk(msg, Decode(rest))
  {
    HexValue(|msg|);
    DecodeSized(Hex(|msg|), msg, rest, msg + CRLF + rest, CRLF + (msg + CRLF + rest));
  }

  lemma DecodeEnd(rest: string)
    ensures Decode(TERMINATOR + rest) == Decoded([], rest)
  {
    var s := TERMINATOR + rest;
    DigitsAre("0", "\r\n\r\n" + rest);
    assert s == "0" + ("\r\n\r\n" + rest);
    assert s[..1] == "0" && s[1..] == "\r\n\r\n" + rest;
    assert Value("0") == 0 by { assert "0"[..0] == ""; }
    assert ("\r\n\r\n" + rest)[..2] == CRLF && ("\r\n\r\n" + rest)[2..] == CRLF + rest;
    assert (CRLF + rest)[..2] == CRLF && (CRLF + rest)[2..] == rest;
  }

  function NonEmpty(msgs: seq<string>): seq<string> {
    if msgs == [] then [] else (if msgs[0] == "" then [] else [msgs[0]]) + NonEmpty(msgs[1..])
  }

  lemma Flatten(h: string, nl: string, msg: string, w: string, end: string, rest: string)
    ensures ((h + nl) + msg + nl + w) + end + rest == h + (nl + (msg + nl + (w + end + rest)))
  {
  }

  lemma {:induction false} ReadAll(msgs: seq<string>, rest: string)
    requires forall i :: 0 <= i < |msgs| ==> Fits(|msgs[i]|)
    ensures Decode(WrittenAll(msgs) + TERMINATOR + rest) == Decoded(NonEmpty(msgs), rest)
    decreases |msgs|
  {
    if msgs == [] {
      assert "" + TERMINATOR + rest == TERMINATOR + rest;
      DecodeEnd(rest);
    } else {
      ReadAll(msgs[1..], rest);
      assert WrittenAll(msgs) == Written(msgs[0]) + WrittenAll(msgs[1..]);
      OneMore(msgs[0], WrittenAll(msgs[1..]), rest);
    }
  }

  lemma OneMore(msg: string, w: string, rest: string)
    requires Fits(|msg|)
    ensures Decode((Written(msg) + w) + TERMINATOR + rest)
         == if msg == "" then Decode(w + TERMINATOR + rest) else WithChunk(msg, Decode(w + TERMINATOR + rest))
  {
    if msg == "" {
      assert "" + w == w;
    } else {
      SizeLineWhole(|msg|);
      Flatten(Hex(|msg|), CRLF, msg, w, TERMINATOR, rest);
      DecodeChunk(msg, w + TERMINATOR + rest);
    }
  }

  // ---- Why a longer message cannot come through -----------------------------------------------------

  /** How many bytes a reader needs at least to report these chunks and the end. */
  function Need(chunks: seq<string>): nat {
    if chunks == [] then |TERMINATOR| else |Hex(|chunks[0]|)| + |chunks[0]| + 4 + Need(chunks[1..])
  }

  lemma {:induction false} ValueBound(d: string)
    requires forall i :: 0 <= i < |d| ==> IsHex(d[i])
    ensures Value(d) < Power16(|d|)
  {
    if d != "" { ValueBound(d[..|d| - 1]); }
  }

  lemma {:induction false} TrailerNeeds(s: string)
    ensures Trailer(s).Decoded? ==> Trailer(s).chunks == [] && |s| >= 2 + |Trailer(s).rest|
    decreases |s|
  {
    var e := LineEnd(s);
    if 0 < e < |s| { TrailerNeeds(s[e + 2..]); }
  }

  lemma {:induction false} DecodeNeeds(s: string)
    ensures Decode(s).Decoded? ==> |s| >= Need(Decode(s).chunks) + |Decode(s).rest|
    decreases |s|, 0
  {
    var k := Digits(s);
    var ext := s[k..];
    var e := LineEnd(ext);
    if k > 0 && e < |ext| && (e == 0 || ext[0] == ';') {
      ValueBound(s[..k]);
      HexLength(Value(s[..k]), k);
      BodyNeeds(Value(s[..k]), ext[e + 2..]);
    }
  }

  lemma {:induction false} BodyNeeds(n: nat, body: string)
    ensures var d := DecodeBody(n, body);
            d.Decoded? ==> |body| + |Hex(n)| + 2 >= Need(d.chunks) + |d.rest|
    decreases |body|, 1
  {
    if n == 0 {
      TrailerNeeds(body);
    } else if |body| >= n + 2 && body[n..n + 2] == CRLF {
      DecodeNeeds(body[n + 2..]);
      WithChunkNeeds(body[..n], Decode(body[n + 2..]));
    }
  }

  lemma WithChunkNeeds(msg: string, d: Decoded)
    ensures d.Decoded? ==> Need(WithChunk(msg, d).chunks) == |Hex(|msg|)| + |msg| + 4 + Need(d.chunks)
  {
    if d.Decoded? { assert ([msg] + d.chunks)[1..] == d.chunks; }
  }

  /** Whole size lines are just as long as needed, cut ones are shorter. */
  lemma {:induction false} WrittenLength(msgs: seq<string>)
    ensures |WrittenAll(msgs)| + |TERMINATOR| <= Need(NonEmpty(msgs))
    ensures (exists i :: 0 <= i < |msgs| && !Fits(|msgs[i]|)) ==>
              |WrittenAll(msgs)| + |TERMINATOR| < Need(NonEmpty(msgs))
    decreases |msgs|
  {
    if msgs != [] {
      WrittenLength(msgs[1..]);
      SizeLineLength(|msgs[0]|);
      assert forall i :: 1 <= i < |msgs| ==> msgs[i] == msgs[1..][i - 1];
      if msgs[0] == "" {
        assert NonEmpty(msgs) == NonEmpty(msgs[1..]);
      } else {
        assert NonEmpty(msgs)[1..] == NonEmpty(msgs[1..]);
      }
    }
  }

  lemma SizeLineLength(n: nat)
    ensures |SizeLine(n)| <= |Hex(n)| + 2 && (!Fits(n) ==> |SizeLine(n)| < |Hex(n)| + 2)
  {
    HexLength(n, SIZE_LINE - 2);
    FitsLine();
  }

  /** The non-empty messages come out one chunk each and in order, the terminator ends the stream and
      nothing does before it: exactly when every message has less than 16^13 bytes. */
  lemma RoundTripIff(msgs: seq<string>, rest: string)
    ensures Decode(WrittenAll(msgs) + TERMINATOR + rest) == Decoded(NonEmpty(msgs), rest)
       <==> forall i :: 0 <= i < |msgs| ==> Fits(|msgs[i]|)
  {
    if forall i :: 0 <= i < |msgs| ==> Fits(|msgs[i]|) {
      ReadAll(msgs, rest);
    } else {
      WrittenLength(msgs);
      DecodeNeeds(WrittenAll(msgs) + TERMINATOR + rest);
    }
  }
}
