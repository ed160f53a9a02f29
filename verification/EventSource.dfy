/** The EventSource subscriber: how a message becomes a stretch of event stream, and that a reader gets
    the message back. */
module EventSource {
  import opened Basics
  import opened Buffers
  import opened EventStream

  datatype Msg = Msg(id: string, event: Option<string>, data: string)

  const HELLO := ": hi\n\n"

  // ---- What is written ------------------------------------------------------------------------------

  /** The data, line by line; a line keeps its newline, and after the last newline comes one more line. */
  function DataLines(data: string): string
    decreases |data|
  {
    var k := Newline(data);
    if k == |data| then "data: " + data else "data: " + data[..k + 1] + DataLines(data[k + 1..])
  }

  function Newline(s: string): (k: nat)
    ensures k <= |s| && Without(s[..k], LF) && (k < |s| ==> s[k] == LF)
  {
    if s == "" || s[0] == LF then 0
    else
      assert s[..1 + Newline(s[1..])] == [s[0]] + s[1..][..Newline(s[1..])];
      1 + Newline(s[1..])
  }

  /** The event type of the location, if there is one, overrides the message's. */
  function Kind(location: string, m: Msg): Option<string> {
    if location != "" then Some(location) else m.event
  }

  function EventLine(kind: Option<string>): string {
    if kind.Some? then "event: " + kind.value + "\n" else ""
  }

  function Encoded(location: string, m: Msg): string {
    EventLine(Kind(location, m)) + ("id: " + m.id + "\n") + (DataLines(m.data) + "\n\n")
  }

  function EncodedAll(location: string, ms: seq<Msg>): string {
    if ms == [] then "" else Encoded(location, ms[0]) + EncodedAll(location, ms[1..])
  }

  /** `ngx_strlchr`: the first `c` in s[from..last], if any. */
  method StrLChr(s: string, from: nat, last: nat, c: char) returns (at: int)
    requires from <= last <= |s|
    ensures at == -1 ==> c !in s[from..last]
    ensures at != -1 ==> from <= at < last && s[at] == c && c !in s[from..at]
  {
    at := from;
    while at < last
      invariant from <= at <= last && c !in s[from..at]
    {
      if s[at] == c { return; }
      assert s[from..at + 1] == s[from..at] + [s[at]];
      at := at + 1;
    }
    at := -1;
  }

  /** `create_dataline_bufchain`: a prefix, and the line unless it is empty. */
  method AddDataLine(chain: Chain, line: string) returns (chain': Chain)
    ensures chain' != [] && Flat(chain') == Flat(chain) + "data: " + line
  {
    chain' := chain + ["data: "];
    FlatSnoc(chain, "data: ");
    if |line| > 0 {
      FlatSnoc(chain', line);
      chain' := chain' + [line];
    }
  }

  /** `prepend_es_response_line`. */
  method PrependLine(lbl: string, chain: Chain, text: string) returns (chain': Chain)
    ensures Flat(chain') == lbl + text + "\n" + Flat(chain)
  {
    chain' := [lbl, text, "\n"] + chain;
    FlatConcat([lbl, text, "\n"], chain);
    assert Flat([lbl, text, "\n"]) == lbl + text + "\n" by {
      FlatSnoc([], lbl);
      FlatSnoc([lbl], text);
      FlatSnoc([lbl, text], "\n");
      assert [] + [lbl] == [lbl] && [lbl] + [text] == [lbl, text];
      assert [lbl, text] + ["\n"] == [lbl, text, "\n"];
    }
  }

  lemma {:induction false} NewlineIs(data: string, k: nat)
    requires k <= |data| && Without(data[..k], LF) && (k < |data| ==> data[k] == LF)
    ensures Newline(data) == k
  {
    if k > 0 {
      assert data[..k][0] == data[0] && data[1..][..k - 1] == data[..k][1..];
      NewlineIs(data[1..], k - 1);
    }
  }

  lemma OneLine(data: string, cur: nat, end: nat, sofar: string)
    requires cur <= |data| && cur <= end <= |data| && Without(data[cur..end], LF) && (end < |data| ==> data[end] == LF)
    ensures end == |data| ==> DataLines(data[cur..]) == "data: " + data[cur..]
    ensures end < |data| ==>
              sofar + DataLines(data[cur..]) == (sofar + "data: " + data[cur..end + 1]) + DataLines(data[end + 1..])
  {
    var d, k := data[cur..], end - cur;
    assert d[..k] == data[cur..end];
    NewlineIs(d, k);
    if end < |data| {
      assert d[..k + 1] == data[cur..end + 1] && d[k + 1..] == data[end + 1..];
      Prepend(sofar, "data: ", d[..k + 1], DataLines(d[k + 1..]));
    }
  }

  lemma Prepend(a: string, b: string, c: string, e: string)
    ensures a + (b + c + e) == (a + b + c) + e
  {
  }

  /** How far the loop has come. */
  ghost predicate Upto(data: string, chain: Chain, cur: nat) {
    if cur <= |data| then Flat(chain) + DataLines(data[cur..]) == DataLines(data)
    else chain != [] && Flat(chain) == DataLines(data)
  }

  /** The loop over the lines of an in-memory message. */
  method DataChain(data: string) returns (chain: Chain)
    ensures chain != [] && Flat(chain) == DataLines(data)
  {
    chain := [];
    var cur, last := 0, |data|;
    assert data[0..] == data;
    while cur <= last
      invariant 0 <= cur <= last + 1 && Upto(data, chain, cur)
      decreases last + 1 - cur
    {
      chain, cur := NextDataLine(data, chain, cur);
    }
  }

  method NextDataLine(data: string, chain0: Chain, cur0: nat) returns (chain: Chain, cur: nat)
    requires cur0 <= |data| && Upto(data, chain0, cur0)
    ensures cur0 < cur <= |data| + 1 && Upto(data, chain, cur)
  {
    var last := |data|;
    var at := StrLChr(data, cur0, last, LF);
    cur := if at == -1 then last + 1 else at + 1;
    var end := if at == -1 then last else at + 1;
    chain := AddDataLine(chain0, data[cur0..end]);
    if at == -1 { LastLine(data, chain0, chain, cur0); } else { OneMore(data, chain0, chain, cur0, at); }
  }

  lemma OneMore(data: string, chain0: Chain, chain: Chain, cur: nat, at: nat)
    requires cur <= at < |data| && Without(data[cur..at], LF) && data[at] == LF && Upto(data, chain0, cur)
    requires Flat(chain) == Flat(chain0) + "data: " + data[cur..at + 1]
    ensures Upto(data, chain, at + 1)
  {
    OneLine(data, cur, at, Flat(chain0));
  }

  lemma LastLine(data: string, chain0: Chain, chain: Chain, cur: nat)
    requires cur <= |data| && Without(data[cur..|data|], LF) && Upto(data, chain0, cur)
    requires chain != [] && Flat(chain) == Flat(chain0) + "data: " + data[cur..|data|]
    ensures Upto(data, chain, |data| + 1)
  {
    OneLine(data, cur, |data|, Flat(chain0));
    assert data[cur..|data|] == data[cur..];
    assert Flat(chain0) + "data: " + data[cur..] == Flat(chain0) + ("data: " + data[cur..]);
  }

  lemma Three(a: string, b: string, c: string)
    ensures a + b + c == a + (b + c)
  {
  }

  method IdAndData(m: Msg) returns (chain: Chain)
    ensures Flat(chain) == ("id: " + m.id + "\n") + (DataLines(m.data) + "\n\n")
  {
    chain := DataChain(m.data);
    FlatSnoc(chain, "\n\n");
    chain := chain + ["\n\n"];
    chain := PrependLine("id: ", chain, m.id);
  }

  /** `es_respond_message` for a message in memory. */
  method RespondMessage(location: string, m: Msg) returns (chain: Chain)
    ensures Flat(chain) == Encoded(location, m)
  {
    chain := IdAndData(m);
    ghost var id, data := "id: " + m.id + "\n", DataLines(m.data) + "\n\n";
    Three(EventLine(Kind(location, m)), id, data);
    if location != "" {
      chain := PrependLine("event: ", chain, location);
    } else if m.event.Some? {
      chain := PrependLine("event: ", chain, m.event.value);
    }
  }

  /** The stream a subscriber sees: the greeting, then one message after the other. */
  method Stream(location: string, ms: seq<Msg>) returns (s: string)
    ensures s == HELLO + EncodedAll(location, ms)
  {
    s := HELLO;
    for i := 0 to |ms|
      invariant s + EncodedAll(location, ms[i..]) == HELLO + EncodedAll(location, ms)
    {
      var chain := RespondMessage(location, ms[i]);
      assert ms[i..][1..] == ms[i + 1..];
      s := s + Flat(chain);
    }
  }

  // ---- What is read ---------------------------------------------------------------------------------

  /** What the reader should be told about a message: its event is the location's if that has one, else its
      own if it has one, else a plain message. */
  function Told(location: string, m: Msg): Event {
    if location != "" then Event(location, m.id, m.data)
    else if m.event.Some? && m.event.value != "" then Event(m.event.value, m.id, m.data)
    else Event("message", m.id, m.data)
  }

  function ToldAll(location: string, ms: seq<Msg>): (es: seq<Event>)
    ensures |es| == |ms| && forall i :: 0 <= i < |ms| ==> es[i] == Told(location, ms[i])
  {
    seq(|ms|, i requires 0 <= i < |ms| => Told(location, ms[i]))
  }

  lemma ReadField(name: string, value: string, rest: string, st: State)
    requires Without(name, ':') && name != "" && IsLine(name) && IsLine(value)
    ensures Decode(name + ": " + value + "\n" + rest, st) == Decode(rest, Field(name, value, st))
  {
    FieldLine(name, value, st);
    assert IsLine(name + ": " + value);
    DecodeLine(name + ": " + value, rest, st);
  }

  lemma {:induction false} ReadData(data: string, rest: string, st: State)
    requires Without(data, CR)
    ensures Decode(DataLines(data) + [LF] + rest, st) == Decode(rest, st.(data := st.data + data + [LF]))
    decreases |data|
  {
    var k := Newline(data);
    var line := data[..k];
    assert forall c :: c in line ==> c in data;
    if k == |data| {
      assert line == data;
      ReadDataLine(line, rest, st);
    } else {
      var more := data[k + 1..];
      assert forall c :: c in more ==> c in data;
      assert data[..k + 1] == line + [LF] && data == line + [LF] + more;
      Regroup("data: ", line, DataLines(more), rest);
      ReadDataLine(line, DataLines(more) + [LF] + rest, st);
      ReadData(more, rest, st.(data := st.data + line + [LF]));
      Regroup(st.data, line, more, "");
    }
  }

  lemma ReadDataLine(line: string, rest: string, st: State)
    requires IsLine(line)
    ensures Decode("data: " + line + "\n" + rest, st) == Decode(rest, st.(data := st.data + line + [LF]))
  {
    assert "data: " == "data" + ": ";
    ReadField("data", line, rest, st);
  }

  lemma Regroup(p: string, line: string, more: string, rest: string)
    ensures (p + (line + [LF]) + more) + [LF] + rest == p + line + "\n" + (more + [LF] + rest)
    ensures (p + line + [LF]) + more + [LF] == p + (line + [LF] + more) + [LF]
  {
  }

  lemma ReadBlank(rest: string, st: State)
    ensures Decode([LF] + rest, st) == Dispatch(st).out + Decode(rest, Dispatch(st).st)
  {
    DecodeLine("", rest, st);
    assert "" + [LF] + rest == [LF] + rest;
  }

  lemma ReadEvent(kind: Option<string>, rest: string, lastId: string)
    requires kind.Some? ==> IsLine(kind.value)
    ensures Decode(EventLine(kind) + rest, State("", "", lastId))
         == Decode(rest, State("", if kind.Some? then kind.value else "", lastId))
  {
    if kind.Some? {
      ReadField("event", kind.value, rest, State("", "", lastId));
      assert EventLine(kind) + rest == "event" + ": " + kind.value + "\n" + rest;
    } else {
      assert "" + rest == rest;
    }
  }

  /** A message that survives. */
  predicate Good(location: string, m: Msg) {
    && '\r' !in m.data
    && '\r' !in m.id && '\n' !in m.id && '\0' !in m.id
    && '\r' !in location && '\n' !in location
    && (location == "" && m.event.Some? ==> '\r' !in m.event.value && '\n' !in m.event.value)
  }

  /** The same in the reader's terms. */
  predicate Survives(location: string, m: Msg) {
    Without(m.data, CR) && CleanId(m.id) && (Kind(location, m).Some? ==> IsLine(Kind(location, m).value))
  }

  lemma GoodIff(location: string, m: Msg)
    ensures Good(location, m) <==> Survives(location, m)
    ensures Clean(Told(location, m)) ==> Good(location, m)
  {
  }

  /** One message, read back. */
  lemma ReadMessage(location: string, m: Msg, rest: string, lastId: string)
    requires Survives(location, m)
    ensures Decode(Encoded(location, m) + rest, State("", "", lastId))
         == [Told(location, m)] + Decode(rest, State("", "", m.id))
  {
    var kind := Kind(location, m);
    var k := if kind.Some? then kind.value else "";
    var body := DataLines(m.data) + [LF] + ([LF] + rest);
    var idLine := "id: " + m.id + "\n";
    Halves(EventLine(kind), idLine, DataLines(m.data), rest);
    ReadEvent(kind, idLine + body, lastId);
    ReadId(m.id, body, k, lastId);
    ReadBody(m, k, rest);
  }

  lemma ReadId(id: string, body: string, k: string, lastId: string)
    requires Without(id, LF) && Without(id, CR) && Without(id, NUL)
    ensures Decode("id: " + id + "\n" + body, State("", k, lastId)) == Decode(body, State("", k, id))
  {
    assert "id: " + id + "\n" + body == "id" + ": " + id + "\n" + body;
    ReadField("id", id, body, State("", k, lastId));
  }

  lemma Halves(a: string, b: string, c: string, rest: string)
    ensures (a + b + (c + "\n\n")) + rest == a + (b + (c + [LF] + ([LF] + rest)))
  {
  }

  lemma ReadBody(m: Msg, k: string, rest: string)
    requires Without(m.data, CR)
    ensures Decode(DataLines(m.data) + [LF] + ([LF] + rest), State("", k, m.id))
         == [Event(if k == "" then "message" else k, m.id, m.data)] + Decode(rest, State("", "", m.id))
  {
    ReadData(m.data, [LF] + rest, State("", k, m.id));
    var st := State("" + m.data + [LF], k, m.id);
    ReadBlank(rest, st);
    assert st.data[..|st.data| - 1] == m.data;
  }

  lemma {:induction false} ReadAll(location: string, ms: seq<Msg>, lastId: string)
    requires forall i :: 0 <= i < |ms| ==> Survives(location, ms[i])
    ensures Decode(EncodedAll(location, ms), State("", "", lastId)) == ToldAll(location, ms)
    decreases |ms|
  {
    if ms != [] {
      ReadMessage(location, ms[0], EncodedAll(location, ms[1..]), lastId);
      ReadAll(location, ms[1..], ms[0].id);
    }
  }

  lemma ReadHello(rest: string)
    ensures Decode(HELLO + rest, State("", "", "")) == Decode(rest, State("", "", ""))
  {
    assert HELLO + rest == ": hi" + [LF] + ([LF] + rest);
    DecodeLine(": hi", [LF] + rest, State("", "", ""));
    ReadBlank(rest, State("", "", ""));
  }

  /** A reader of the stream is told of every message, in order and unchanged, exactly when no data holds
      a carriage return, no id a line break or NUL, and no event type a line break. */
  lemma RoundTripIff(location: string, ms: seq<Msg>)
    ensures Decode(HELLO + EncodedAll(location, ms), State("", "", "")) == ToldAll(location, ms)
       <==> forall i :: 0 <= i < |ms| ==> Good(location, ms[i])
  {
    ReadHello(EncodedAll(location, ms));
    forall i | 0 <= i < |ms| ensures Good(location, ms[i]) <==> Survives(location, ms[i]) { GoodIff(location, ms[i]); }
    if forall i :: 0 <= i < |ms| ==> Good(location, ms[i]) {
      ReadAll(location, ms, "");
    } else {
      var i :| 0 <= i < |ms| && !Good(location, ms[i]);
      GoodIff(location, ms[i]);
      DecodeClean(EncodedAll(location, ms), State("", "", ""));
      assert ToldAll(location, ms)[i] in ToldAll(location, ms);
    }
  }

  /** The smallest message that is not read back. */
  lemma CarriageReturnLost()
    ensures Decode(HELLO + EncodedAll("", [Msg("1:0", None, "\r")]), State("", "", ""))
         != ToldAll("", [Msg("1:0", None, "\r")])
  {
    RoundTripIff("", [Msg("1:0", None, "\r")]);
    assert "\r"[0] == CR && !Good("", [Msg("1:0", None, "\r")][0]);
  }
}
