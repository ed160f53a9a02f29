/** The text/event-stream format as its reader sees it: sections 9.2.5 and 9.2.6 of the WHATWG HTML
    standard, on decoded text without a byte order mark. */
module EventStream {

  const CR := '\r'
  const LF := '\n'
  const NUL := '\0'

  datatype Event = Event(kind: string, id: string, data: string)

  /** The data buffer, the event type buffer and the last event id buffer. */
  datatype State = State(data: string, kind: string, lastId: string)

  datatype Step = Step(st: State, out: seq<Event>)

  predicate Without(s: string, c: char) {
    c !in s
  }

  predicate IsLine(s: string) {
    Without(s, CR) && Without(s, LF)
  }

  /** Where the first line of `s` ends. */
  function FirstBreak(s: string): (k: nat)
    ensures k <= |s| && IsLine(s[..k]) && (k < |s| ==> s[k] == CR || s[k] == LF)
  {
    if s == "" || s[0] == CR || s[0] == LF then 0
    else
      assert s[..1 + FirstBreak(s[1..])] == [s[0]] + s[1..][..FirstBreak(s[1..])];
      1 + FirstBreak(s[1..])
  }

  function FirstColon(s: string): (k: nat)
    ensures k <= |s| && Without(s[..k], ':') && (k < |s| ==> s[k] == ':')
  {
    if s == "" || s[0] == ':' then 0
    else
      assert s[..1 + FirstColon(s[1..])] == [s[0]] + s[1..][..FirstColon(s[1..])];
      1 + FirstColon(s[1..])
  }

  function StripSpace(v: string): string {
    if v != "" && v[0] == ' ' then v[1..] else v
  }

  function Field(name: string, value: string, st: State): State {
    if name == "event" then st.(kind := value)
    else if name == "data" then st.(data := st.data + value + [LF])
    else if name == "id" && Without(value, NUL) then st.(lastId := value)
    else st
  }

  function Dispatch(st: State): Step {
    if st.data == "" then Step(st.(kind := ""), [])
    else
      var data := if st.data[|st.data| - 1] == LF then st.data[..|st.data| - 1] else st.data;
      Step(State("", "", st.lastId), [Event(if st.kind == "" then "message" else st.kind, st.lastId, data)])
  }

  function Line(line: string, st: State): Step {
    var k := FirstColon(line);
    if line == "" then Dispatch(st)
    else if k == |line| then Step(Field(line, "", st), [])
    else if k == 0 then Step(st, [])
    else Step(Field(line[..k], StripSpace(line[k + 1..]), st), [])
  }

  /** All events of a stream.  An unfinished last line is dropped. */
  function Decode(s: string, st: State): seq<Event>
    decreases |s|
  {
    var k := FirstBreak(s);
    if k == |s| then []
    else
      var rest := if s[k] == CR && k + 1 < |s| && s[k + 1] == LF then s[k + 2..] else s[k + 1..];
      var step := Line(s[..k], st);
      step.out + Decode(rest, step.st)
  }

  // ---- What a reader does with one line -------------------------------------------------------------

  lemma {:induction false} BreakAt(line: string, rest: string)
    requires IsLine(line)
    ensures FirstBreak(line + [LF] + rest) == |line|
  {
    var s := line + [LF] + rest;
    if line == "" {
      assert s[0] == LF;
    } else {
      assert line[0] in line;
      assert s[1..] == line[1..] + [LF] + rest;
      BreakAt(line[1..], rest);
    }
  }

  lemma DecodeLine(line: string, rest: string, st: State)
    requires IsLine(line)
    ensures Decode(line + [LF] + rest, st) == Line(line, st).out + Decode(rest, Line(line, st).st)
  {
    var s := line + [LF] + rest;
    BreakAt(line, rest);
    assert s[|line|] == LF && s[..|line|] == line && s[|line| + 1..] == rest;
  }

  lemma {:induction false} ColonAt(name: string, rest: string)
    requires Without(name, ':')
    ensures FirstColon(name + ":" + rest) == |name|
  {
    var s := name + ":" + rest;
    if name == "" {
      assert s[0] == ':';
    } else {
      assert name[0] in name;
      assert s[1..] == name[1..] + ":" + rest;
      ColonAt(name[1..], rest);
    }
  }

  /** The line "name: value". */
  lemma FieldLine(name: string, value: string, st: State)
    requires Without(name, ':') && name != ""
    ensures Line(name + ": " + value, st) == Step(Field(name, value, st), [])
  {
    var line := name + ": " + value;
    assert line == name + ":" + (" " + value);
    ColonAt(name, " " + value);
    assert line[..|name|] == name && line[|name| + 1..] == " " + value && (" " + value)[1..] == value;
  }

  // ---- What a reader can never report ---------------------------------------------------------------

  predicate CleanId(id: string) {
    IsLine(id) && Without(id, NUL)
  }

  predicate Clean(e: Event) {
    Without(e.data, CR) && IsLine(e.kind) && CleanId(e.id)
  }

  predicate CleanState(st: State) {
    Without(st.data, CR) && IsLine(st.kind) && CleanId(st.lastId)
  }

  lemma LineClean(line: string, st: State)
    requires IsLine(line) && CleanState(st)
    ensures CleanState(Line(line, st).st) && forall e :: e in Line(line, st).out ==> Clean(e)
  {
    var k := FirstColon(line);
    assert forall c :: c in line[..k] ==> c in line;
    if 0 < k < |line| {
      var v := line[k + 1..];
      assert forall c :: c in v ==> c in line;
      assert forall c :: c in StripSpace(v) ==> c in v;
    }
    if line == "" && st.data != "" {
      assert forall c :: c in st.data[..|st.data| - 1] ==> c in st.data;
    }
  }

  /** No stream makes a reader report data with a carriage return in it, or an id or event type with a
      line break. */
  lemma {:induction false} DecodeClean(s: string, st: State)
    requires CleanState(st)
    ensures forall e :: e in Decode(s, st) ==> Clean(e)
    decreases |s|
  {
    var k := FirstBreak(s);
    if k < |s| {
      LineClean(s[..k], st);
      var rest := if s[k] == CR && k + 1 < |s| && s[k + 1] == LF then s[k + 2..] else s[k + 1..];
      DecodeClean(rest, Line(s[..k], st).st);
    }
  }
}
