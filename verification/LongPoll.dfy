/** The long-poll subscriber with several messages in one response: messages are collected in a list and
    then written as one multipart body, from which a reader gets them back. */
module LongPoll {
  import opened Basics
  import opened Buffers
  import opened Multipart

  // ---- What is written ------------------------------------------------------------------------------

  function PartText(p: Part): string {
    (if p.contentType.Some? then "\r\nContent-Type: " + p.contentType.value else "") + "\r\n\r\n" + p.body
  }

  /** A part between its boundaries.  The first boundary has no line end before it, the last is closed. */
  function Piece(p: Part, d: string, first: bool, last: bool): string
    requires |d| >= 2
  {
    (if first then d[2..] else d) + PartText(p) + (if last then d + "--\r\n" else "")
  }

  /** The boundary between two parts. */
  function Mark(boundary: string): string {
    "\r\n--" + boundary
  }

  /** The parts from number `i` on. */
  function Written(parts: seq<Part>, d: string, i: nat): string
    requires i <= |parts| && |d| >= 2
    decreases |parts| - i
  {
    if i == |parts| then "" else Piece(parts[i], d, i == 0, i == |parts| - 1) + Written(parts, d, i + 1)
  }

  lemma Regroup(a: string, b: string, c: string)
    ensures a + (b + c) == (a + b) + c
  {
  }

  // ---- The list of messages -------------------------------------------------------------------------

  class Mmsg {
    const msg: Part
    var next: Mmsg?

    constructor (msg: Part)
      ensures this.msg == msg && next == null
    {
      this.msg, next := msg, null;
    }
  }

  class Multimsg {
    var first: Mmsg?
    var last: Mmsg?
    ghost var nodes: seq<Mmsg>

    /** What the node at place `i` points to. */
    ghost function After(i: int): Mmsg?
      reads this
    {
      if 0 <= i + 1 < |nodes| then nodes[i + 1] else null
    }

    ghost predicate Valid()
      reads this, nodes
    {
      && (forall i {:trigger nodes[i].next} :: 0 <= i < |nodes| ==> nodes[i].next == After(i))
      && (forall i, j :: 0 <= i < j < |nodes| ==> nodes[i] != nodes[j])
      && first == (if nodes == [] then null else nodes[0])
      && last == (if nodes == [] then null else nodes[|nodes| - 1])
    }

    ghost function Contents(): (parts: seq<Part>)
      reads this
      ensures |parts| == |nodes| && forall i :: 0 <= i < |parts| ==> parts[i] == nodes[i].msg
    {
      seq(|nodes|, i requires 0 <= i < |nodes| reads this => nodes[i].msg)
    }

    lemma NodeAt(i: nat)
      requires Valid() && i < |nodes|
      ensures nodes[i].next == After(i) && (nodes[i].next == null <==> i == |nodes| - 1)
      ensures nodes[i] == first <==> i == 0
    {
    }

    constructor ()
      ensures Valid() && Contents() == []
    {
      first, last, nodes := null, null, [];
    }

    /** `longpoll_multipart_add`. */
    method Add(msg: Part)
      requires Valid()
      modifies this, nodes
      ensures Valid() && Contents() == old(Contents()) + [msg] && fresh(set n | n in nodes && n !in old(nodes))
    {
      var mmsg := new Mmsg(msg);
      if first == null { first := mmsg; }
      if last != null { last.next := mmsg; }
      last := mmsg;
      nodes := nodes + [mmsg];
    }
  }

  /** `longpoll_multipart_respond` with more than one message: the body, and the length declared for it. */
  method Respond(list: Multimsg, boundary: string) returns (out: BufChain, contentLength: nat)
    requires list.Valid() && |list.nodes| >= 2
    ensures fresh(out) && out.Valid()
    ensures Flat(out.links) == Written(list.Contents(), Mark(boundary), 0) && contentLength == |Flat(out.links)|
  {
    out := new BufChain();
    var d := Mark(boundary);
    var cur := list.first;
    ghost var i, parts := 0, list.Contents();
    while cur != null
      invariant 0 <= i <= |parts| && list.Valid() && parts == list.Contents() && fresh(out) && out.Valid()
      invariant cur == list.After(i - 1) && |list.nodes| == |parts|
      invariant Flat(out.links) + Written(parts, d, i) == Written(parts, d, 0)
      decreases |parts| - i
    {
      assert cur == list.nodes[i];
      list.NodeAt(i);
      RespondOne(list, out, cur, d, i);
      cur := cur.next;
      i := i + 1;
    }
    contentLength := out.length;
  }

  /** One round of the loop. */
  method RespondOne(list: Multimsg, out: BufChain, cur: Mmsg, d: string, ghost i: nat)
    requires list.Valid() && i < |list.nodes| && cur == list.nodes[i] && out.Valid() && |d| >= 2
    modifies out
    ensures list.Valid() && list.Contents() == old(list.Contents()) && out.Valid()
    ensures var parts := list.Contents();
            Flat(out.links) + Written(parts, d, i + 1) == Flat(old(out.links)) + Written(parts, d, i)
  {
    ghost var parts := list.Contents();
    list.NodeAt(i);
    Regroup(Flat(out.links), Piece(cur.msg, d, i == 0, i == |parts| - 1), Written(parts, d, i + 1));
    AppendPart(out, cur.msg, cur == list.first, cur.next == null, d);
  }

  method AppendPart(out: BufChain, msg: Part, first: bool, last: bool, d: string)
    requires out.Valid() && |d| >= 2
    modifies out
    ensures out.Valid() && Flat(out.links) == Flat(old(out.links)) + Piece(msg, d, first, last)
  {
    ghost var was := Flat(out.links);
    var mark := if first then d[2..] else d;
    out.Append(mark);
    AppendText(out, msg);
    if last {
      out.Append(d + "--\r\n");
    }
    ghost var end := if last then d + "--\r\n" else "";
    assert Flat(out.links) == was + mark + PartText(msg) + end;
    Regroup(was + mark, PartText(msg), end);
    Regroup(was, mark, PartText(msg) + end);
    Regroup(mark, PartText(msg), end);
  }

  method AppendText(out: BufChain, msg: Part)
    requires out.Valid()
    modifies out
    ensures out.Valid() && Flat(out.links) == Flat(old(out.links)) + PartText(msg)
  {
    ghost var was := Flat(out.links);
    ghost var ct := if msg.contentType.Some? then "\r\nContent-Type: " + msg.contentType.value else "";
    if msg.contentType.Some? {
      out.Append("\r\nContent-Type: ");
      out.Append(msg.contentType.value);
      Regroup(was, "\r\nContent-Type: ", msg.contentType.value);
    }
    assert Flat(out.links) == was + ct;
    AppendBody(out, msg.body);
    Regroup(was, ct, "\r\n\r\n" + msg.body);
    Regroup(ct, "\r\n\r\n", msg.body);
  }

  method AppendBody(out: BufChain, body: string)
    requires out.Valid()
    modifies out
    ensures out.Valid() && Flat(out.links) == Flat(old(out.links)) + ("\r\n\r\n" + body)
  {
    ghost var was := Flat(out.links);
    out.Append("\r\n\r\n");
    if |body| > 0 {
      out.Append(body);
      Regroup(was, "\r\n\r\n", body);
    }
  }

  // ---- What is read ---------------------------------------------------------------------------------

  /** The delimiter has a carriage return at its start only. */
  predicate DelimOk(d: string) {
    && |d| >= 4 && d[0] == '\r' && d[1] == '\n' && d[2] == '-' && d[3] == '-'
    && forall i :: 1 <= i < |d| ==> d[i] != '\r'
  }

  /** What a reader finds between the end of the boundary's line and the next boundary. */
  function Inner(p: Part): string {
    (if p.contentType.Some? then ContentLine(p.contentType.value) + CRLF else "") + (CRLF + p.body)
  }

  function ContentLine(v: string): string {
    "Content-Type: " + v
  }

  lemma PartTextIs(p: Part)
    ensures PartText(p) == CRLF + Inner(p)
  {
    if p.contentType.Some? {
      var v := p.contentType.value;
      assert "\r\nContent-Type: " == CRLF + "Content-Type: " && "\r\n\r\n" == CRLF + CRLF;
      Spread(CRLF, "Content-Type: ", v, p.body);
    } else {
      assert "\r\n\r\n" == CRLF + CRLF;
      assert "" + (CRLF + CRLF) + p.body == CRLF + ("" + (CRLF + p.body));
    }
  }

  lemma Spread(nl: string, name: string, v: string, body: string)
    ensures ((nl + name) + v) + (nl + nl) + body == nl + ((name + v) + nl + (nl + body))
  {
  }

  /** No carriage return and line feed before the end of the line. */
  lemma LineFound(line: string, rest: string)
    requires Free(line, CRLF)
    ensures Find(line + CRLF + rest, CRLF) == |line|
  {
    var t := line + CRLF + rest;
    assert Occurs(t, CRLF, |line|);
    forall j | 0 <= j < |line| ensures !Occurs(t, CRLF, j) {
      assert !Occurs(line, CRLF, j);
      if j + 2 <= |line| {
        assert t[j..j + 2] == line[j..j + 2];
      } else {
        assert t[j..j + 2][1] == t[|line|] == '\r';
      }
    }
    FindIs(t, CRLF, |line|);
  }

  lemma ContentLineFree(v: string)
    requires Free(v, CRLF)
    ensures Free(ContentLine(v), CRLF)
  {
    var l := ContentLine(v);
    forall j | 0 <= j ensures !Occurs(l, CRLF, j) {
      if j >= 14 {
        assert !Occurs(v, CRLF, j - 14);
        if j + 2 <= |l| { assert l[j..j + 2] == v[j - 14..j - 12]; }
      } else if j + 2 <= |l| {
        assert l[j..j + 2][0] == l[j] == "Content-Type: "[j] != '\r';
      }
    }
  }

  lemma ReadContentLine(v: string)
    ensures Header(ContentLine(v), None) == Some(v)
  {
    var l, name := ContentLine(v), "Content-Type";
    assert l == name + ":" + (" " + v);
    EventStream.ColonAt(name, " " + v);
    assert l[..12] == name && Lower(name) == "content-type";
    assert l[13..] == " " + v && (" " + v)[1..] == v;
  }

  lemma ReadInner(p: Part)
    requires p.contentType.Some? ==> Free(p.contentType.value, CRLF)
    ensures Headers(Inner(p), None) == p
  {
    var blank := CRLF + p.body;
    assert blank[..2] == CRLF && blank[2..] == p.body;
    if p.contentType.Some? {
      var l := ContentLine(p.contentType.value);
      var t := l + CRLF + blank;
      ContentLineFree(p.contentType.value);
      LineFound(l, blank);
      ReadContentLine(p.contentType.value);
      assert t[0] == l[0] == 'C' && t[..|l|] == l && t[|l| + 2..] == blank;
      assert t[..2] != CRLF by { assert t[..2][0] == 'C'; }
    } else {
      assert "" + blank == blank;
    }
  }

  /** In `head + "\r\n" + body` a delimiter would have to be in the last line end and the body. */
  lemma NotInHead(head: string, body: string, d: string, j: nat)
    requires DelimOk(d) && Free(CRLF + body, d)
    requires head == "" || exists line :: Free(line, CRLF) && head == line + CRLF
    ensures !Occurs(head + (CRLF + body), d, j)
  {
    var t := head + (CRLF + body);
    if j >= |head| {
      assert !Occurs(CRLF + body, d, j - |head|);
      if j + |d| <= |t| { assert t[j..j + |d|] == (CRLF + body)[j - |head|..j - |head| + |d|]; }
    } else {
      var line :| Free(line, CRLF) && head == line + CRLF;
      assert !Occurs(line, CRLF, j);
      if j + |d| <= |t| {
        var u := t[j..j + |d|];
        assert u[0] == t[j] && u[1] == t[j + 1] && u[2] == t[j + 2];
        if j + 2 <= |line| { assert line[j..j + 2] == [line[j], line[j + 1]]; }
        assert u != d;
      }
    }
  }

  /** Nor does one start before the end and reach into the next delimiter. */
  lemma NotAcross(t: string, tail: string, d: string, j: nat)
    requires DelimOk(d) && Free(t, d) && |tail| >= |d| && tail[..|d|] == d && j < |t|
    ensures !Occurs(t + tail, d, j)
  {
    var s := t + tail;
    assert !Occurs(t, d, j);
    if j + |d| <= |t| {
      assert s[j..j + |d|] == t[j..j + |d|];
    } else {
      assert s[j..j + |d|][|t| - j] == s[|t|] == tail[0] == tail[..|d|][0] == '\r';
      assert d[|t| - j] != '\r';
    }
  }

  lemma InnerFree(p: Part, d: string)
    requires DelimOk(d) && Good(p, d)
    ensures Free(Inner(p), d)
  {
    var head := if p.contentType.Some? then ContentLine(p.contentType.value) + CRLF else "";
    if p.contentType.Some? { ContentLineFree(p.contentType.value); }
    forall j | 0 <= j ensures !Occurs(Inner(p), d, j) { NotInHead(head, p.body, d, j); }
  }

  /** The parts as a reader meets them: each delimiter, then what it introduces. */
  function Tail(parts: seq<Part>, d: string): (t: string)
    ensures |t| >= |d| && t[..|d|] == d
  {
    if parts == [] then d + "--\r\n" else d + (PartText(parts[0]) + Tail(parts[1..], d))
  }

  lemma Glue(a: string, b: string, p: string, e: string, r: string)
    ensures a + (b + p + e + r) == (a + b) + (p + (e + r))
  {
  }

  lemma {:induction false} WrittenIs(parts: seq<Part>, d: string, i: nat)
    requires i < |parts| && |d| >= 2
    ensures (if i == 0 then d[..2] else "") + Written(parts, d, i) == Tail(parts[i..], d)
    decreases |parts| - i
  {
    var p, rest := PartText(parts[i]), Written(parts, d, i + 1);
    var mark, end := if i == 0 then d[2..] else d, if i == |parts| - 1 then d + "--\r\n" else "";
    assert parts[i..][0] == parts[i] && parts[i..][1..] == parts[i + 1..];
    assert end + rest == Tail(parts[i + 1..], d) by {
      if i + 1 < |parts| { WrittenIs(parts, d, i + 1); } else { assert parts[i + 1..] == []; }
    }
    Glue(if i == 0 then d[..2] else "", mark, p, end, rest);
    assert (if i == 0 then d[..2] else "") + mark == d;
  }

  lemma DropPrefix(a: string, b: string)
    ensures (a + b)[|a|..] == b
  {
  }

  lemma ReadEnd(d: string)
    ensures Parts("--\r\n", d) == Some([])
  {
    assert "--\r\n"[..2] == "--";
  }

  lemma {:induction false} ReadTail(parts: seq<Part>, d: string)
    requires DelimOk(d) && forall i :: 0 <= i < |parts| ==> Good(parts[i], d)
    ensures Parts(Tail(parts, d)[|d|..], d) == Some(parts)
    decreases |parts|
  {
    if parts == [] {
      DropPrefix(d, "--\r\n");
      ReadEnd(d);
    } else {
      var tail := Tail(parts[1..], d);
      DropPrefix(d, PartText(parts[0]) + tail);
      ReadTail(parts[1..], d);
      ReadPart(parts[0], tail, d);
      assert [parts[0]] + parts[1..] == parts;
    }
  }

  lemma LineEnds(t: string, d: string)
    ensures Parts(CRLF + t, d) == PartsFrom(t, d)
  {
    var s := CRLF + t;
    assert s[0] == '\r' && s[..2] == CRLF && s[2..] == t;
    assert s[..2][0] == '\r' && "--"[0] != '\r';
    assert Unpadded(s) == s;
  }

  lemma DelimAt(t: string, tail: string, d: string)
    requires DelimOk(d) && Free(t, d) && |tail| >= |d| && tail[..|d|] == d
    ensures Find(t + tail, d) == |t|
  {
    forall j | 0 <= j < |t| ensures !Occurs(t + tail, d, j) { NotAcross(t, tail, d, j); }
    OccursAfter(t, tail, d);
    FindIs(t + tail, d, |t|);
  }

  lemma OccursAfter(t: string, tail: string, d: string)
    requires |tail| >= |d| && tail[..|d|] == d
    ensures Occurs(t + tail, d, |t|)
  {
    assert (t + tail)[|t|..|t| + |d|] == tail[..|d|];
  }

  lemma ReadPart(p: Part, tail: string, d: string)
    requires DelimOk(d) && Good(p, d) && |tail| >= |d| && tail[..|d|] == d
    ensures Parts(PartText(p) + tail, d) == WithPart(p, Parts(tail[|d|..], d))
  {
    var inner := Inner(p);
    PartTextIs(p);
    Regroup(CRLF, inner, tail);
    InnerFree(p, d);
    LineEnds(inner + tail, d);
    ReadFrom(inner, tail, d);
    ReadInner(p);
  }

  lemma ReadFrom(inner: string, tail: string, d: string)
    requires DelimOk(d) && Free(inner, d) && |tail| >= |d| && tail[..|d|] == d
    ensures PartsFrom(inner + tail, d) == WithPart(Headers(inner, None), Parts(tail[|d|..], d))
  {
    DelimAt(inner, tail, d);
    Cut(inner, tail, |d|);
    PartsFromIs(inner + tail, |inner|, d, inner, tail[|d|..]);
  }

  lemma Cut(a: string, b: string, n: nat)
    requires n <= |b|
    ensures (a + b)[..|a|] == a && (a + b)[|a| + n..] == b[n..]
  {
  }

  lemma PartsFromIs(t: string, k: nat, d: string, inner: string, after: string)
    requires Find(t, d) == k && t[..k] == inner && t[k + |d|..] == after
    ensures PartsFrom(t, d) == WithPart(Headers(inner, None), Parts(after, d))
  {
  }

  lemma DecodeWritten(parts: seq<Part>, boundary: string, d: string)
    requires parts != [] && d == Delimiter(boundary)
    ensures Decode(Written(parts, d, 0), boundary) == Parts(Tail(parts, d)[|d|..], d)
  {
    assert d[..2] == CRLF;
    WrittenIs(parts, d, 0);
    assert parts[0..] == parts;
    FindIs(Tail(parts, d), d, 0);
  }

  /** A reader of the body gets the same parts in the same order, exactly when no body has a line that
      starts like the boundary and no content type a line end. */
  lemma RoundTripIff(parts: seq<Part>, boundary: string)
    requires parts != [] && '\r' !in boundary
    ensures Decode(Written(parts, Mark(boundary), 0), boundary) == Some(parts)
       <==> forall i :: 0 <= i < |parts| ==> Good(parts[i], "\r\n--" + boundary)
  {
    var d := Delimiter(boundary);
    assert DelimOk(d);
    DecodeWritten(parts, boundary, d);
    if forall i :: 0 <= i < |parts| ==> Good(parts[i], d) {
      ReadTail(parts, d);
    } else {
      PartsGood(Tail(parts, d)[|d|..], d);
    }
  }
}
