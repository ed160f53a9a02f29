/** Multipart bodies as section 5.1.1 of RFC 2046 has them read. */
module Multipart {
  import opened Basics
  import EventStream

  const CRLF := "\r\n"

  datatype Part = Part(contentType: Option<string>, body: string)

  // ---- Searching ------------------------------------------------------------------------------------

  predicate Occurs(s: string, pat: string, k: nat) {
    k + |pat| <= |s| && s[k..k + |pat|] == pat
  }

  ghost predicate Free(s: string, pat: string) {
    forall k :: 0 <= k ==> !Occurs(s, pat, k)
  }

  /** Where `pat` first occurs, or -1. */
  function Find(s: string, pat: string): (k: int)
    ensures -1 <= k && (k >= 0 ==> Occurs(s, pat, k))
    decreases |s|
  {
    if |s| < |pat| then -1
    else if s[..|pat|] == pat then 0
    else if s == "" then -1
    else
      var k := Find(s[1..], pat);
      if k < 0 then -1 else
      assert s[k + 1..k + 1 + |pat|] == s[1..][k..k + |pat|];
      k + 1
  }

  lemma OccursLater(s: string, pat: string, k: nat)
    requires s != ""
    ensures Occurs(s, pat, k + 1) <==> Occurs(s[1..], pat, k)
  {
    if k + 1 + |pat| <= |s| { assert s[k + 1..k + 1 + |pat|] == s[1..][k..k + |pat|]; }
  }

  lemma {:induction false} FindFirst(s: string, pat: string, j: nat)
    requires pat != "" && Occurs(s, pat, j)
    ensures 0 <= Find(s, pat) <= j
    decreases |s|
  {
    if s[..|pat|] != pat {
      assert j > 0;
      OccursLater(s, pat, j - 1);
      FindFirst(s[1..], pat, j - 1);
    }
  }

  lemma FindIs(s: string, pat: string, k: nat)
    requires pat != "" && Occurs(s, pat, k) && forall j :: 0 <= j < k ==> !Occurs(s, pat, j)
    ensures Find(s, pat) == k
  {
    FindFirst(s, pat, k);
  }

  lemma FindNone(s: string, pat: string)
    requires pat != "" && Find(s, pat) == -1
    ensures Free(s, pat)
  {
    forall k | 0 <= k ensures !Occurs(s, pat, k) {
      if Occurs(s, pat, k) { FindFirst(s, pat, k); }
    }
  }

  lemma SubFree(s: string, pat: string, i: nat, j: nat)
    requires Free(s, pat) && i <= j <= |s|
    ensures Free(s[i..j], pat)
  {
    forall k | 0 <= k ensures !Occurs(s[i..j], pat, k) {
      assert !Occurs(s, pat, i + k);
      if k + |pat| <= j - i { SliceOfSlice(s, i, j, k, |pat|); }
    }
  }

  lemma SliceOfSlice(s: string, i: nat, j: nat, k: nat, n: nat)
    requires i <= j <= |s| && k + n <= j - i
    ensures s[i..j][k..k + n] == s[i + k..i + k + n]
  {
    var a, b := s[i..j][k..k + n], s[i + k..i + k + n];
    assert |a| == |b| && forall x :: 0 <= x < n ==> a[x] == b[x];
  }

  /** What lies before the first occurrence does not hold another. */
  lemma PrefixFree(s: string, pat: string)
    requires pat != "" && Find(s, pat) >= 0
    ensures Free(s[..Find(s, pat)], pat)
  {
    var f := Find(s, pat);
    forall k | 0 <= k ensures !Occurs(s[..f], pat, k) {
      if Occurs(s[..f], pat, k) {
        assert s[..f][k..k + |pat|] == s[k..k + |pat|];
        FindFirst(s, pat, k);
      }
    }
  }

  // ---- The reader -----------------------------------------------------------------------------------

  function Lower(s: string): (r: string)
    ensures |r| == |s|
  {
    seq(|s|, i requires 0 <= i < |s| => if 'A' <= s[i] <= 'Z' then (s[i] as int + 32) as char else s[i])
  }

  /** A header line: the content type, if that is what it gives, without the space after the colon. */
  function Header(line: string, contentType: Option<string>): Option<string> {
    var k := EventStream.FirstColon(line);
    if k < |line| && Lower(line[..k]) == "content-type" then Some(EventStream.StripSpace(line[k + 1..]))
    else contentType
  }

  /** Header lines, an empty line, the body. */
  function Headers(t: string, contentType: Option<string>): Part
    decreases |t|
  {
    if |t| >= 2 && t[..2] == CRLF then Part(contentType, t[2..])
    else
      var k := Find(t, CRLF);
      if k < 0 then Part(Header(t, contentType), "") else Headers(t[k + 2..], Header(t[..k], contentType))
  }

  /** White space may follow a boundary on its line. */
  function Unpadded(s: string): (r: string)
    ensures |r| <= |s|
  {
    if s != "" && (s[0] == ' ' || s[0] == '\t') then Unpadded(s[1..]) else s
  }

  /** What follows a delimiter: two dashes at the end of all, or the rest of its line and a part. */
  function Parts(s: string, delim: string): Option<seq<Part>>
    decreases |s|, 0
  {
    if |s| >= 2 && s[..2] == "--" then Some([])
    else
      var p := Unpadded(s);
      if |p| < 2 || p[..2] != CRLF then None else PartsFrom(p[2..], delim)
  }

  /** A part up to the next delimiter, and the parts behind that. */
  function PartsFrom(t: string, delim: string): Option<seq<Part>>
    decreases |t|, 1
  {
    var k := Find(t, delim);
    if k < 0 then None else WithPart(Headers(t[..k], None), Parts(t[k + |delim|..], delim))
  }

  function WithPart(p: Part, more: Option<seq<Part>>): Option<seq<Part>> {
    if more.None? then None else Some([p] + more.value)
  }

  function Delimiter(boundary: string): string {
    "\r\n--" + boundary
  }

  /** The first boundary may stand at the very beginning, as if after a line end; what comes before it,
      and after the last, is ignored. */
  function Decode(s: string, boundary: string): Option<seq<Part>> {
    var d := Delimiter(boundary);
    var k := Find(CRLF + s, d);
    if k < 0 then None else Parts((CRLF + s)[k + |d|..], d)
  }

  // ---- What a reader can never report ---------------------------------------------------------------

  /** A part that survives: its body has no line that starts like the boundary, and its content type is
      one line. */
  ghost predicate Good(p: Part, delim: string) {
    Free(CRLF + p.body, delim) && (p.contentType.Some? ==> Free(p.contentType.value, CRLF))
  }

  lemma HeaderGood(line: string, contentType: Option<string>)
    requires Free(line, CRLF) && (contentType.Some? ==> Free(contentType.value, CRLF))
    ensures Header(line, contentType).Some? ==> Free(Header(line, contentType).value, CRLF)
  {
    var k := EventStream.FirstColon(line);
    if k < |line| {
      var v := line[k + 1..];
      SubFree(line, CRLF, k + 1, |line|);
      assert line[k + 1..|line|] == v;
      if v != "" {
        SubFree(v, CRLF, 1, |v|);
        assert v[1..|v|] == v[1..];
      }
    }
  }

  lemma {:induction false} HeadersGood(t: string, contentType: Option<string>, delim: string)
    requires Free(t, delim) && |delim| > 2 && (contentType.Some? ==> Free(contentType.value, CRLF))
    ensures Good(Headers(t, contentType), delim)
    decreases |t|
  {
    if |t| >= 2 && t[..2] == CRLF {
      assert t == CRLF + t[2..];
    } else {
      var k := Find(t, CRLF);
      if k < 0 {
        FindNone(t, CRLF);
        HeaderGood(t, contentType);
        assert CRLF + "" == CRLF;
      } else {
        PrefixFree(t, CRLF);
        HeaderGood(t[..k], contentType);
        SubFree(t, delim, k + 2, |t|);
        assert t[k + 2..|t|] == t[k + 2..];
        HeadersGood(t[k + 2..], Header(t[..k], contentType), delim);
      }
    }
  }

  /** Whatever it is given, a reader reports only parts that would survive being written. */
  lemma {:induction false} PartsGood(s: string, delim: string)
    requires |delim| > 2
    ensures Parts(s, delim).Some? ==> forall p :: p in Parts(s, delim).value ==> Good(p, delim)
    decreases |s|
  {
    if !(|s| >= 2 && s[..2] == "--") {
      var p := Unpadded(s);
      if |p| >= 2 && p[..2] == CRLF {
        var t := p[2..];
        var k := Find(t, delim);
        if k >= 0 {
          PrefixFree(t, delim);
          HeadersGood(t[..k], None, delim);
          PartsGood(t[k + |delim|..], delim);
          assert Parts(s, delim) == WithPart(Headers(t[..k], None), Parts(t[k + |delim|..], delim));
        }
      }
    }
  }
}
