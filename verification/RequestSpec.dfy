/** What one line of a request header means, and the parser as a fold over
    lines (request.c).  Everything here is a function of values; class Request
    refines it with the index loops of the source. */
module RequestSpec {
  import opened Text

  const REQ_URISZ := 2048
  const REQ_VERSZ := 32
  const REQ_HOSTSZ := 256
  const HDR_KEYSZ := 512
  const HDR_VALSZ := 4096

  datatype Method = GET | HEAD | POST | OTHER
  datatype ReqPhase = REQ_START | REQ_HEADER | REQ_BODY | REQ_DONE | REQ_ABORT
  datatype ReqType = REQ_STATIC | REQ_DYNAMIC
  datatype Hdr = Hdr(key: string, val: string)

  // The request line, the headers that are kept, and how far the request has
  // come: rsize body bytes are missing.
  datatype ReqLine = ReqLine(verb: Method, uri: string, params: Option<string>, version: string, kind: ReqType)
  datatype ReqHead = ReqHead(host: string, clen: int, alive: bool, hdrs: seq<Hdr>)
  datatype ReqVal = ReqVal(line: ReqLine, head: ReqHead, rsize: int, phase: ReqPhase)
  {
    predicate InHeader() {
      phase == REQ_START || phase == REQ_HEADER
    }
  }

  // req_reset; last_buf is not part of the value and survives it.
  const Blank := ReqVal(ReqLine(OTHER, "", None, "", REQ_STATIC), ReqHead("", -1, true, []), 0, REQ_START)

  // ---------- scanning ----------

  predicate IsLine(s: string) {
    s != "" && IndexOf(s, '\n') == |s| - 1
  }

  // A block of zero or more whole lines.
  predicate IsBlock(s: string) {
    s == "" || s[|s| - 1] == '\n'
  }

  // The first position at or behind i that is not a blank.
  function SkipBlanks(s: string, i: nat): (n: nat)
    requires i <= |s|
    ensures i <= n <= |s| && (n < |s| ==> !IsBlank(s[n]))
    ensures i < |s| && !IsBlank(s[|s| - 1]) ==> n < |s|
    decreases |s| - i
  {
    if i < |s| && IsBlank(s[i]) then SkipBlanks(s, i + 1) else i
  }

  // The first position at or behind i that is a space.
  function SkipWord(s: string, i: nat): (n: nat)
    requires i <= |s|
    ensures i <= n <= |s| && (n < |s| ==> IsSpace(s[n])) && (i < n ==> !IsSpace(s[i]))
    ensures i < |s| && IsSpace(s[|s| - 1]) ==> n < |s|
    decreases |s| - i
  {
    if i < |s| && !IsSpace(s[i]) then SkipWord(s, i + 1) else i
  }

  // Where the next word of a line starts and ends (proceed_inline).
  datatype Word = Word(start: nat, end: nat)

  function NextWord(line: string, i: nat): (w: Word)
    requires IsLine(line) && i < |line|
    ensures i <= w.start <= w.end < |line|
    ensures w.start < w.end ==> !IsSpace(line[w.start])
  {
    var a := SkipBlanks(line, i);
    Word(a, SkipWord(line, a))
  }

  predicate StartsWith(s: string, prefix: string) {
    prefix <= s
  }

  // ---------- the request line ----------

  // The method word counts only when a blank follows the keyword.
  predicate Names(line: string, w: Word, keyword: string)
    requires w.start <= w.end < |line| && |keyword| <= 8
  {
    var name := StrNCpy0(line[w.start..w.end], 8);
    |keyword| <= |name| && CaseEq(name[..|keyword|], keyword) && IsBlank(line[w.start + |keyword|])
  }

  function VerbOf(line: string, w: Word): Method
    requires w.start <= w.end < |line|
  {
    if Names(line, w, "GET") then GET
    else if Names(line, w, "HEAD") then HEAD
    else if Names(line, w, "POST") then POST
    else OTHER
  }

  // The uri without its query, and the query after '?'.
  function BeforeQuery(u: string): string { u[..IndexOf(u, '?')] }

  function AfterQuery(u: string): Option<string> {
    var q := IndexOf(u, '?');
    if q < |u| then Some(u[q + 1..]) else None
  }

  function Aborted(v: ReqVal): ReqVal {
    v.(phase := REQ_ABORT)
  }

  // The text of a word, cut at n bytes.
  function WordText(line: string, w: Word, n: nat): string
    requires w.start <= w.end < |line|
  {
    StrNCpy0(line[w.start..w.end], n)
  }

  // A line either keeps the parse going, ends the header with the body length
  // known, or aborts with a status.
  predicate GoodStep(r: (ReqVal, int)) {
    if r.1 == 0 then
      r.0.phase == REQ_HEADER || (r.0.phase == REQ_BODY && r.0.rsize == r.0.head.clen >= 0)
    else
      r.0.phase == REQ_ABORT && (r.1 == 400 || r.1 == 411 || r.1 == 501)
  }

  // The new request and 0, or the aborted request and an HTTP status.  The
  // end of the line is checked only after everything has been stored.
  function RequestLine(v: ReqVal, line: string): (r: (ReqVal, int))
    requires IsLine(line)
    ensures GoodStep(r)
  {
    var w := NextWord(line, 0);
    if WordText(line, w, 8) == "" then (Aborted(v), 400)
    else if VerbOf(line, w) == OTHER then (Aborted(v), 501)
    else
      var t := NextWord(line, w.end);
      var n := NextWord(line, t.end);
      var good := AtLineEnd(line, NextWord(line, n.end).start);
      var text := Stored(v.line, VerbOf(line, w), WordText(line, t, REQ_URISZ), WordText(line, n, REQ_VERSZ));
      (v.(line := text, phase := if good then REQ_HEADER else REQ_ABORT), if good then 0 else 400)
  }

  function Stored(l: ReqLine, verb: Method, u: string, version: string): ReqLine {
    ReqLine(verb, BeforeQuery(u), AfterQuery(u), version, if StartsWith(u, "/cgi/") then REQ_DYNAMIC else l.kind)
  }

  // eol(): only a '\n' right behind a '\r' ends a line.
  predicate AtLineEnd(line: string, i: nat)
    requires i < |line|
  {
    line[i] == '\n' && i > 0 && line[i - 1] == '\r'
  }

  // ---------- a header line ----------

  function EndOfHeader(v: ReqVal): (ReqVal, int) {
    if v.head.clen >= 0 then (v.(phase := REQ_BODY, rsize := v.head.clen), 0)
    else if v.line.verb == POST then (Aborted(v), 411)
    else (v.(head := v.head.(clen := 0), phase := REQ_BODY, rsize := 0), 0)
  }

  // What a header field does to the kept headers; a length must be a number.
  function Field(h: ReqHead, key: string, val: string): Option<ReqHead> {
    if CaseEq(key, "Host") then Some(h.(host := val))
    else if CaseEq(key, "Content-Length") then
      if AllDigits(val) then Some(h.(clen := Atoi(val))) else None
    else if CaseEq(key, "Connection") then
      Some(if CaseEq(val, "close") then h.(alive := false) else h)
    else Some(h.(hdrs := [Hdr(key, val)] + h.hdrs))
  }

  function HeaderLine(v: ReqVal, line: string): (r: (ReqVal, int))
    requires IsLine(line) && v.phase == REQ_HEADER
    ensures GoodStep(r)
  {
    var k := SkipBlanks(line, 0);
    var body := line[k..|line| - 1];
    var colon := IndexOf(body, ':');
    if AtLineEnd(line, k) then EndOfHeader(v)
    else if colon == 0 || colon == |body| then (Aborted(v), 400)
    else FieldLine(v, body, colon)
  }

  // "key: value", with the colon at c; both sides are cut and stripped.
  function FieldLine(v: ReqVal, body: string, c: nat): (r: (ReqVal, int))
    requires c < |body|
  {
    match Field(v.head, Trim(StrNCpy0(body[..c], HDR_KEYSZ)), Trim(StrNCpy0(body[c + 1..], HDR_VALSZ)))
    case Some(h) => (v.(head := h), 0)
    case None => (Aborted(v), 400)
  }

  // ---------- the meaning of a line ----------

  function ParseLine(v: ReqVal, line: string): (r: (ReqVal, int))
    requires IsLine(line) && v.InHeader()
    ensures GoodStep(r)
  {
    if v.phase == REQ_START then RequestLine(v, line) else HeaderLine(v, line)
  }

  // A grammar says what each line does to a request.  Everything above the
  // line level is proved for every grammar; LISO is the one of the server.
  type Grammar = g: (ReqVal, string) -> (ReqVal, int) | forall v, line :: GoodStep(g(v, line))
    witness (v, line) => (Aborted(v), 400)

  function LineMeaning(v: ReqVal, line: string): (r: (ReqVal, int))
    ensures GoodStep(r)
  {
    if IsLine(line) && v.InHeader() then ParseLine(v, line) else (Aborted(v), 400)
  }

  const LISO: Grammar := LineMeaning

  ghost predicate IsLiso(g: Grammar) {
    forall v: ReqVal, line: string {:trigger ParseLine(v, line)} ::
      IsLine(line) && v.InHeader() ==> g(v, line) == ParseLine(v, line)
  }

  lemma LisoIsLiso()
    ensures IsLiso(LISO)
  {
  }

  // ---------- the fold over lines ----------

  // Lines are taken one by one until the header ends or a line is bad.  The
  // result is the number of bytes taken, or minus the status of the bad line.
  function ParseBlock(g: Grammar, v: ReqVal, s: string): (r: (ReqVal, int))
    requires IsBlock(s) && v.InHeader()
    ensures GoodParse(v, s, r)
    decreases |s|
  {
    if s == "" then (v, 0)
    else
      var r := g(v, FirstLine(s));
      if r.1 != 0 then (r.0, -r.1)
      else if r.0.phase == REQ_BODY then (r.0, |FirstLine(s)|)
      else AddSize(|FirstLine(s)|, ParseBlock(g, r.0, OtherLines(s)))
  }

  // A parse takes the whole block unless the header ends before, or fails
  // with a status.
  predicate GoodParse(v: ReqVal, s: string, r: (ReqVal, int)) {
    && r.1 <= |s|
    && (r.1 < 0 ==> r.0.phase == REQ_ABORT && (r.1 == -400 || r.1 == -411 || r.1 == -501))
    && (r.1 >= 0 ==> r.0.InHeader() || r.0.phase == REQ_BODY)
    && (r.1 >= 0 && r.0.InHeader() ==> r.1 == |s| && (r.0.phase == REQ_START ==> r.0 == v && s == ""))
    && (r.0.phase == REQ_BODY ==> r.0.rsize == r.0.head.clen >= 0 && r.1 > 0)
    && (r.1 > 0 ==> s[r.1 - 1] == '\n')
  }

  function FirstLine(s: string): (line: string)
    requires s != "" && IsBlock(s)
    ensures IsLine(line) && line <= s
  {
    FirstLineIsLine(s);
    s[..IndexOf(s, '\n') + 1]
  }

  function OtherLines(s: string): (rest: string)
    requires s != "" && IsBlock(s)
    ensures IsBlock(rest) && |FirstLine(s)| + |rest| == |s|
  {
    s[|FirstLine(s)|..]
  }

  lemma FirstLineIsLine(s: string)
    requires s != "" && IsBlock(s)
    ensures IndexOf(s, '\n') < |s| && IsLine(s[..IndexOf(s, '\n') + 1])
  {
    var n := IndexOf(s, '\n');
    IndexFromFirst(s, '\n', 0);
    assert n <= |s| - 1;
    IndexFromIs(s[..n + 1], '\n', 0, n);
  }

  function AddSize(n: nat, r: (ReqVal, int)): (ReqVal, int) {
    (r.0, if r.1 < 0 then r.1 else n + r.1)
  }

  // Two parses in a row: the second counts only if the first left the header
  // open.
  function Then(r: (ReqVal, int), next: (ReqVal, int)): (ReqVal, int) {
    if r.1 < 0 || !r.0.InHeader() then r else AddSize(r.1, next)
  }

  // The parse that has come as far as r, given the next block.
  function Continue(g: Grammar, r: (ReqVal, int), s: string): (ReqVal, int)
    requires IsBlock(s)
  {
    Then(r, if r.0.InHeader() then ParseBlock(g, r.0, s) else r)
  }

  // ---------- laws of the fold ----------

  lemma FirstLineConcat(a: string, b: string)
    requires a != "" && IsBlock(a) && IsBlock(b)
    ensures IsBlock(a + b)
    ensures FirstLine(a + b) == FirstLine(a) && OtherLines(a + b) == OtherLines(a) + b
  {
    var n := |FirstLine(a)| - 1;
    IndexFromFirst(a, '\n', 0);
    IndexFromIs(a + b, '\n', 0, n);
    assert (a + b)[..n + 1] == a[..n + 1];
    assert (a + b)[n + 1..] == a[n + 1..] + b;
  }

  lemma ThenAddSize(n: nat, r: (ReqVal, int), next: (ReqVal, int))
    ensures Then(AddSize(n, r), next) == AddSize(n, Then(r, next))
  {
  }

  lemma AddSizeTwice(m: nat, n: nat, r: (ReqVal, int))
    ensures AddSize(m, AddSize(n, r)) == AddSize(m + n, r)
  {
  }

  // Parsing L1 ++ L2 is parsing L1 and then, if the header goes on, L2: the
  // sizes add up, the first bad line decides the status, and nothing behind
  // the blank line is looked at.
  lemma {:induction false} ParseBlockConcat(g: Grammar, v: ReqVal, l1: string, l2: string)
    requires v.InHeader() && IsBlock(l1) && IsBlock(l2)
    ensures IsBlock(l1 + l2)
    ensures ParseBlock(g, v, l1 + l2) == Continue(g, ParseBlock(g, v, l1), l2)
    decreases |l1|
  {
    if l1 == "" {
      assert l1 + l2 == l2;
    } else {
      FirstLineConcat(l1, l2);
      var n, r := |FirstLine(l1)|, g(v, FirstLine(l1));
      if r.1 == 0 && r.0.phase == REQ_HEADER {
        ParseBlockConcat(g, r.0, OtherLines(l1), l2);
        var p := ParseBlock(g, r.0, OtherLines(l1));
        ThenAddSize(n, p, if p.0.InHeader() then ParseBlock(g, p.0, l2) else p);
        assert ParseBlock(g, v, l1) == AddSize(n, p);
        assert ParseBlock(g, v, l1 + l2) == AddSize(n, ParseBlock(g, r.0, OtherLines(l1) + l2));
      } else {
        assert ParseBlock(g, v, l1) == (r.0, if r.1 != 0 then -r.1 else n);
      }
    }
  }

  // ---------- one-shot parsing of a stream ----------

  // Length of the longest prefix of s made of whole lines.
  function WholeLines(s: string): (n: nat)
    ensures n <= |s| && IsBlock(s[..n])
  {
    if s == "" || s[|s| - 1] == '\n' then |s|
    else
      var n := WholeLines(s[..|s| - 1]);
      assert s[..n] == s[..|s| - 1][..n];
      n
  }

  lemma {:induction false} WholeLinesIs(s: string, n: nat)
    requires n <= |s| && IsBlock(s[..n]) && '\n' !in s[n..]
    ensures WholeLines(s) == n
  {
    if n < |s| {
      assert s[n..][|s| - 1 - n] == s[|s| - 1];
      assert s[n..] == s[..|s| - 1][n..] + [s[|s| - 1]];
      assert s[..|s| - 1][..n] == s[..n];
      WholeLinesIs(s[..|s| - 1], n);
    }
  }

  lemma {:induction false} WholeLinesRest(s: string)
    ensures '\n' !in s[WholeLines(s)..]
  {
    if s != "" && s[|s| - 1] != '\n' {
      var n := WholeLines(s);
      WholeLinesRest(s[..|s| - 1]);
      assert s[n..] == s[..|s| - 1][n..] + [s[|s| - 1]];
    }
  }

  lemma {:induction false} WholeLinesAppend(a: string, b: string)
    requires IsBlock(a)
    ensures WholeLines(a + b) == |a| + WholeLines(b)
  {
    if b == "" {
      assert a + b == a;
    } else if b[|b| - 1] != '\n' {
      assert (a + b)[..|a + b| - 1] == a + b[..|b| - 1];
      WholeLinesAppend(a, b[..|b| - 1]);
    }
  }

  // The whole lines of s + t are those of s and then those of what s left
  // over followed by t.
  lemma WholeLinesConcat(s: string, t: string)
    ensures var n, rest := WholeLines(s), s[WholeLines(s)..] + t;
            && WholeLines(s + t) == n + WholeLines(rest)
            && (s + t)[..WholeLines(s + t)] == s[..n] + rest[..WholeLines(rest)]
  {
    var n := WholeLines(s);
    var rest := s[n..] + t;
    assert s + t == s[..n] + rest;
    WholeLinesAppend(s[..n], rest);
    PrefixOfConcat(s[..n], rest, WholeLines(rest));
  }

  lemma PrefixOfConcat(a: string, b: string, n: nat)
    requires n <= |b|
    ensures (a + b)[..|a| + n] == a + b[..n]
  {
  }

  function ParseFrom(g: Grammar, v: ReqVal, s: string): (r: (ReqVal, int))
    requires v.InHeader()
    ensures GoodParse(v, s[..WholeLines(s)], r)
  {
    ParseBlock(g, v, s[..WholeLines(s)])
  }

  function OneShot(g: Grammar, s: string): (ReqVal, int) {
    ParseFrom(g, Blank, s)
  }

  // More bytes continue the parse of what was there.
  lemma ParseFromConcat(g: Grammar, v: ReqVal, s: string, t: string)
    requires v.InHeader()
    ensures var rest := s[WholeLines(s)..] + t;
            ParseFrom(g, v, s + t) == Continue(g, ParseFrom(g, v, s), rest[..WholeLines(rest)])
  {
    var n := WholeLines(s);
    var rest := s[n..] + t;
    var m := WholeLines(rest);
    WholeLinesConcat(s, t);
    ParseBlockConcat(g, v, s[..n], rest[..m]);
  }

  // Once the header of a stream is complete or bad, later bytes do not matter.
  lemma OneShotStable(g: Grammar, s: string, t: string)
    requires OneShot(g, s).1 < 0 || OneShot(g, s).0.phase == REQ_BODY
    ensures OneShot(g, s + t) == OneShot(g, s)
  {
    ParseFromConcat(g, Blank, s, t);
  }

  // A complete header parses the same without the bytes behind it.
  lemma HeadAlone(g: Grammar, v: ReqVal, s: string)
    requires v.InHeader() && ParseFrom(g, v, s).0.phase == REQ_BODY
    ensures var end := ParseFrom(g, v, s).1;
            0 < end <= |s| && IsBlock(s[..end]) && ParseBlock(g, v, s[..end]) == ParseFrom(g, v, s)
  {
    var n, r := WholeLines(s), ParseFrom(g, v, s);
    var a, b := s[..r.1], s[r.1..n];
    assert s[..n] == a + b;
    assert IsBlock(a) by {
      assert a[r.1 - 1] == s[..n][r.1 - 1];
    }
    assert IsBlock(b) by {
      assert b != "" ==> b[|b| - 1] == s[..n][n - 1];
    }
    ParseBlockConcat(g, v, a, b);
  }
}
