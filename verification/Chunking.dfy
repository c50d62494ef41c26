/** Chunking does not matter: what a connection knows after any sequence of
    receives depends on the bytes alone.  Pipelined requests come out one by
    one, and no byte is lost or duplicated. */
module Chunking {
  import opened Text
  import opened Buffers
  import opened RequestSpec
  import opened ConnSpec

  // ---------- one receive ----------

  // The error callback, as far as the connection goes.
  function Rejected(c: ConnVal, err: nat): ConnVal {
    if err > 0 then c.(req := Aborted(c.req), resp := c.resp.(phase := RESP_ABORT, status := err)) else c
  }

  // The body bytes of a dynamic request are passed on before the next
  // receive.
  function Drained(c: ConnVal): ConnVal {
    if (c.req.phase == REQ_BODY || c.req.phase == REQ_DONE) && c.req.line.kind == REQ_DYNAMIC
    then c.(buf := EmptyBuf, log := c.log.(toCgi := c.log.toCgi + c.buf.Window()))
    else c
  }

  function Receive(g: Grammar, c: ConnVal, chunk: string): ConnVal {
    var r := Recv(g, c, Got(chunk));
    Drained(Rejected(r.c, r.err))
  }

  // recv never returns more than it was offered room for.
  function Room(c: ConnVal): int {
    if c.req.phase == REQ_ABORT || c.buf.sz == BUFSZ then BUFSZ else BUFSZ - c.buf.sz
  }

  // ---------- the state the bytes determine ----------

  // Bytes of s that are missing, or there are too many of (negative), for a
  // request whose header ends at `end` and asks for clen body bytes.
  function Left(s: string, end: int, clen: int): int {
    clen - (|s| - end)
  }

  // The connection is in its header; the first `end` bytes are parsed.
  ghost predicate InHeaderOf(c: ConnVal, s: string, v: ReqVal, end: int) {
    && c.req == v && |s| <= BUFSZ && c.log.fed == s
    && 0 <= end <= |s| && c.buf == BufVal(|s|, s, end) && c.last == EmptyBuf
    && c.resp == FreshResp && c.cgi.phase == CGI_IDLE && c.log.toCgi == ""
  }

  // The connection is in its body or has all of it.
  ghost predicate InBodyOf(c: ConnVal, s: string, v: ReqVal, end: int) {
    var left := Left(s, end, v.head.clen);
    && 0 <= end <= |s| && c.log.fed == s
    && c.req == v.(rsize := left, phase := if left > 0 then REQ_BODY else REQ_DONE)
    && c.buf == EmptyBuf
    && c.last == (if left < 0 then Filled(Suffix(s, -left)) else EmptyBuf)
    && (v.line.kind == REQ_DYNAMIC ==> c.log.toCgi == Prefix(s[end..], v.head.clen))
    && (v.line.kind == REQ_STATIC ==> c.log.toCgi == "")
    && c.resp.phase != RESP_ABORT && c.last.sz <= BUFSZ
  }

  ghost predicate RejectedAs(c: ConnVal, v: ReqVal, status: int) {
    c.req == Aborted(v) && c.resp.phase == RESP_ABORT && c.resp.status == status
  }

  // What a connection must be after the bytes s, told from s alone: parse the
  // first BUFSZ bytes in one go.  A header that does not fit is rejected when
  // more bytes arrive.
  ghost predicate Canon(g: Grammar, c: ConnVal, s: string) {
    CanonAs(c, s, OneShot(g, Prefix(s, BUFSZ)))
  }

  ghost predicate CanonAs(c: ConnVal, s: string, r: (ReqVal, int)) {
    if r.1 < 0 then RejectedAs(c, r.0, -r.1)
    else if r.0.InHeader() then
      if |s| <= BUFSZ then InHeaderOf(c, s, r.0, r.1) else RejectedAs(c, r.0, 400)
    else InBodyOf(c, s, r.0, r.1)
  }

  lemma FreshIsCanon(g: Grammar, fd: nat)
    ensures Canon(g, FreshConn(fd), "")
  {
    assert Prefix("", BUFSZ) == "";
  }

  // ---------- one receive keeps the state canonical ----------

  // Bytes after a rejection, or after the header, do not change the verdict.
  lemma VerdictStable(g: Grammar, s: string, t: string)
    requires var r := OneShot(g, Prefix(s, BUFSZ)); r.1 < 0 || r.0.phase == REQ_BODY || |s| >= BUFSZ
    ensures OneShot(g, Prefix(s + t, BUFSZ)) == OneShot(g, Prefix(s, BUFSZ))
  {
    var a, b := Prefix(s, BUFSZ), Prefix(s + t, BUFSZ);
    if |s| >= BUFSZ {
      assert a == b;
    } else {
      assert b == s + Prefix(t, BUFSZ - |s|);
      OneShotStable(g, s, Prefix(t, BUFSZ - |s|));
    }
  }

  // Receiving in the header: the new whole lines continue the parse.
  lemma HeaderContinues(g: Grammar, s: string, t: string)
    requires var r := OneShot(g, s); r.1 >= 0 && r.0.InHeader()
    ensures var r := OneShot(g, s);
            var w := s[r.1..] + t;
            var q := ParseBlock(g, r.0, w[..WholeLines(w)]);
            OneShot(g, s + t) == (q.0, if q.1 < 0 then q.1 else r.1 + q.1)
  {
    ParseFromConcat(g, Blank, s, t);
  }

  // The header ends at `end`: what is behind it is body, and what is behind
  // the body is kept for the next request.
  lemma BodyStarts(c: ConnVal, s: string, v: ReqVal, end: nat)
    requires end <= |s| <= BUFSZ && c.buf == BufVal(|s|, s, end) && c.last == EmptyBuf && c.log.fed == s
    requires c.req == v && v.phase == REQ_BODY && v.rsize == v.head.clen >= 0
    requires c.resp == FreshResp && c.cgi.phase == CGI_IDLE && c.log.toCgi == ""
    ensures InBodyOf(Drained(TakeBody(c)), s, v, end)
  {
    var left := Left(s, end, v.head.clen);
    assert c.buf.Window() == s[end..];
    if left < 0 {
      assert Prefix(s, |s| + left)[end..] == Prefix(s[end..], v.head.clen);
    } else {
      assert s[end..] == Prefix(s[end..], v.head.clen);
    }
  }

  // cn_parse_req on new bytes, with the error callback, drained.
  function Taken(r: (ConnVal, Call)): ConnVal {
    Drained(Rejected(r.0, if r.1.Err? then r.1.status else 0))
  }

  // A receive in the header, by what the parser makes of the new lines.
  lemma LinesRejected(c: ConnVal, s: string, lines: string, n: nat, v0: ReqVal, end: nat, q: (ReqVal, int))
    requires InHeaderOf(c, s, v0, end) && v0.InHeader() && GoodParse(v0, lines, q) && q.1 < 0
    ensures RejectedAs(Taken(AfterParse(c, n, q)), q.0, -q.1)
  {
  }

  lemma LinesTaken(c: ConnVal, s: string, n: nat, v0: ReqVal, end: nat, q: (ReqVal, int))
    requires InHeaderOf(c, s, v0, end) && v0.InHeader() && 0 <= q.1 <= |s| - end && q.0.InHeader()
    ensures InHeaderOf(Taken(AfterParse(c, n, q)), s, q.0, end + q.1)
  {
  }

  lemma LinesEndHeader(c: ConnVal, s: string, n: nat, v0: ReqVal, end: nat, q: (ReqVal, int))
    requires InHeaderOf(c, s, v0, end) && v0.InHeader() && 0 <= q.1 <= |s| - end
    requires q.0.phase == REQ_BODY && q.0.rsize == q.0.head.clen >= 0
    ensures InBodyOf(Taken(AfterParse(c, n, q)), s, q.0, end + q.1)
  {
    BodyStarts(c.(req := q.0, buf := c.buf.(dp := end + q.1)), s, q.0, end + q.1);
  }

  lemma FedInHeader(c: ConnVal, s: string, t: string, v: ReqVal, end: int)
    requires InHeaderOf(c, s, v, end) && |s| + |t| <= BUFSZ
    ensures InHeaderOf(Fed(c, t), s + t, v, end) && Fed(c, t).buf.Window() == s[end..] + t
  {
    assert (s + t)[end..] == s[end..] + t;
  }

  lemma ReceiveInHeader(g: Grammar, c: ConnVal, s: string, t: string, v: ReqVal, end: int)
    requires InHeaderOf(c, s, v, end) && v.InHeader() && t != "" && |s| + |t| <= BUFSZ
    ensures Receive(g, c, t) == Taken(ParseReq(g, Fed(c, t)))
  {
    assert Prefix(t, BUFSZ - |s|) == t;
    RecvParses(g, c, t);
  }

  lemma RecvParses(g: Grammar, c: ConnVal, t: string)
    requires c.req.InHeader() && c.buf.sz < BUFSZ && t != "" && Prefix(t, BUFSZ - c.buf.sz) == t
    ensures var r := ParseReq(g, Fed(c, t));
            Recv(g, c, Got(t)) == RecvOut(r.0, if r.1.Err? then r.1.status else 0, false)
  {
  }

  // d has the new bytes and n bytes of whole lines behind `end`; the parser
  // makes q of them.
  lemma HeaderCases(d: ConnVal, s: string, lines: string, n: nat, v: ReqVal, end: int, q: (ReqVal, int))
    requires InHeaderOf(d, s, v, end) && v.InHeader() && 0 <= end && end + n <= |s| && |lines| == n
    requires GoodParse(v, lines, q) && (n == 0 ==> q == (v, 0))
    ensures CanonAs(Taken(if n == 0 then (d, NoCall) else AfterParse(d, n, q)), s,
                    (q.0, if q.1 < 0 then q.1 else end + q.1))
  {
    if n > 0 {
      if q.1 < 0 {
        LinesRejected(d, s, lines, n, v, end, q);
      } else if q.0.InHeader() {
        LinesTaken(d, s, n, v, end, q);
      } else {
        LinesEndHeader(d, s, n, v, end, q);
      }
    }
  }

  lemma ParseReqInHeader(g: Grammar, d: ConnVal)
    requires d.req.InHeader()
    ensures var w := d.buf.Window();
            var n := WholeLines(w);
            var q := ParseBlock(g, d.req, w[..n]);
            && ParseReq(g, d) == (if n == 0 then (d, NoCall) else AfterParse(d, n, q))
            && GoodParse(d.req, w[..n], q) && (n == 0 ==> q == (d.req, 0))
  {
    if WholeLines(d.buf.Window()) == 0 {
      assert d.buf.Window()[..0] == "";
    }
  }

  // The whole parse comes to `all`.
  lemma StepInHeader(g: Grammar, c: ConnVal, s: string, t: string, v: ReqVal, end: int, all: (ReqVal, int))
    requires InHeaderOf(c, s, v, end) && v.InHeader() && 0 <= end && t != "" && |s| + |t| <= BUFSZ
    requires var w := s[end..] + t;
             var q := ParseBlock(g, v, w[..WholeLines(w)]);
             all == (q.0, if q.1 < 0 then q.1 else end + q.1)
    ensures CanonAs(Receive(g, c, t), s + t, all)
  {
    var w := s[end..] + t;
    var n := WholeLines(w);
    ReceiveLines(g, c, s, t, v, end);
    FedInHeader(c, s, t, v, end);
    HeaderCases(Fed(c, t), s + t, w[..n], n, v, end, ParseBlock(g, v, w[..n]));
  }

  // A receive in the header hands the whole lines to the parser.
  lemma ReceiveLines(g: Grammar, c: ConnVal, s: string, t: string, v: ReqVal, end: int)
    requires InHeaderOf(c, s, v, end) && v.InHeader() && 0 <= end && t != "" && |s| + |t| <= BUFSZ
    ensures var w := s[end..] + t;
            var n := WholeLines(w);
            var q := ParseBlock(g, v, w[..n]);
            && Receive(g, c, t) == Taken(if n == 0 then (Fed(c, t), NoCall) else AfterParse(Fed(c, t), n, q))
            && GoodParse(v, w[..n], q) && (n == 0 ==> q == (v, 0))
  {
    FedInHeader(c, s, t, v, end);
    ReceiveInHeader(g, c, s, t, v, end);
    ParseReqInHeader(g, Fed(c, t));
  }

  lemma CanonInHeader(g: Grammar, c: ConnVal, s: string, t: string)
    requires var r := OneShot(g, s); InHeaderOf(c, s, r.0, r.1) && r.1 >= 0 && r.0.InHeader()
    requires t != "" && |s| + |t| <= BUFSZ
    ensures Canon(g, Receive(g, c, t), s + t)
  {
    var r := OneShot(g, s);
    HeaderContinues(g, s, t);
    FitsPrefix(s + t);
    StepInHeader(g, c, s, t, r.0, r.1, OneShot(g, Prefix(s + t, BUFSZ)));
  }

  lemma FitsPrefix(s: string)
    requires |s| <= BUFSZ
    ensures Prefix(s, BUFSZ) == s
  {
  }

  // ---------- the other phases ----------

  lemma CanonRejected(g: Grammar, c: ConnVal, s: string, t: string)
    requires Canon(g, c, s) && c.req.phase == REQ_ABORT && t != "" && |t| <= BUFSZ
    requires OneShot(g, Prefix(s, BUFSZ)).0.phase != REQ_BODY
    ensures Canon(g, Receive(g, c, t), s + t)
  {
    VerdictStable(g, s, t);
  }

  lemma CanonTooLarge(g: Grammar, c: ConnVal, s: string, t: string)
    requires Canon(g, c, s) && c.req.InHeader() && |s| == BUFSZ && t != "" && |t| <= BUFSZ
    ensures Canon(g, Receive(g, c, t), s + t)
  {
    VerdictStable(g, s, t);
  }

  // More body: the count goes down by what came, too much is kept.
  lemma BodyGoesOn(c: ConnVal, s: string, v: ReqVal, end: int, t: string)
    requires InBodyOf(c, s, v, end) && c.req.phase == REQ_BODY && v.head.clen >= 0
    requires |t| <= BUFSZ
    ensures InBodyOf(Drained(TakeBody(Fed(c, t))), s + t, v, end)
  {
    var d := Fed(c, t);
    assert d.buf == BufVal(|t|, t, 0) && d.buf.Window() == t;
    var left := Left(s + t, end, v.head.clen);
    assert (s + t)[end..] == s[end..] + t;
    if left < 0 {
      assert Suffix(s + t, -left) == Suffix(t, -left);
      assert Prefix(s[end..] + t, v.head.clen) == s[end..] + Prefix(t, |t| + left);
    }
  }

  lemma CanonInBody(g: Grammar, c: ConnVal, s: string, t: string)
    requires Canon(g, c, s) && c.req.phase == REQ_BODY && t != "" && |t| <= BUFSZ
    ensures Canon(g, Receive(g, c, t), s + t)
  {
    var r := OneShot(g, Prefix(s, BUFSZ));
    VerdictStable(g, s, t);
    BodyReceived(g, c, t);
    BodyGoesOn(c, s, r.0, r.1, t);
  }

  lemma BodyReceived(g: Grammar, c: ConnVal, t: string)
    requires c.req.phase == REQ_BODY && c.buf == EmptyBuf && t != "" && |t| <= BUFSZ
    ensures Receive(g, c, t) == Drained(TakeBody(Fed(c, t)))
  {
    assert Prefix(t, BUFSZ) == t;
  }

  // Whatever the phase, as long as the server receives, one receive of any
  // size keeps the state what its bytes say.
  lemma ReceiveCanon(g: Grammar, c: ConnVal, s: string, t: string)
    requires Canon(g, c, s) && c.req.phase != REQ_DONE && t != "" && |t| <= Room(c)
    ensures Canon(g, Receive(g, c, t), s + t)
  {
    assert |s| <= BUFSZ ==> Prefix(s, BUFSZ) == s;
    match c.req.phase
    case REQ_ABORT => CanonRejected(g, c, s, t);
    case REQ_BODY => CanonInBody(g, c, s, t);
    case _ => if |s| == BUFSZ { CanonTooLarge(g, c, s, t); } else { CanonInHeader(g, c, s, t); }
  }

  // ---------- any sequence of receives ----------

  function Concat(chunks: seq<string>): string {
    if chunks == [] then "" else chunks[0] + Concat(chunks[1..])
  }

  // The server stops receiving when the request is complete.
  function FeedAll(g: Grammar, c: ConnVal, chunks: seq<string>): ConnVal
    decreases |chunks|
  {
    if chunks == [] || c.req.phase == REQ_DONE then c else FeedAll(g, Receive(g, c, chunks[0]), chunks[1..])
  }

  // The bytes taken from the client meanwhile.
  function Eaten(g: Grammar, c: ConnVal, chunks: seq<string>): string
    decreases |chunks|
  {
    if chunks == [] || c.req.phase == REQ_DONE then ""
    else chunks[0] + Eaten(g, Receive(g, c, chunks[0]), chunks[1..])
  }

  // The chunks are what recv can return: some bytes, not more than there is
  // room for.
  ghost predicate Fits(g: Grammar, c: ConnVal, chunks: seq<string>)
    decreases |chunks|
  {
    chunks != [] && c.req.phase != REQ_DONE ==>
      0 < |chunks[0]| <= Room(c) && Fits(g, Receive(g, c, chunks[0]), chunks[1..])
  }

  lemma {:induction false} FeedCanon(g: Grammar, c: ConnVal, s: string, chunks: seq<string>)
    requires Canon(g, c, s) && Fits(g, c, chunks)
    ensures Canon(g, FeedAll(g, c, chunks), s + Eaten(g, c, chunks))
    decreases |chunks|
  {
    if chunks == [] || c.req.phase == REQ_DONE {
      assert s + "" == s;
    } else {
      var c1 := Receive(g, c, chunks[0]);
      ReceiveCanon(g, c, s, chunks[0]);
      FeedCanon(g, c1, s + chunks[0], chunks[1..]);
      Regroup(s, chunks[0], Eaten(g, c1, chunks[1..]));
    }
  }

  lemma {:induction false} EatenIsPrefix(g: Grammar, c: ConnVal, chunks: seq<string>)
    ensures Eaten(g, c, chunks) <= Concat(chunks)
    ensures FeedAll(g, c, chunks).req.phase != REQ_DONE ==> Eaten(g, c, chunks) == Concat(chunks)
    decreases |chunks|
  {
    if chunks != [] && c.req.phase != REQ_DONE {
      EatenIsPrefix(g, Receive(g, c, chunks[0]), chunks[1..]);
    }
  }

  // What became of a request: rejected with a status, still coming, or
  // complete with the bytes that were its own.
  datatype Verdict =
    | Rejected_(req: ReqVal, status: int)
    | Coming(req: ReqVal)
    | Complete(line: ReqLine, head: ReqHead, taken: string)

  function VerdictOf(c: ConnVal): Verdict {
    match c.req.phase
    case REQ_ABORT => Rejected_(c.req, c.resp.status)
    case REQ_DONE => Complete(c.req.line, c.req.head, Prefix(c.log.fed, |c.log.fed| - |c.last.bytes|))
    case _ => Coming(c.req)
  }

  // The same from the stream alone, parsed in one shot.
  function OneShotVerdict(g: Grammar, s: string): Verdict {
    VerdictFrom(OneShot(g, Prefix(s, BUFSZ)), s)
  }

  function VerdictFrom(r: (ReqVal, int), s: string): Verdict {
    if r.1 < 0 then Rejected_(r.0, -r.1)
    else if r.0.InHeader() then
      if |s| <= BUFSZ then Coming(r.0) else Rejected_(Aborted(r.0), 400)
    else if Left(s, r.1, r.0.head.clen) > 0 then Coming(r.0.(rsize := Left(s, r.1, r.0.head.clen)))
    else Complete(r.0.line, r.0.head, Prefix(s, r.1 + r.0.head.clen))
  }

  lemma CanonAsVerdict(c: ConnVal, s: string, r: (ReqVal, int))
    requires CanonAs(c, s, r) && (r.1 < 0 ==> r.0.phase == REQ_ABORT)
    requires r.1 >= 0 ==> r.0.InHeader() || (r.0.phase == REQ_BODY && r.0.head.clen >= 0)
    ensures VerdictOf(c) == VerdictFrom(r, s)
    ensures c.req.phase == REQ_DONE ==> VerdictOf(c).taken + c.last.bytes == s == c.log.fed
  {
    if c.req.phase == REQ_DONE {
      var k := r.1 + r.0.head.clen;
      assert |c.last.bytes| == |s| - k;
    }
  }

  lemma CompleteStays(r: (ReqVal, int), s: string, t: string)
    requires VerdictFrom(r, s).Complete? && 0 <= r.1 <= |s| && r.0.head.clen >= 0
    ensures VerdictFrom(r, s + t) == VerdictFrom(r, s)
  {
    var k := r.1 + r.0.head.clen;
    assert Prefix(s + t, k) == Prefix(s, k);
  }

  lemma CanonVerdict(g: Grammar, c: ConnVal, s: string, t: string)
    requires Canon(g, c, s) && (c.req.phase != REQ_DONE ==> t == "")
    ensures VerdictOf(c) == OneShotVerdict(g, s + t)
    ensures c.req.phase == REQ_DONE ==> VerdictOf(c).taken + c.last.bytes == s == c.log.fed
  {
    CanonAsVerdict(c, s, OneShot(g, Prefix(s, BUFSZ)));
    if c.req.phase == REQ_DONE {
      VerdictStable(g, s, t);
      CompleteStays(OneShot(g, Prefix(s, BUFSZ)), s, t);
    } else {
      assert s + t == s;
    }
  }

  lemma FedFresh(g: Grammar, fd: nat, chunks: seq<string>)
    requires Fits(g, FreshConn(fd), chunks)
    ensures Canon(g, FeedAll(g, FreshConn(fd), chunks), Eaten(g, FreshConn(fd), chunks))
  {
    FreshIsCanon(g, fd);
    FeedCanon(g, FreshConn(fd), "", chunks);
    assert "" + Eaten(g, FreshConn(fd), chunks) == Eaten(g, FreshConn(fd), chunks);
  }

  // However a stream is cut into receives, a fresh connection comes to the
  // verdict of one-shot parsing; and a complete request has taken its header
  // and body, while last_buf holds exactly the other bytes received.
  lemma ChunkingIndependent(g: Grammar, fd: nat, chunks: seq<string>)
    requires Fits(g, FreshConn(fd), chunks)
    ensures var c, fed := FeedAll(g, FreshConn(fd), chunks), Eaten(g, FreshConn(fd), chunks);
            && VerdictOf(c) == OneShotVerdict(g, Concat(chunks))
            && fed <= Concat(chunks)
            && (c.req.phase == REQ_DONE ==> VerdictOf(c).taken + c.last.bytes == fed)
            && (c.req.phase != REQ_DONE ==> fed == Concat(chunks))
  {
    FedFresh(g, fd, chunks);
    EatenIsPrefix(g, FreshConn(fd), chunks);
    Verdicts(g, FeedAll(g, FreshConn(fd), chunks), Eaten(g, FreshConn(fd), chunks), Concat(chunks));
  }

  lemma Verdicts(g: Grammar, c: ConnVal, fed: string, all: string)
    requires Canon(g, c, fed) && fed <= all && (c.req.phase != REQ_DONE ==> fed == all)
    ensures VerdictOf(c) == OneShotVerdict(g, all)
    ensures c.req.phase == REQ_DONE ==> VerdictOf(c).taken + c.last.bytes == fed
  {
    assert all == fed + all[|fed|..];
    CanonVerdict(g, c, fed, all[|fed|..]);
  }
}
