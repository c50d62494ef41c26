/** Bytes through the main loop: the request is what the client's bytes say,
    the program gets exactly the body, the client gets exactly what the program
    wrote or exactly header and file. */
module Relay {
  import opened Text
  import opened Buffers
  import opened RequestSpec
  import opened ConnSpec
  import opened ConnInv
  import opened ServerSpec
  import opened LoopInv
  import opened Chunking

  // ---------- the invariant ----------

  // The connection with the buffer emptied: body bytes count as passed on,
  // response bytes are not part of the request.
  function View(c: ConnVal): ConnVal {
    if c.req.phase != REQ_BODY && c.req.phase != REQ_DONE then c
    else if c.req.line.kind == REQ_STATIC || c.cgi.phase == CGI_CGI_TO_SRV || c.cgi.phase == CGI_DONE
    then c.(buf := EmptyBuf)
    else Drained(c)
  }

  // What the client has been promised and got.
  ghost predicate Answered(c: ConnVal) {
    if c.req.phase != REQ_DONE then c.log.sent == "" && c.log.fromCgi == ""
    else if c.req.line.kind == REQ_STATIC then
      match c.resp.phase
      case RESP_READY => c.log.sent == ""
      case RESP_HEADER =>
        && Mmbuf(c).dp == 0 && Mmbuf(c).bytes != "" && c.buf.Window() != ""
        && c.log.sent + c.buf.Window() + Mmbuf(c).bytes == c.log.page
      case RESP_BODY => Mmbuf(c).Rest() != "" && c.log.sent + Mmbuf(c).Rest() == c.log.page
      case _ => true
    else if c.cgi.phase == CGI_CGI_TO_SRV || c.cgi.phase == CGI_DONE then
      c.log.sent + (if c.cgi.bufPhase == BUF_SEND then c.buf.Window() else "") == c.log.fromCgi
    else c.log.sent == "" && c.log.fromCgi == ""
  }

  // Unless the request failed: it is what one-shot parsing of its bytes
  // gives, body bytes passed on and still buffered are the body so far, and
  // the answer is on its way.
  ghost predicate Exact(g: Grammar, c: ConnVal) {
    c.req.phase != REQ_ABORT ==> Canon(g, View(c), c.log.fed) && Answered(c)
  }

  // What holds of every connection in every run: a request whose own turns
  // lost nothing is exact.
  ghost predicate Faithful(g: Grammar, c: ConnVal) {
    !c.log.lossy ==> Exact(g, c)
  }

  lemma FreshIsExact(g: Grammar, fd: nat)
    ensures Exact(g, FreshConn(fd))
  {
    FreshIsCanon(g, fd);
  }

  // In a complete dynamic request whose body was passed on, the program got
  // exactly the clen bytes behind the header.
  lemma BodyDelivered(g: Grammar, c: ConnVal)
    requires Exact(g, c) && c.req.phase == REQ_DONE && c.req.line.kind == REQ_DYNAMIC
    requires c.cgi.phase == CGI_CGI_TO_SRV || c.cgi.phase == CGI_DONE
    ensures var end := OneShot(g, Prefix(c.log.fed, BUFSZ)).1;
            && 0 <= end && end + c.req.head.clen <= |c.log.fed| && 0 <= c.req.head.clen
            && c.log.toCgi == c.log.fed[end..end + c.req.head.clen]
            && c.log.fed == c.log.fed[..end] + c.log.toCgi + c.last.bytes
  {
    var r := OneShot(g, Prefix(c.log.fed, BUFSZ));
    BodyOf(View(c), c.log.fed, r.0, r.1);
  }

  // A complete dynamic request, from the parse of its header alone.
  lemma BodyOf(c: ConnVal, s: string, v: ReqVal, end: int)
    requires InBodyOf(c, s, v, end) && c.req.phase == REQ_DONE && v.line.kind == REQ_DYNAMIC && v.head.clen >= 0
    ensures 0 <= end && end + v.head.clen <= |s|
    ensures c.log.toCgi == s[end..end + v.head.clen] && s == s[..end] + c.log.toCgi + c.last.bytes
  {
    var clen := v.head.clen;
    assert Prefix(s[end..], clen) == s[end..end + clen];
    assert c.last.bytes == s[end + clen..];
    assert s == s[..end] + s[end..end + clen] + s[end + clen..];
  }

  // While the body comes in: what the program got, what is buffered and what
  // is missing add up to the declared length.
  lemma BodyAddsUp(g: Grammar, c: ConnVal)
    requires Exact(g, c) && c.req.phase == REQ_BODY && c.req.line.kind == REQ_DYNAMIC
    requires c.cgi.phase != CGI_CGI_TO_SRV && c.cgi.phase != CGI_DONE
    ensures |c.log.toCgi| + |c.buf.Window()| + c.req.rsize == c.req.head.clen
    ensures var end := OneShot(g, Prefix(c.log.fed, BUFSZ)).1;
            0 <= end <= |c.log.fed| && c.log.toCgi + c.buf.Window() == c.log.fed[end..]
  {
    var s := c.log.fed;
    var r := OneShot(g, Prefix(s, BUFSZ));
    assert Prefix(s[r.1..], r.0.head.clen) == s[r.1..];
  }

  // ---------- receiving ----------

  lemma RecvFaithful(g: Grammar, l: Local, input: Input)
    requires Inv(l) && l.c.req.phase != REQ_DONE && Faithful(g, l.c)
    requires LisoRecv(g, l, input).Kept?
    ensures Faithful(g, LisoRecv(g, l, input).l.c)
  {
    var c := l.c;
    if c.req.phase != REQ_ABORT && BUFSZ - c.buf.sz > 0 && input != Failed && input.bytes != "" {
      var t := Prefix(input.bytes, BUFSZ - c.buf.sz);
      RecvIsParse(g, c, t, input);
      ParseTouches(g, Fed(c, t));
      if !Fed(c, t).log.lossy {
        BytesExact(g, c, t, input);
      }
    }
  }

  // Some bytes arrive.
  lemma BytesExact(g: Grammar, c: ConnVal, t: string, input: Input)
    requires Sane(c) && Coupled(c) && Exact(g, c) && c.req.phase in {REQ_START, REQ_HEADER, REQ_BODY} && !Undrained(c)
    requires input.Got? && input.bytes != "" && BUFSZ - c.buf.sz > 0 && t == Prefix(input.bytes, BUFSZ - c.buf.sz)
    ensures Recv(g, c, input).err > 0 || Exact(g, Recv(g, c, input).c)
  {
    ReceiveCanon(g, View(c), c.log.fed, t);
    ReceiveView(g, c, t, input);
    FedOk(c, t);
    ParseReqOk(g, Fed(c, t));
    RecvIsParse(g, c, t, input);
  }

  // A parse changes the request part only; a static body is dropped.
  ghost predicate Touched(d: ConnVal, e: ConnVal) {
    && e.log == d.log && (e.resp.phase == d.resp.phase || e.resp.phase == RESP_DISABLED)
    && e.cgi.phase != CGI_CGI_TO_SRV && e.cgi.phase != CGI_DONE
    && (d.req.phase != REQ_DONE && e.req.phase in {REQ_BODY, REQ_DONE} && e.req.line.kind == REQ_STATIC ==>
          e.buf == EmptyBuf)
  }

  lemma ParseTouches(g: Grammar, d: ConnVal)
    requires d.cgi.phase != CGI_CGI_TO_SRV && d.cgi.phase != CGI_DONE
    ensures Touched(d, ParseReq(g, d).0)
  {
    if d.req.InHeader() {
      var w := d.buf.Window();
      var n := WholeLines(w);
      ParseReqInHeader(g, d);
      if n > 0 {
        LinesTouch(d, n, ParseBlock(g, d.req, w[..n]), w[..n]);
      }
    } else {
      TakeBodyTouches(d);
    }
  }

  lemma LinesTouch(d: ConnVal, n: nat, r: (ReqVal, int), lines: string)
    requires d.req.InHeader() && d.cgi.phase != CGI_CGI_TO_SRV && d.cgi.phase != CGI_DONE
    requires GoodParse(d.req, lines, r)
    ensures Touched(d, AfterParse(d, n, r).0)
  {
    if r.1 >= 0 {
      TakeBodyTouches(d.(req := r.0, buf := d.buf.(dp := d.buf.dp + r.1)));
    }
  }

  lemma TakeBodyTouches(d: ConnVal)
    ensures var e := TakeBody(d);
            && e.log == d.log && e.req.line == d.req.line
            && (e.resp.phase == d.resp.phase || e.resp.phase == RESP_DISABLED)
            && (e.cgi.phase == d.cgi.phase || e.cgi.phase in {CGI_READY, CGI_DISABLED})
            && (d.req.phase == REQ_BODY && d.req.line.kind == REQ_STATIC ==> e.buf == EmptyBuf)
            && (d.req.phase != REQ_BODY ==> e == d)
  {
  }

  lemma RecvIsParse(g: Grammar, c: ConnVal, t: string, input: Input)
    requires c.req.phase != REQ_ABORT
    requires input.Got? && input.bytes != "" && BUFSZ - c.buf.sz > 0 && t == Prefix(input.bytes, BUFSZ - c.buf.sz)
    ensures Recv(g, c, input).c == ParseReq(g, Fed(c, t)).0
    ensures Recv(g, c, input).err == (if ParseReq(g, Fed(c, t)).1.Err? then ParseReq(g, Fed(c, t)).1.status else 0)
  {
  }

  // Receiving into the connection is receiving into its view, whose buffer is
  // empty, as long as no body bytes are buffered.
  lemma ReceiveView(g: Grammar, c: ConnVal, t: string, input: Input)
    requires Sane(c) && Coupled(c) && c.req.phase in {REQ_START, REQ_HEADER, REQ_BODY} && !Undrained(c)
    requires input.Got? && input.bytes != "" && BUFSZ - c.buf.sz > 0 && t == Prefix(input.bytes, BUFSZ - c.buf.sz)
    requires Answered(c)
    ensures var d := ParseReq(g, Fed(c, t)).0;
            && Recv(g, c, input).c == d
            && (ParseReq(g, Fed(c, t)).1 == NoCall ==>
                  View(d) == Receive(g, View(c), t) && d.log.fed == c.log.fed + t && Answered(d))
  {
    ParseTouches(g, Fed(c, t));
    RecvIsParse(g, c, t, input);
    if c.req.phase == REQ_BODY {
      BodyView(g, c, t);
    } else {
      HeaderView(g, c, t);
    }
  }

  lemma HeaderView(g: Grammar, c: ConnVal, t: string)
    requires c.req.InHeader() && c.cgi.phase == CGI_IDLE && t != "" && |t| <= BUFSZ - c.buf.sz
    ensures ParseReq(g, Fed(c, t)).1 == NoCall ==> View(ParseReq(g, Fed(c, t)).0) == Receive(g, View(c), t)
  {
    ParseTouches(g, Fed(c, t));
    assert Prefix(t, BUFSZ - c.buf.sz) == t;
    RecvIsParse(g, c, t, Got(t));
  }

  lemma BodyView(g: Grammar, c: ConnVal, t: string)
    requires Sane(c) && Coupled(c) && c.req.phase == REQ_BODY && !Undrained(c)
    requires t != "" && c.buf.sz >= 0 && |t| <= BUFSZ - c.buf.sz
    ensures View(TakeBody(Fed(c, t))) == Receive(g, View(c), t) && (Answered(c) ==> Answered(TakeBody(Fed(c, t))))
  {
    BodyReceived(g, View(c), t);
    OffsetIrrelevant(c, t);
  }

  // Where in the buffer a body arrives does not matter.
  lemma OffsetIrrelevant(c: ConnVal, t: string)
    requires InBounds(c) && c.req.phase == REQ_BODY && !Undrained(c) && Emptied(c) && c.buf.sz >= 0
    requires t != "" && |t| <= BUFSZ - c.buf.sz
    requires c.cgi.phase != CGI_CGI_TO_SRV && c.cgi.phase != CGI_DONE
    ensures View(TakeBody(Fed(c, t))) == Drained(TakeBody(Fed(View(c), t)))
  {
    assert c.log.toCgi + "" == c.log.toCgi;
    Behind(c.buf.bytes, t, c.req.rsize - |t|);
    assert Fed(c, t).buf.Window() == t && Fed(View(c), t).buf.Window() == t;
    if c.req.line.kind == REQ_DYNAMIC {
      DynamicOffset(c, t);
    }
  }

  // The surplus and the rest of t are the same behind any bytes.
  lemma Behind(front: string, t: string, left: int)
    requires -left <= |t|
    ensures left < 0 ==> Suffix(front + t, -left) == Suffix("" + t, -left)
    ensures left < 0 ==> Prefix(front + t, |front + t| + left)[|front|..] == Prefix("" + t, |"" + t| + left)
    ensures (front + t)[|front|..] == t
  {
    assert "" + t == t;
  }

  lemma DynamicOffset(c: ConnVal, t: string)
    requires InBounds(c) && c.req.phase == REQ_BODY && c.req.line.kind == REQ_DYNAMIC && c.buf.sz >= 0
    requires c.buf.Window() == "" && t != "" && c.log.toCgi + "" == c.log.toCgi
    requires c.cgi.phase != CGI_CGI_TO_SRV && c.cgi.phase != CGI_DONE
    ensures View(TakeBody(Fed(c, t))) == Drained(TakeBody(Fed(View(c), t)))
  {
    var left, a, b := c.req.rsize - |t|, TakeBody(Fed(c, t)), TakeBody(Fed(View(c), t));
    Behind(c.buf.bytes, t, left);
    assert Fed(c, t).buf.Window() == t && Fed(View(c), t).buf.Window() == t;
    assert a.buf.Window() == b.buf.Window();
  }

  // ---------- transitions ----------

  // The request part of the invariant does not depend on the answer.
  lemma CanonIgnoresAnswer(g: Grammar, a: ConnVal, b: ConnVal, s: string)
    requires Canon(g, a, s) && a.req.phase in {REQ_BODY, REQ_DONE} && b.resp.phase != RESP_ABORT
    requires b.req == a.req && b.buf == a.buf && b.last == a.last && b.log.fed == a.log.fed && b.log.toCgi == a.log.toCgi
    ensures Canon(g, b, s)
  {
  }

  lemma HeaderNotEmpty(clen: int, t: HdrText)
    ensures Header(clen, t) != ""
  {
    assert |"Content-Length: "| == 16;
  }

  lemma PrepareFaithful(g: Grammar, l: Local, tries: seq<Try>, t: HdrText)
    requires Inv(l) && Faithful(g, l.c)
    ensures Faithful(g, PrepareStep(l, tries, t).c)
  {
    if Prepares(l.c) {
      var file := Lookup(l.open, tries, N_TRIES).file;
      if Prepare(l.c, file, t).1 == NoCall && !Prepare(l.c, file, t).0.log.lossy {
        PreparedExact(g, l.c, file, t);
      }
    }
  }

  lemma PreparedExact(g: Grammar, c: ConnVal, file: Option<string>, t: HdrText)
    requires Prepares(c) && Exact(g, c) && Prepare(c, file, t).1 == NoCall && !Prepare(c, file, t).0.log.lossy
    ensures Exact(g, Prepare(c, file, t).0)
  {
    var d := Prepare(c, file, t).0;
    var header := Header(|file.value|, t);
    HeaderNotEmpty(|file.value|, t);
    CanonIgnoresAnswer(g, View(c), View(d), c.log.fed);
    assert d.buf.Window() == header;
    assert "" + header == header;
  }

  lemma SpawnFaithful(g: Grammar, l: Local, spawn: Spawn)
    requires Inv(l) && Faithful(g, l.c)
    ensures Faithful(g, SpawnStep(l, spawn).c)
  {
    var m := SpawnStep(l, spawn);
    if m.c != l.c && m.c.req.phase != REQ_ABORT && !l.c.log.lossy {
      CanonIgnoresAnswer(g, View(l.c), View(m.c), l.c.log.fed);
    }
  }

  lemma StreamFaithful(g: Grammar, l: Local, writes: seq<int>)
    requires Inv(l) && Faithful(g, l.c)
    ensures Faithful(g, StreamStep(l, writes).c)
  {
    var m := StreamStep(l, writes);
    if m.c != l.c && m.c.req.phase != REQ_ABORT && !m.c.log.lossy {
      StreamedAll(l, writes);
      CanonIgnoresAnswer(g, View(l.c), View(m.c), l.c.log.fed);
    }
  }

  // A stream step that succeeds and loses nothing has moved the whole window.
  lemma StreamedAll(l: Local, writes: seq<int>)
    requires Inv(l)
    ensures var m := StreamStep(l, writes);
            m.c != l.c && m.c.req.phase != REQ_ABORT && !m.c.log.lossy ==>
              && m.c.buf == EmptyBuf && m.c.log == l.c.log.(toCgi := l.c.log.toCgi + l.c.buf.Window())
              && m.c.req == l.c.req && m.c.last == l.c.last && m.c.resp == l.c.resp
              && l.c.cgi.phase == CGI_SRV_TO_CGI && l.c.req.line.kind == REQ_DYNAMIC
              && m.c.cgi.bufPhase == l.c.cgi.bufPhase
              && m.c.cgi.phase == (if l.c.req.phase == REQ_DONE then CGI_CGI_TO_SRV else CGI_SRV_TO_CGI)
  {
  }

  lemma FromCgiFaithful(g: Grammar, l: Local, rd: set<int>, input: Input)
    requires Inv(l) && Faithful(g, l.c)
    ensures Faithful(g, FromCgiStep(l, rd, input).c)
  {
    var m := FromCgiStep(l, rd, input);
    if m.c != l.c && m.c.req.phase != REQ_ABORT && !m.c.log.lossy {
      CanonIgnoresAnswer(g, View(l.c), View(m.c), l.c.log.fed);
      var s := Prefix(input.bytes, BUFSZ);
      assert l.c.log.sent + "" == l.c.log.sent;
      assert m.c.buf.Window() == s;
    }
  }

  // ---------- serving ----------

  // The next request starts from the bytes that came early.
  lemma RestartExact(g: Grammar, l: Local)
    requires l.c.last.Sane() && l.c.last.sz >= 0 && l.c.last.dp == 0 && ResetOrClose(g, l).Kept?
    ensures Exact(g, ResetOrClose(g, l).l.c)
  {
    var c, t := FreshConn(l.c.fd), l.c.last.bytes;
    FreshIsExact(g, l.c.fd);
    FreshIsCanon(g, l.c.fd);
    if l.c.last.sz != 0 {
      assert "" + t == t && Prefix(t, BUFSZ) == t;
      assert TakeLast(c.(last := l.c.last)) == Fed(c, t);
      ParseReqOk(g, Fed(c, t));
      ReceiveView(g, c, t, Got(t));
      ReceiveCanon(g, c, "", t);
    }
  }

  lemma DynFaithful(g: Grammar, l: Local, wr: set<int>, n: int)
    requires Inv(l) && Faithful(g, l.c) && DynStep(g, l, wr, n).Kept?
    ensures Faithful(g, DynStep(g, l, wr, n).l.c)
  {
    if l.c.req.line.kind == REQ_DYNAMIC && l.c.fd in wr && l.c.cgi.bufPhase == BUF_SEND {
      var r := ServeDynamic(l.c, n);
      if r.1 == Succ {
        RestartExact(g, l);
      } else if !r.0.log.lossy {
        RelayedExact(g, l.c, n);
      }
    }
  }

  lemma RelayedExact(g: Grammar, c: ConnVal, n: int)
    requires Sane(c) && Coupled(c) && Exact(g, c) && c.req.line.kind == REQ_DYNAMIC && c.cgi.bufPhase == BUF_SEND
    requires ServeDynamic(c, n).1 == NoCall && !ServeDynamic(c, n).0.log.lossy
    ensures Exact(g, ServeDynamic(c, n).0)
  {
    var d, w := ServeDynamic(c, n).0, c.buf.Window();
    assert w[..|w|] == w && d.log.sent + "" == d.log.sent;
    CanonIgnoresAnswer(g, View(c), View(d), c.log.fed);
  }

  // A send of part of what was due leaves the rest due.
  lemma SendSplits(sent: string, w: string, rest: string, n: nat)
    requires n <= |w|
    ensures (sent + w[..n]) + w[n..] + rest == sent + w + rest
  {
    assert w[..n] + w[n..] == w;
  }

  lemma SendHeaderExact(c: ConnVal, n: int)
    requires InBounds(c) && c.buf.sz >= 0 && Answered(c) && c.req.phase == REQ_DONE && c.req.line.kind == REQ_STATIC
    requires c.resp.phase == RESP_HEADER && SendHeader(c, n).1 != Fatal
    ensures var d := SendHeader(c, n).0; Answered(d) && d.log.page == c.log.page && |d.log.sent| > |c.log.sent|
  {
    var w, d := c.buf.Window(), SendHeader(c, n).0;
    var rc := Accepted(n, |w|);
    SendSplits(c.log.sent, w, Mmbuf(c).bytes, rc);
    assert d.buf.Window() == w[rc..];
    assert Mmbuf(c).Rest() == Mmbuf(c).bytes;
  }

  lemma SendBodyExact(c: ConnVal, n: int)
    requires InBounds(c) && Answered(c) && c.req.phase == REQ_DONE && c.req.line.kind == REQ_STATIC
    requires c.resp.phase == RESP_BODY && SendBody(c, n).1 != Fatal
    ensures var d := SendBody(c, n).0;
            && d.log.sent + Mmbuf(d).Rest() == d.log.page == c.log.page && |d.log.sent| > |c.log.sent|
            && (SendBody(c, n).1 == Succ <==> Mmbuf(d).Rest() == "")
  {
    var rc := BodySent(c, n);
    RestBehind(Mmbuf(c), rc);
    SentOn(c.log.sent, Mmbuf(c).Rest(), rc);
  }

  lemma BodySent(c: ConnVal, n: int) returns (rc: nat)
    requires SendBody(c, n).1 != Fatal
    ensures var w, d := Mmbuf(c).Rest(), SendBody(c, n).0;
            && 0 < rc <= |w| && Mmbuf(d) == Mapped(Mmbuf(c).bytes, Mmbuf(c).dp + rc)
            && d.log == c.log.(sent := c.log.sent + w[..rc]) && (SendBody(c, n).1 == Succ <==> rc == |w|)
  {
    var w := Mmbuf(c).Rest();
    rc := Accepted(n, if BUFSZ < |w| then BUFSZ else |w|);
  }

  // The cursor moves over n bytes of the file.
  lemma RestBehind(m: Mapped, n: nat)
    requires n <= |m.Rest()|
    ensures Mapped(m.bytes, m.dp + n).Rest() == m.Rest()[n..]
  {
  }

  lemma SentOn(sent: string, w: string, n: nat)
    requires n <= |w|
    ensures sent + w[..n] + w[n..] == sent + w && (w[n..] == "" <==> n == |w|)
  {
    SendSplits(sent, w, "", n);
  }

  // Static responses, under any partial sends.  What the client accepted is
  // always a prefix of header and file; every send that is not fatal brings
  // it nearer to the end; and for a request other than HEAD the success
  // callback is made exactly when all of it was accepted.
  lemma StaticResponse(c: ConnVal, n: int, t: HdrText, msg: string)
    requires Sane(c) && Coupled(c) && Answered(c) && c.req.phase == REQ_DONE && c.req.line.kind == REQ_STATIC
    requires c.resp.phase == RESP_HEADER || c.resp.phase == RESP_BODY
    ensures c.log.sent <= c.log.page
    ensures var r := ServeStatic(c, n, t, msg);
            r.1 != Fatal ==>
              && r.0.log.page == c.log.page && c.log.sent < r.0.log.sent <= c.log.page
              && (r.1 == NoCall ==> Answered(r.0))
              && (c.req.line.verb != HEAD ==> (r.1 == Succ <==> r.0.log.sent == c.log.page))
  {
    var r := ServeStatic(c, n, t, msg);
    if r.1 != Fatal {
      if c.resp.phase == RESP_HEADER {
        SendHeaderExact(c, n);
        assert Mmbuf(c).Rest() == Mmbuf(c).bytes;
      } else {
        SendBodyExact(c, n);
      }
    }
  }

  // A HEAD request is over after the first send, whole header or not.
  lemma HeadResponse(c: ConnVal, n: int)
    requires Sane(c) && Answered(c) && c.req.phase == REQ_DONE && c.req.line.kind == REQ_STATIC
    requires c.resp.phase == RESP_HEADER && c.req.line.verb == HEAD && c.log.sent == ""
    requires SendHeader(c, n).1 != Fatal && c.buf.sz >= 0
    ensures SendHeader(c, n).1 == Succ
    ensures SendHeader(c, n).0.log.sent == c.buf.Window() <==> n >= |c.buf.Window()|
  {
    var w := c.buf.Window();
    assert "" + w[..Accepted(n, |w|)] == w[..Accepted(n, |w|)];
  }

  const LENGTH_FIELD := "Content-Length: "

  // What a client reads as the body length: the number between the field
  // name at `at` and the end of the line.
  function LengthAt(page: string, at: nat): Option<nat>
    requires at <= |page|
  {
    var from := at + |LENGTH_FIELD|;
    if from > |page| || page[at..from] != LENGTH_FIELD then None
    else
      var digits := page[from..IndexFrom(page, '\r', from)];
      if AllDigits(digits) then Some(Atoi(digits)) else None
  }

  lemma LengthReadBack(pre: string, n: nat, rest: string)
    requires rest != "" && rest[0] == '\r'
    ensures LengthAt(pre + (LENGTH_FIELD + (Dec(n) + rest)), |pre|) == Some(n)
  {
    var d := Dec(n);
    var page := pre + (LENGTH_FIELD + (d + rest));
    var from := |pre| + |LENGTH_FIELD|;
    AtoiDec(n);
    AllDigitsAt(d);
    assert page[|pre|..from] == LENGTH_FIELD;
    assert page[from..] == d + rest;
    assert forall k :: from <= k < from + |d| ==> page[k] == d[k - from];
    assert page[from + |d|] == rest[0];
    IndexFromIs(page, '\r', from, from + |d|);
    assert page[from..from + |d|] == d;
  }

  // The length announced in the header is the number of body bytes behind it.
  lemma AnnouncedLength(c: ConnVal, file: string, t: HdrText)
    requires Prepare(c, Some(file), t).1 == NoCall
    ensures var page := Prepare(c, Some(file), t).0.log.page;
            && page == Header(|file|, t) + file
            && |t.pre| <= |page| && LengthAt(page, |t.pre|) == Some(|file|)
  {
    var n, rest := |file|, "\r\n" + t.post + file;
    LengthReadBack(t.pre, n, rest);
    HeaderParts(n, t, file);
  }

  lemma HeaderParts(n: nat, t: HdrText, file: string)
    ensures Header(n, t) + file == t.pre + (LENGTH_FIELD + (Dec(n) + ("\r\n" + t.post + file)))
  {
    Regroup(t.pre, LENGTH_FIELD, Dec(n));
    var a := LENGTH_FIELD + Dec(n);
    assert Header(n, t) == t.pre + LENGTH_FIELD + Dec(n) + "\r\n" + t.post;
    assert t.pre + a + "\r\n" + t.post + file == t.pre + (a + ("\r\n" + t.post + file));
    Regroup(LENGTH_FIELD, Dec(n), "\r\n" + t.post + file);
  }

  lemma StatFaithful(g: Grammar, l: Local, wr: set<int>, n: int, t: HdrText, msg: string)
    requires Inv(l) && Faithful(g, l.c) && StatStep(g, l, wr, n, t, msg).Kept?
    ensures Faithful(g, StatStep(g, l, wr, n, t, msg).l.c)
  {
    if l.c.fd in wr && l.c.resp.phase != RESP_DISABLED {
      var r := ServeStatic(l.c, n, t, msg);
      ServeStaticOk(l.c, n, t, msg);
      if r.1 == Succ {
        RestartExact(g, l.(c := r.0));
      } else if !l.c.log.lossy && (l.c.resp.phase == RESP_HEADER || l.c.resp.phase == RESP_BODY) {
        StaticResponse(l.c, n, t, msg);
        CanonIgnoresAnswer(g, View(l.c), View(r.0), l.c.log.fed);
      }
    }
  }

  // ---------- one turn ----------

  lemma TransitionsFaithful(g: Grammar, l: Local, rd: set<int>, env: Env)
    requires Inv(l) && Faithful(g, l.c)
    ensures Faithful(g, Transitions(l, rd, env).c)
  {
    var l1 := PrepareStep(l, env.tries, env.header);
    PrepareStepOk(l, env.tries, env.header);
    PrepareFaithful(g, l, env.tries, env.header);
    var l2 := SpawnStep(l1, env.spawn);
    SpawnStepOk(l1, env.spawn);
    SpawnFaithful(g, l1, env.spawn);
    var l3 := DoneStep(l2);
    DoneStepOk(l2);
    var l4 := StreamStep(l3, env.writes);
    StreamStepOk(l3, env.writes);
    StreamFaithful(g, l3, env.writes);
    FromCgiFaithful(g, l4, rd, env.read);
  }

  lemma ServeFaithful(g: Grammar, l: Local, rd: set<int>, wr: set<int>, env: Env)
    requires Inv(l) && (l.c.req.phase == REQ_DONE ==> l.c.fd !in rd)
    requires Faithful(g, l.c) && Serve(g, l, rd, wr, env).Kept?
    ensures Faithful(g, Serve(g, l, rd, wr, env).l.c)
  {
    if l.c.fd in rd {
      LisoRecvOk(g, l, env.recv);
      RecvFaithful(g, l, env.recv);
    }
    var l1 := (if l.c.fd in rd then LisoRecv(g, l, env.recv) else Kept(l)).l;
    var m := Transitions(l1, rd, env);
    TransitionsOk(l1, rd, env);
    TransitionsFaithful(g, l1, rd, env);
    DynStepOk(g, m, wr, env.dynSend);
    DynFaithful(g, m, wr, env.dynSend);
    StatFaithful(g, DynStep(g, m, wr, env.dynSend).l, wr, env.statSend, env.page, env.msg);
  }

  // The loop order drains: after the transitions a dynamic body is never
  // left in the buffer.  Only a request taken from last_buf can be.
  lemma TransitionsDrain(l: Local, rd: set<int>, env: Env)
    requires Inv(l)
    ensures var c := Transitions(l, rd, env).c; c.req.phase == REQ_BODY && c.req.line.kind == REQ_DYNAMIC ==> c.buf == EmptyBuf
  {
    var l1 := PrepareStep(l, env.tries, env.header);
    PrepareStepOk(l, env.tries, env.header);
    var l2 := SpawnStep(l1, env.spawn);
    SpawnStepOk(l1, env.spawn);
    SpawnLeavesReady(l1, env.spawn);
    var l3 := DoneStep(l2);
    DoneStepOk(l2);
    StreamDrains(l3, env.writes);
    FromCgiKeepsBody(StreamStep(l3, env.writes), rd, env.read);
  }

  lemma SpawnLeavesReady(l: Local, spawn: Spawn)
    ensures var c := DoneStep(SpawnStep(l, spawn)).c; c.cgi.phase != CGI_READY || c.req.line.kind == REQ_STATIC
  {
  }

  lemma StreamDrains(l: Local, writes: seq<int>)
    requires Inv(l) && (l.c.cgi.phase != CGI_READY || l.c.req.line.kind == REQ_STATIC)
    ensures var c := StreamStep(l, writes).c;
            c.req.phase == REQ_BODY && c.req.line.kind == REQ_DYNAMIC ==> c.buf == EmptyBuf && c.cgi.phase == CGI_SRV_TO_CGI
  {
  }

  lemma FromCgiKeepsBody(l: Local, rd: set<int>, input: Input)
    ensures var c := FromCgiStep(l, rd, input).c;
            c.req.phase == REQ_BODY && l.c.cgi.phase == CGI_SRV_TO_CGI ==> c.buf == l.c.buf
  {
  }

  // A program's answer is relayed without loss: the success callback of a
  // dynamic response is made only after end of file, when the client has
  // exactly what the program wrote.
  lemma RelayComplete(g: Grammar, c: ConnVal, n: int)
    requires Sane(c) && Coupled(c) && Exact(g, c) && c.cgi.bufPhase == BUF_SEND && ServeDynamic(c, n).1 == Succ
    ensures c.cgi.phase == CGI_DONE && c.log.sent == c.log.fromCgi
  {
    assert c.log.sent + "" == c.log.sent;
  }
}
