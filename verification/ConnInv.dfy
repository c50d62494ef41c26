/** Every function of conn.c keeps the buffer discipline and the coupling of
    the phases. */
module ConnInv {
  import opened Buffers
  import opened RequestSpec
  import opened ConnSpec

  // The parts of a connection that belong to the server: only cgi_init, the
  // loop and a reset change them.
  ghost predicate SameFds(c: ConnVal, d: ConnVal) {
    d.fd == c.fd && d.cgi.fds == c.cgi.fds
  }

  // The state of a connection that failed, before the error callback.
  ghost predicate Failing(c: ConnVal, d: ConnVal) {
    && InBounds(d) && SameFds(c, d)
    && d.cgi.phase !in {CGI_CGI_TO_SRV, CGI_DONE} && d.cgi.bufPhase == BUF_RECV
  }

  lemma TakeBodyOk(c: ConnVal)
    requires c.buf.Sane() && c.buf.sz >= 0 && c.last.Sane() && c.last.sz == 0 && c.last.dp == 0
    requires c.req.InHeader() || c.req.phase == REQ_BODY
    requires c.req.phase == REQ_BODY ==> c.req.rsize >= 0
    requires Scanned(c) && c.cgi.bufPhase == BUF_RECV
    requires c.req.InHeader() ==> c.resp.phase == RESP_READY && c.cgi.phase == CGI_IDLE
    requires c.resp.phase == RESP_READY || c.resp.phase == RESP_DISABLED
    requires c.req.phase == REQ_BODY && c.req.line.kind == REQ_STATIC ==> c.resp.phase == RESP_READY
    requires c.cgi.phase in {CGI_IDLE, CGI_READY, CGI_SRV_TO_CGI} ||
             (c.cgi.phase == CGI_DISABLED && c.req.line.kind == REQ_STATIC)
    ensures var d := TakeBody(c); Sane(d) && Coupled(d) && SameFds(c, d)
  {
    if c.req.phase == REQ_BODY {
      CountedBounds(SetServer(c), c.req.rsize - |c.buf.Window()|);
    }
  }

  // Counting off the window stashes what is too much and leaves the buffers
  // in order.
  lemma CountedBounds(c: ConnVal, left: int)
    requires c.buf.Sane() && c.buf.sz >= 0 && c.last == EmptyBuf
    requires c.req.phase == REQ_BODY && c.req.rsize >= 0 && left == c.req.rsize - |c.buf.Window()|
    ensures var d := Counted(c, left);
            && d.buf.Sane() && d.buf.sz >= 0 && d.last.Sane() && d.last.sz >= 0 && d.last.dp == 0
            && (left > 0 ==> d == c.(req := c.req.(rsize := left)))
            && (left <= 0 ==> d.req == c.req.(rsize := left, phase := REQ_DONE)
                              && d.resp == c.resp && d.cgi == c.cgi && d.fd == c.fd)
  {
  }

  // The parser took n bytes of whole lines and came to r.
  lemma AfterParseOk(c: ConnVal, n: nat, r: (ReqVal, int))
    requires InBounds(c) && Coupled(c) && c.req.InHeader()
    requires var w := c.buf.Window(); 0 < n <= |w| && '\n' !in w[n..] && GoodParse(c.req, w[..n], r)
    ensures var d := AfterParse(c, n, r);
            && (r.1 >= 0 ==> d.1 == NoCall && Sane(d.0) && Coupled(d.0) && SameFds(c, d.0))
            && (r.1 < 0 ==> d.1 == Err(-r.1) && d.1.status in {400, 411, 501}
                            && Failing(c, d.0) && d.0.cgi == c.cgi && d.0.req.phase == REQ_ABORT)
  {
    if r.1 >= 0 {
      var w := c.buf.Window();
      var d := c.(req := r.0, buf := c.buf.(dp := c.buf.dp + r.1));
      assert d.buf.Window() == w[r.1..];
      TakeBodyOk(d);
    }
  }

  // cn_parse_req, on a connection whose newest bytes are not scanned yet.
  lemma ParseReqOk(g: Grammar, c: ConnVal)
    requires InBounds(c) && Coupled(c) && c.req.phase in {REQ_START, REQ_HEADER, REQ_BODY}
    ensures var r := ParseReq(g, c);
            && (r.1 == NoCall || (r.1.Err? && r.1.status in {400, 411, 501}))
            && (r.1 == NoCall ==> Sane(r.0) && Coupled(r.0) && SameFds(c, r.0))
            && (r.1.Err? ==> Failing(c, r.0) && r.0.cgi == c.cgi && r.0.req.phase == REQ_ABORT)
  {
    if c.req.phase == REQ_BODY {
      TakeBodyOk(c);
    } else {
      var w := c.buf.Window();
      var n := WholeLines(w);
      WholeLinesRest(w);
      if n > 0 {
        AfterParseOk(c, n, ParseBlock(g, c.req, w[..n]));
      }
    }
  }
}
