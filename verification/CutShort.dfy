/** A run that cuts a body short: behind a first request on the connection
    comes a request for a program with the front of its body, and the rest of
    the body a pass later. */
module CutShort {
  import opened Text
  import opened Buffers
  import opened RequestSpec
  import opened PackSpec
  import opened RoundTrip
  import opened ConnSpec
  import opened ServerSpec
  import opened Limits
  import opened Scenario

  // v asks for the header of a file; w asks for a program and has a body,
  // front and rest.  The front is received with v and w.
  predicate Split(v: ReqVal, w: ReqVal, front: string, rest: string) {
    && Printable(v) && v.line.kind == REQ_STATIC && v.line.verb == HEAD && v.head.clen == 0
    && Printable(w) && w.line.kind == REQ_DYNAMIC && w.head.clen == |front + rest|
    && front != "" && rest != ""
    && |PackText(v) + (PackText(w) + front)| <= BUFSZ && |PackText(w) + front + rest| <= BUFSZ
  }

  // HEAD / HTTP/1.1 and POST /cgi/a HTTP/1.1 with a body of two bytes.
  lemma SuchASplit()
    ensures Split(Ask(HEAD, "/", REQ_STATIC, 0), Ask(POST, "/cgi/a", REQ_DYNAMIC, 2), "x", "y")
  {
    AskPrintable(HEAD, "/", REQ_STATIC, 0);
    AskPrintable(POST, "/cgi/a", REQ_DYNAMIC, 2);
    AskShort(HEAD, "/", REQ_STATIC, 0);
    AskShort(POST, "/cgi/a", REQ_DYNAMIC, 2);
  }

  // ---------- the first request ----------

  const FILE := "f"
  const FILE_HEADER := Header(1, HdrText("", ""))

  // The header of the file waits in the buffer, w and front in last_buf.
  function HeaderReady(v: ReqVal, b: string): Local {
    var c := AskedFile(v, b);
    Local(c.(resp := RespVal(RESP_HEADER, 200, 1, true, Some(Mapped(FILE, 0))), buf := Filled(FILE_HEADER),
             log := c.log.(page := FILE_HEADER + FILE)),
          {SOCK, SSL}, {FD}, {SOCK, SSL, FD}, {})
  }

  function FirstEnv(s: string): Env {
    Idle.(recv := Got(s), tries := [MappedAs(6, FILE)])
  }

  lemma ShortHeader()
    ensures 0 < |FILE_HEADER| <= BUFSZ && Prefix(FILE_HEADER, BUFSZ) == FILE_HEADER
  {
    assert |"Content-Length: "| == 16 && |Dec(1)| == 1;
  }

  lemma FirstTurn(g: Grammar, v: ReqVal, b: string)
    requires IsLiso(g) && Printable(v) && v.line.kind == REQ_STATIC && v.head.clen == 0 && |PackText(v) + b| <= BUFSZ
    ensures Serve(g, CONNECTED, {FD}, {}, FirstEnv(PackText(v) + b)) == Kept(HeaderReady(v, b))
  {
    var env := FirstEnv(PackText(v) + b);
    FirstArrives(g, v, b);
    assert LisoRecv(g, CONNECTED, env.recv) == Kept(CONNECTED.(c := AskedFile(v, b)));
    Preparing(v, b, env);
  }

  lemma Preparing(v: ReqVal, b: string, env: Env)
    requires Printable(v) && v.line.kind == REQ_STATIC && v.head.clen == 0
    requires env.tries == [MappedAs(6, FILE)] && env.header == HdrText("", "")
    ensures Transitions(CONNECTED.(c := AskedFile(v, b)), {FD}, env) == HeaderReady(v, b)
  {
    var l, m := CONNECTED.(c := AskedFile(v, b)), HeaderReady(v, b);
    ShortHeader();
    assert Lookup(l.open, env.tries, N_TRIES) == Found(Some(FILE), {});
    assert l.open + {} == l.open && l.lost + {} == l.lost;
    var l1 := PrepareStep(l, env.tries, env.header);
    assert l1 == l.(c := m.c);
    assert {SOCK, SSL, FD} - {FD} == {SOCK, SSL} && {} + {FD} == {FD};
    assert DoneStep(l1) == m;
  }

  // ---------- the second request starts with body bytes in the buffer ----------

  // The header of w is parsed, the front of the body is buffered.
  function BodyBuffered(w: ReqVal, front: string): Local {
    var a := PackText(w);
    Local(FreshConn(FD).(
            req := Reparsed(w).(rsize := w.head.clen - |front|), buf := BufVal(|a + front|, a + front, |a|),
            resp := FreshResp.(phase := RESP_DISABLED), cgi := FreshCgi.(phase := CGI_READY),
            log := EmptyLog.(fed := a + front)),
          {SOCK, SSL, FD}, {}, {SOCK, SSL, FD}, {})
  }

  const SendEnv := Idle.(statSend := BUFSZ)

  lemma SecondTurn(g: Grammar, v: ReqVal, w: ReqVal, front: string, rest: string)
    requires IsLiso(g) && Split(v, w, front, rest)
    ensures Serve(g, HeaderReady(v, PackText(w) + front), {}, {FD}, SendEnv) == Kept(BodyBuffered(w, front))
  {
    var l := HeaderReady(v, PackText(w) + front);
    NothingToPrepare(v, PackText(w) + front);
    HeaderTaken(l.c);
    Restarting(g, l.(c := SendHeader(l.c, BUFSZ).0), w, front);
  }

  lemma NothingToPrepare(v: ReqVal, b: string)
    requires v.line.kind == REQ_STATIC
    ensures Transitions(HeaderReady(v, b), {}, SendEnv) == HeaderReady(v, b)
  {
    var l := HeaderReady(v, b);
    assert l.R - {FD} == l.R && l.W + {FD} == l.W;
  }

  lemma HeaderTaken(c: ConnVal)
    requires c.buf == Filled(FILE_HEADER) && c.req.line.verb == HEAD
    ensures var r := SendHeader(c, BUFSZ);
            r.1 == Succ && r.0.fd == c.fd && r.0.req == c.req && r.0.last == c.last && r.0.cgi == c.cgi
  {
    ShortHeader();
  }

  lemma Restarting(g: Grammar, l: Local, w: ReqVal, front: string)
    requires IsLiso(g) && Printable(w) && w.line.kind == REQ_DYNAMIC && |front| < w.head.clen
    requires l.c.fd == FD && l.c.req.head.alive && l.c.last == Filled(PackText(w) + front) && l.c.cgi.fds == NoFds
    requires l.R == {SOCK, SSL} && l.W == {FD} && l.open == {SOCK, SSL, FD} && l.lost == {}
    ensures ResetOrClose(g, l) == Kept(BodyBuffered(w, front))
  {
    var c := TakeLast(FreshConn(FD).(last := l.c.last));
    FirstParsed(g, c, w, front);
    FrontTaken(c, w, front);
    assert {SOCK, SSL} + {FD} == {SOCK, SSL, FD} && {FD} - {FD} == {};
    assert ResetConn(l).c == FreshConn(FD).(last := l.c.last);
  }

  lemma FrontTaken(c: ConnVal, w: ReqVal, front: string)
    requires c == TakeLast(FreshConn(FD).(last := Filled(PackText(w) + front)))
    requires w.line.kind == REQ_DYNAMIC && |front| < w.head.clen
    ensures TakeBody(c.(req := Reparsed(w), buf := c.buf.(dp := |PackText(w)|))) == BodyBuffered(w, front).c
  {
    assert (PackText(w) + front)[|PackText(w)|..] == front;
  }

  // ---------- the rest arrives ----------

  function RestEnv(rest: string): Env {
    Idle.(recv := Got(rest), spawn := Forked(PIPES), writes := [BUFSZ])
  }

  // What the program has got when its input is closed.
  lemma RestTurn(g: Grammar, w: ReqVal, front: string, rest: string)
    requires w.line.kind == REQ_DYNAMIC && w.head.clen == |front + rest| && front != "" && rest != ""
    requires |PackText(w) + front + rest| <= BUFSZ
    ensures var o := Serve(g, BodyBuffered(w, front), {FD}, {}, RestEnv(rest));
            && o.Kept? && o.l.c.req.phase == REQ_DONE && o.l.c.cgi.phase == CGI_CGI_TO_SRV
            && o.l.c.log.toCgi == (front + rest)[..|rest|] && o.l.c.last.bytes == (front + rest)[|rest|..]
  {
    var l, env := BodyBuffered(w, front), RestEnv(rest);
    RestReceived(g, l, w, front, rest);
    var m := l.(c := Recv(g, l.c, Got(rest)).c);
    assert LisoRecv(g, l, env.recv) == Kept(m);
    RestStreamed(m, env, (front + rest)[..|rest|]);
  }

  // A complete request whose program has not been started yet.
  predicate Collected(c: ConnVal, body: string) {
    && c.fd == FD && c.req.phase == REQ_DONE && c.req.line.kind == REQ_DYNAMIC && c.cgi == FreshCgi.(phase := CGI_READY)
    && c.resp.phase == RESP_DISABLED && c.buf.Window() == body && c.log.toCgi == ""
  }

  lemma RestReceived(g: Grammar, l: Local, w: ReqVal, front: string, rest: string)
    requires w.line.kind == REQ_DYNAMIC && w.head.clen == |front + rest| && front != "" && rest != ""
    requires |PackText(w) + front + rest| <= BUFSZ && l == BodyBuffered(w, front)
    ensures var r := Recv(g, l.c, Got(rest));
            && r.err == 0 && !r.fatal && Collected(r.c, (front + rest)[..|rest|])
            && r.c.last.bytes == (front + rest)[|rest|..]
  {
    assert (PackText(w) + front)[|PackText(w)|..] == front;
    assert l.c.buf.Window() == front;
    assert Prefix(rest, BUFSZ - l.c.buf.sz) == rest;
    UndrainedCountsTwice(g, l.c, rest);
  }

  lemma RestStreamed(l: Local, env: Env, body: string)
    requires Collected(l.c, body) && body != "" && |body| <= BUFSZ
    requires l.R == {SOCK, SSL, FD} && l.W == {} && l.open == {SOCK, SSL, FD}
    requires env.spawn == Forked(PIPES) && env.writes == [BUFSZ]
    ensures var m := Transitions(l, {FD}, env);
            && m.c.fd == FD && m.c.req.phase == REQ_DONE && m.c.req.line.kind == REQ_DYNAMIC
            && m.c.cgi.phase == CGI_CGI_TO_SRV && m.c.cgi.bufPhase == BUF_RECV
            && m.c.log.toCgi == body && m.c.last == l.c.last
  {
    var c := l.c.(cgi := CgiVal(CGI_SRV_TO_CGI, BUF_RECV, CgiFds(8, 7, 10, -1, -1, -1)));
    var l2 := SpawnStep(l, env.spawn);
    assert Possible(l.open, env.spawn) == env.spawn;
    assert l2.c == c;
    assert body[..|body|] + "" == body && "" + body == body;
    assert Deliver(body, |body|, [BUFSZ]) == (body, true);
    assert StreamStep(DoneStep(l2), env.writes).c.log.toCgi == body;
  }

  // ---------- the run ----------

  // A client connects, sends v, w and front; takes the answer to v; sends the
  // rest.
  function CuttingRun(v: ReqVal, w: ReqVal, front: string, rest: string): seq<PassIn> {
    [CONNECT] + [Reads({FD}, {}, FirstEnv(PackText(v) + (PackText(w) + front)))] + [Reads({}, {FD}, SendEnv)]
    + [Reads({FD}, {}, RestEnv(rest))]
  }

  lemma FirstRound(g: Grammar, v: ReqVal, b: string, x: PassIn)
    requires IsLiso(g) && Printable(v) && v.line.kind == REQ_STATIC && v.head.clen == 0 && |PackText(v) + b| <= BUFSZ
    requires x == Reads({FD}, {}, FirstEnv(PackText(v) + b))
    ensures Round(g, Pool(CONNECTED, FD), x) == Pool(HeaderReady(v, b), FD)
  {
    FirstTurn(g, v, b);
    OneRound(g, CONNECTED, FD, x, {FD}, {}, FirstEnv(PackText(v) + b), HeaderReady(v, b));
  }

  lemma SecondRound(g: Grammar, v: ReqVal, w: ReqVal, front: string, rest: string, x: PassIn)
    requires IsLiso(g) && Split(v, w, front, rest) && x == Reads({}, {FD}, SendEnv)
    ensures Round(g, Pool(HeaderReady(v, PackText(w) + front), FD), x) == Pool(BodyBuffered(w, front), FD)
  {
    SecondTurn(g, v, w, front, rest);
    OneRound(g, HeaderReady(v, PackText(w) + front), FD, x, {}, {FD}, SendEnv, BodyBuffered(w, front));
  }

  // A request in the middle of its body, with body bytes in the buffer, when
  // select is called.
  lemma BodyIsBuffered(g: Grammar, v: ReqVal, w: ReqVal, front: string, rest: string)
    requires IsLiso(g) && Split(v, w, front, rest)
    ensures Run(g, NewPool(SOCK, SSL), CuttingRun(v, w, front, rest)[..3]) == Pool(BodyBuffered(w, front), FD)
    ensures Undrained(BodyBuffered(w, front).c) && BodyBuffered(w, front).c.buf.Window() == front
  {
    var p, b := NewPool(SOCK, SSL), PackText(w) + front;
    var x, y := Reads({FD}, {}, FirstEnv(PackText(v) + b)), Reads({}, {FD}, SendEnv);
    assert CuttingRun(v, w, front, rest)[..3] == [CONNECT] + [x] + [y];
    assert b[|PackText(w)|..] == front;
    ConnectRun(g);
    RunStep(g, p, [CONNECT], x);
    RunStep(g, p, [CONNECT] + [x], y);
    FirstRound(g, v, b, x);
    SecondRound(g, v, w, front, rest, y);
  }

  // The client has sent the whole body, and the program has got the end of
  // its input: but as many bytes as were buffered are missing, and wait to
  // be parsed as the next request.
  lemma BodyCutShort(g: Grammar, v: ReqVal, w: ReqVal, front: string, rest: string)
    requires IsLiso(g) && Split(v, w, front, rest)
    ensures var p := Run(g, NewPool(SOCK, SSL), CuttingRun(v, w, front, rest));
            && |p.conns| == 1
            && var c := p.conns[0];
               c.req.phase == REQ_DONE && c.cgi.phase == CGI_CGI_TO_SRV
               && c.log.toCgi == (front + rest)[..|rest|] && c.last.bytes == (front + rest)[|rest|..]
               && |c.log.toCgi| == w.head.clen - |front|
  {
    var p, x := NewPool(SOCK, SSL), Reads({FD}, {}, RestEnv(rest));
    var xs := CuttingRun(v, w, front, rest);
    assert xs == xs[..3] + [x];
    BodyIsBuffered(g, v, w, front, rest);
    RunStep(g, p, xs[..3], x);
    RestTurn(g, w, front, rest);
    var l := BodyBuffered(w, front);
    OneRound(g, l, FD, x, {FD}, {}, RestEnv(rest), Serve(g, l, {FD}, {}, RestEnv(rest)).l);
  }
}
