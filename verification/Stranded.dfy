/** Two runs that forget a connection: a client sends a request for a program
    and, without waiting, something behind it.  A complete request is found
    again in the next pass; a bad one never. */
module Stranded {
  import opened Text
  import opened Buffers
  import opened RequestSpec
  import opened PackSpec
  import opened RoundTrip
  import opened ConnSpec
  import opened Chunking
  import opened ServerSpec
  import opened LoopInv
  import opened Watch
  import opened PoolInv
  import opened StuckRuns
  import opened Scenario

  // v asks for a program and has no body; b comes behind it in the same
  // receive.
  predicate Early(v: ReqVal, b: string) {
    && Printable(v) && v.line.kind == REQ_DYNAMIC && v.head.clen == 0
    && b != "" && |PackText(v) + b| <= BUFSZ
  }

  // ---------- the connection before its last turn ----------

  // The program runs, its input is closed, its answer is awaited.
  function Running(v: ReqVal, b: string): Local {
    Local(AskedProgram(v, b).(buf := EmptyBuf, cgi := CgiVal(CGI_CGI_TO_SRV, BUF_RECV, CgiFds(8, -1, 10, -1, -1, -1))),
          {SOCK, SSL, 8, 10}, {}, {SOCK, SSL, FD, 8, 10}, {})
  }

  // The program has ended without a word.
  function Ended(v: ReqVal, b: string): Local {
    Local(AskedProgram(v, b).(buf := EmptyBuf, cgi := CgiVal(CGI_DONE, BUF_SEND, CgiFds(-1, -1, 10, -1, -1, -1))),
          {SOCK, SSL, 10}, {FD}, {SOCK, SSL, FD, 10}, {})
  }

  function ArriveEnv(s: string): Env {
    Idle.(recv := Got(s), spawn := Forked(PIPES))
  }

  const EndEnv := Idle.(read := Got(""))

  lemma ArriveTurn(g: Grammar, v: ReqVal, b: string)
    requires IsLiso(g) && Early(v, b)
    ensures Serve(g, CONNECTED, {FD}, {}, ArriveEnv(PackText(v) + b)) == Kept(Running(v, b))
  {
    var env := ArriveEnv(PackText(v) + b);
    var l := CONNECTED.(c := AskedProgram(v, b));
    FirstArrives(g, v, b);
    Spawning(l, v, b, env);
    assert LisoRecv(g, CONNECTED, env.recv) == Kept(l);
  }

  lemma Spawning(l: Local, v: ReqVal, b: string, env: Env)
    requires Early(v, b) && l == CONNECTED.(c := AskedProgram(v, b))
    requires env.spawn == Forked(PIPES) && env.writes == []
    ensures Transitions(l, {FD}, env) == Running(v, b)
  {
    var c := l.c.(cgi := CgiVal(CGI_SRV_TO_CGI, BUF_RECV, CgiFds(8, 7, 10, -1, -1, -1)));
    var l2 := Local(c, {SOCK, SSL, FD, 10}, {}, {SOCK, SSL, FD, 7, 8, 10}, {});
    assert SpawnStep(l, env.spawn) == l2;
    assert {SOCK, SSL, FD, 10} - {FD} == {SOCK, SSL, 10};
    var l3 := l2.(R := {SOCK, SSL, 10});
    assert DoneStep(l2) == l3;
    Closing(l3);
  }

  lemma Closing(l: Local)
    requires l.c.buf.Window() == "" && l.c.req.phase == REQ_DONE && l.c.req.line.kind == REQ_DYNAMIC
    requires l.c.cgi == CgiVal(CGI_SRV_TO_CGI, BUF_RECV, CgiFds(8, 7, 10, -1, -1, -1))
    requires l.R == {SOCK, SSL, 10} && l.open == {SOCK, SSL, FD, 7, 8, 10}
    ensures StreamStep(l, []) == Local(
              l.c.(buf := EmptyBuf, cgi := CgiVal(CGI_CGI_TO_SRV, BUF_RECV, CgiFds(8, -1, 10, -1, -1, -1))),
              {SOCK, SSL, 8, 10}, l.W, {SOCK, SSL, FD, 8, 10}, l.lost)
  {
    assert l.open - {7} == {SOCK, SSL, FD, 8, 10};
    assert l.c.log.toCgi + "" == l.c.log.toCgi;
  }

  lemma EndTurn(g: Grammar, v: ReqVal, b: string)
    requires Early(v, b)
    ensures Serve(g, Running(v, b), {8}, {}, EndEnv) == Kept(Ended(v, b))
  {
    var l := Running(v, b);
    assert l.R - {FD} == l.R;
    assert {SOCK, SSL, 8, 10} - {8} == {SOCK, SSL, 10} && {SOCK, SSL, FD, 8, 10} - {8} == {SOCK, SSL, FD, 10};
    assert l.c.log.fromCgi + "" == l.c.log.fromCgi;
    assert FromCgiStep(l, {8}, Got("")) == Ended(v, b);
  }

  // A client connects and sends v and b; the program starts and ends.
  function EndedRun(v: ReqVal, b: string): seq<PassIn> {
    [CONNECT] + [Reads({FD}, {}, ArriveEnv(PackText(v) + b))] + [Reads({8}, {}, EndEnv)]
  }

  lemma EndedRunEnds(g: Grammar, v: ReqVal, b: string)
    requires IsLiso(g) && Early(v, b)
    ensures Run(g, NewPool(SOCK, SSL), EndedRun(v, b)) == Pool(Ended(v, b), 10)
  {
    var p, x, y := NewPool(SOCK, SSL), Reads({FD}, {}, ArriveEnv(PackText(v) + b)), Reads({8}, {}, EndEnv);
    ConnectRun(g);
    RunStep(g, p, [CONNECT], x);
    RunStep(g, p, [CONNECT] + [x], y);
    ArriveRound(g, v, b, x);
    EndRound(g, v, b, y);
  }

  lemma ArriveRound(g: Grammar, v: ReqVal, b: string, x: PassIn)
    requires IsLiso(g) && Early(v, b) && x == Reads({FD}, {}, ArriveEnv(PackText(v) + b))
    ensures Round(g, Pool(CONNECTED, FD), x) == Pool(Running(v, b), 10)
  {
    ArriveTurn(g, v, b);
    OneRound(g, CONNECTED, FD, x, {FD}, {}, ArriveEnv(PackText(v) + b), Running(v, b));
  }

  lemma EndRound(g: Grammar, v: ReqVal, b: string, x: PassIn)
    requires Early(v, b) && x == Reads({8}, {}, EndEnv)
    ensures Round(g, Pool(Running(v, b), 10), x) == Pool(Ended(v, b), 10)
  {
    EndTurn(g, v, b);
    OneRound(g, Running(v, b), 10, x, {8}, {}, EndEnv, Ended(v, b));
  }

  // ---------- the turn that stalls ----------

  // The client's socket can be written.
  function StallingRun(v: ReqVal, b: string, env: Env): seq<PassIn> {
    EndedRun(v, b) + [Reads({}, {FD}, env)]
  }

  lemma Answerable(g: Grammar, v: ReqVal, b: string, env: Env)
    requires IsLiso(g) && Early(v, b)
    ensures var l := Ended(v, b);
            && Inv(l) && Settled(l) && Quiet(l) && Completes(l, {FD})
            && BeforeServing(g, l, {}, env) == Some(l)
  {
    var l := Ended(v, b);
    EndedRunEnds(g, v, b);
    EveryRun(g, SOCK, SSL, EndedRun(v, b));
    assert Inv(At(Pool(l, 10), 0)) && At(Pool(l, 10), 0) == l;
    assert l.R - {FD} == l.R;
  }

  // Where the run ends: the outcome of the last turn.
  function Stalled(g: Grammar, v: ReqVal, b: string, env: Env): Outcome {
    Serve(g, Ended(v, b), {}, {FD}, env)
  }

  lemma StallingRunEnds(g: Grammar, v: ReqVal, b: string, env: Env)
    requires IsLiso(g) && Early(v, b) && Stalls(g, Ended(v, b), {FD}, env)
    ensures var o := Stalled(g, v, b, env);
            && o.Kept? && o == Respond(g, Ended(v, b), {FD}, env) && o.l.c.fd == FD
            && Run(g, NewPool(SOCK, SSL), StallingRun(v, b, env)) == Pool(o.l, MaxWith(SSL, o.l.c))
  {
    var l, o := Ended(v, b), Stalled(g, v, b, env);
    var x := Reads({}, {FD}, env);
    Answerable(g, v, b, env);
    StalledKept(g, l, {FD}, env);
    RespondOk(g, l, {FD}, env);
    EndedRunEnds(g, v, b);
    RunStep(g, NewPool(SOCK, SSL), EndedRun(v, b), x);
    OneRound(g, l, 10, x, {}, {FD}, env, o.l);
  }

  // ---------- a whole request behind ----------

  // w asks for a file, and fits in behind v.
  predicate Pair(v: ReqVal, w: ReqVal) {
    Early(v, PackText(w)) && Printable(w) && w.line.kind == REQ_STATIC && w.head.clen == 0
  }

  // GET /cgi/a HTTP/1.1 and behind it GET / HTTP/1.1.
  lemma SuchAPair()
    ensures Pair(Ask(GET, "/cgi/a", REQ_DYNAMIC, 0), Ask(GET, "/", REQ_STATIC, 0))
  {
    AskPrintable(GET, "/cgi/a", REQ_DYNAMIC, 0);
    AskPrintable(GET, "/", REQ_STATIC, 0);
    AskShort(GET, "/cgi/a", REQ_DYNAMIC, 0);
    AskShort(GET, "/", REQ_STATIC, 0);
    PackNotEmpty(Ask(GET, "/", REQ_STATIC, 0));
  }

  lemma PackNotEmpty(v: ReqVal)
    ensures PackText(v) != ""
  {
    assert |CRLF| == 2;
  }

  lemma NextIsDone(g: Grammar, v: ReqVal, w: ReqVal)
    requires IsLiso(g) && Pair(v, w)
    ensures var r := ParseReq(g, Restarted(Ended(v, PackText(w)).c));
            r.1 == NoCall && r.0.fd == FD && r.0.req.phase == REQ_DONE && r.0.req.line == w.line
            && r.0.resp.phase == RESP_READY && r.0.cgi.bufPhase == BUF_RECV
  {
    var c := Restarted(Ended(v, PackText(w)).c);
    assert PackText(w) + "" == PackText(w);
    FirstParsed(g, c, w, "");
  }

  // A request for a file that waits to be served.
  predicate Waiting(l: Local, w: ReqVal) {
    l.c.fd == FD && l.c.req.phase == REQ_DONE && l.c.req.line == w.line && l.c.req.line.kind == REQ_STATIC
    && l.c.resp.phase == RESP_READY
  }

  lemma StalledWaiting(g: Grammar, v: ReqVal, w: ReqVal)
    requires IsLiso(g) && Pair(v, w)
    ensures var o := Stalled(g, v, PackText(w), Idle);
            && o.Kept? && Waiting(o.l, w) && FD !in o.l.R && FD !in o.l.W
            && Run(g, NewPool(SOCK, SSL), StallingRun(v, PackText(w), Idle)) == Pool(o.l, MaxWith(SSL, o.l.c))
  {
    NextIsDone(g, v, w);
    StallingRunEnds(g, v, PackText(w), Idle);
    ResetForgets(g, v, w);
  }

  // The complete request of a live connection, which only its socket could
  // serve, and select waits neither to read nor to write it.
  lemma RequestForgotten(g: Grammar, v: ReqVal, w: ReqVal)
    requires IsLiso(g) && Pair(v, w)
    ensures var p := Run(g, NewPool(SOCK, SSL), StallingRun(v, PackText(w), Idle));
            && |p.conns| == 1 && p.conns[0].fd == FD
            && p.conns[0].req.phase == REQ_DONE && p.conns[0].req.line == w.line
            && FD !in p.R && FD !in p.W
  {
    StalledWaiting(g, v, w);
  }

  lemma ResetForgets(g: Grammar, v: ReqVal, w: ReqVal)
    requires IsLiso(g) && Pair(v, w)
    ensures var o := Respond(g, Ended(v, PackText(w)), {FD}, Idle);
            && o.Kept? && o.l.c.req.phase == REQ_DONE && o.l.c.req.line == w.line && o.l.c.resp.phase == RESP_READY
            && FD !in o.l.R && FD !in o.l.W
  {
    var l := Ended(v, PackText(w));
    NextIsDone(g, v, w);
    var m := NextRequest(g, ResetConn(l));
    assert m.c == ParseReq(g, Restarted(l.c)).0 && FD !in m.R;
    assert ResetOrClose(g, l) == Kept(m);
    assert DynStep(g, l, {FD}, 0) == Kept(m.(W := m.W - {FD}));
  }

  // When select returns for something else, the pass that follows waits on
  // the client again.
  lemma FoundAgain(g: Grammar, v: ReqVal, w: ReqVal, env: Env)
    requires IsLiso(g) && Pair(v, w)
    ensures var p := Run(g, NewPool(SOCK, SSL), StallingRun(v, PackText(w), Idle) + [Reads({}, {}, env)]);
            |p.conns| == 1 && p.conns[0].fd == FD && p.conns[0].req.line == w.line && FD in p.W
  {
    var b, x := PackText(w), Reads({}, {}, env);
    StalledWaiting(g, v, w);
    var l := Stalled(g, v, b, Idle).l;
    RunStep(g, NewPool(SOCK, SSL), StallingRun(v, b, Idle), x);
    FoundInRound(g, l, MaxWith(SSL, l.c), x, env, w);
  }

  lemma FoundInRound(g: Grammar, l: Local, max: int, x: PassIn, env: Env, w: ReqVal)
    requires Waiting(l, w) && x == Reads({}, {}, env)
    ensures var p := Round(g, Pool(l, max), x);
            |p.conns| == 1 && p.conns[0].fd == FD && p.conns[0].req.line == w.line && FD in p.W
  {
    FoundInTurn(g, l, env, w);
    OneRound(g, l, max, x, {}, {}, env, Serve(g, l, {}, {}, env).l);
  }

  lemma FoundInTurn(g: Grammar, l: Local, env: Env, w: ReqVal)
    requires Waiting(l, w)
    ensures var o := Serve(g, l, {}, {}, env); o.Kept? && o.l.c.fd == FD && o.l.c.req.line == w.line && FD in o.l.W
  {
  }

  // ---------- a bad request behind ----------

  lemma NextIsBad(g: Grammar, v: ReqVal, b: string)
    requires Early(v, b) && OneShot(g, b).1 < 0
    ensures ParseReq(g, Restarted(Ended(v, b).c)).1.Err?
  {
    var c := Restarted(Ended(v, b).c);
    assert c.buf.Window() == b;
    ParseReqInHeader(g, c);
  }

  // The error page is taken in part, and the rest is never sent: the
  // connection is stuck.
  lemma PageForgotten(g: Grammar, v: ReqVal, b: string, env: Env)
    requires IsLiso(g) && Early(v, b) && OneShot(g, b).1 < 0
    requires 0 < env.statSend < |ErrorPage(env.page, env.msg)|
    ensures var p := Run(g, NewPool(SOCK, SSL), StallingRun(v, b, env));
            |p.conns| == 1 && p.conns[0].fd == FD && Stuck(At(p, 0))
  {
    NextIsBad(g, v, b);
    StallingRunEnds(g, v, b, env);
    Answerable(g, v, b, env);
    RespondKinds(g, Ended(v, b), {FD}, env);
    var l := Stalled(g, v, b, env).l;
    assert At(Pool(l, MaxWith(SSL, l.c)), 0) == l;
  }

  // And it stays so, whatever comes, until the client is dropped.
  lemma NeverFoundAgain(g: Grammar, v: ReqVal, b: string, env: Env, ys: seq<PassIn>)
    requires IsLiso(g) && Early(v, b) && OneShot(g, b).1 < 0
    requires 0 < env.statSend < |ErrorPage(env.page, env.msg)|
    ensures var p := Run(g, NewPool(SOCK, SSL), StallingRun(v, b, env));
            HasStuck(Run(g, p, ys), FD) || EverLeft(g, p, ys, FD)
  {
    var p := Run(g, NewPool(SOCK, SSL), StallingRun(v, b, env));
    PageForgotten(g, v, b, env);
    EveryRun(g, SOCK, SSL, StallingRun(v, b, env));
    assert p.conns[0].fd == FD && Stuck(At(p, 0));
    StuckForGood(g, p, ys, FD);
  }

  const JUNK := "X\r\n"

  // GET /cgi/a HTTP/1.1 and behind it a line that is no request.
  lemma SuchABadOne(g: Grammar)
    requires IsLiso(g)
    ensures Early(Ask(GET, "/cgi/a", REQ_DYNAMIC, 0), JUNK) && OneShot(g, JUNK).1 == -501
    ensures 0 < 1 < |ErrorPage(HdrText("", ""), "")|
  {
    AskPrintable(GET, "/cgi/a", REQ_DYNAMIC, 0);
    AskShort(GET, "/cgi/a", REQ_DYNAMIC, 0);
    JunkIsBad(Blank);
    assert JUNK[..3] == JUNK;
    assert FirstLine(JUNK) == JUNK;
    assert ParseLine(Blank, JUNK).1 == 501;
    assert |"Content-Length: "| == 16;
  }

  lemma JunkIsBad(v: ReqVal)
    requires v.phase == REQ_START
    ensures IsLine(JUNK) && RequestLine(v, JUNK).1 == 501
  {
    IndexFromIs(JUNK, '\n', 0, 2);
    SkipBlanksIs(JUNK, 0, 0);
    SkipWordIs(JUNK, 0, 1);
    assert JUNK[0..1] == "X";
    PlainWhole("X", 8);
  }
}
