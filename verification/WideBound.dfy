/** A run in which the bound given to select is too large: a program's pipes
    get descriptors that select could not watch. */
module WideBound {
  import opened Buffers
  import opened RequestSpec
  import opened PackSpec
  import opened RoundTrip
  import opened ConnSpec
  import opened ServerSpec
  import opened Scenario

  const WIDE := PipeFds(1022, 1023, 1024, 1025, 1026, 1027)

  // v asks for a program and has no body.
  predicate AsksProgram(v: ReqVal) {
    Printable(v) && v.line.kind == REQ_DYNAMIC && v.head.clen == 0 && |PackText(v)| <= BUFSZ
  }

  // GET /cgi/a HTTP/1.1
  lemma SuchAProgram()
    ensures AsksProgram(Ask(GET, "/cgi/a", REQ_DYNAMIC, 0))
  {
    AskPrintable(GET, "/cgi/a", REQ_DYNAMIC, 0);
    AskShort(GET, "/cgi/a", REQ_DYNAMIC, 0);
  }

  function WideEnv(v: ReqVal): Env {
    Idle.(recv := Got(PackText(v)), spawn := Forked(WIDE))
  }

  // The program is not started; its pipes stay open until the client has its
  // error page.
  function NotStarted(v: ReqVal): Local {
    var c := AskedProgram(v, "");
    Local(c.(req := Aborted(c.req), resp := c.resp.(phase := RESP_ABORT, status := 500),
             cgi := CgiVal(CGI_ABORT, BUF_RECV, CgiFds(1024, 1023, 1026, 1022, 1025, 1027))),
          {SOCK, SSL, FD}, {FD}, {SOCK, SSL, FD, 1022, 1023, 1024, 1025, 1026, 1027}, {})
  }

  lemma WideTurn(g: Grammar, v: ReqVal)
    requires IsLiso(g) && AsksProgram(v)
    ensures Serve(g, CONNECTED, {FD}, {}, WideEnv(v)) == Kept(NotStarted(v))
  {
    var l := CONNECTED.(c := AskedProgram(v, ""));
    assert PackText(v) + "" == PackText(v);
    FirstArrives(g, v, "");
    assert LisoRecv(g, CONNECTED, WideEnv(v).recv) == Kept(l);
    NothingStarts(v, l);
  }

  lemma NothingStarts(v: ReqVal, l: Local)
    requires AsksProgram(v) && l == CONNECTED.(c := AskedProgram(v, ""))
    ensures Transitions(l, {FD}, WideEnv(v)) == NotStarted(v)
  {
    assert Possible(l.open, Forked(WIDE)) == NotForked(WIDE);
    assert SpawnStep(l, Forked(WIDE)) == NotStarted(v);
  }

  function WideRun(v: ReqVal): seq<PassIn> {
    [CONNECT] + [Reads({FD}, {}, WideEnv(v))]
  }

  // The bound covers descriptors that no set can hold, though none of them is
  // in a set.
  lemma BoundTooWide(g: Grammar, v: ReqVal)
    requires IsLiso(g) && AsksProgram(v)
    ensures var p := Run(g, NewPool(SOCK, SSL), WideRun(v));
            p.maxFd >= FD_SETSIZE && p.R == {SOCK, SSL, FD} && p.W == {FD}
  {
    var x := Reads({FD}, {}, WideEnv(v));
    ConnectRun(g);
    RunStep(g, NewPool(SOCK, SSL), [CONNECT], x);
    WideTurn(g, v);
    OneRound(g, CONNECTED, FD, x, {FD}, {}, WideEnv(v), NotStarted(v));
  }
}
