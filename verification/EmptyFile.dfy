/** A run that leaks: a client asks for a file that opens but cannot be
    mapped, as an empty one never can. */
module EmptyFile {
  import opened Text
  import opened Buffers
  import opened RequestSpec
  import opened PackSpec
  import opened RoundTrip
  import opened ConnSpec
  import opened ServerSpec
  import opened LoopInv
  import opened PoolInv
  import opened Leaks
  import opened Scenario

  // v asks for a file and has no body.
  predicate AsksFile(v: ReqVal) {
    Printable(v) && v.line.kind == REQ_STATIC && v.head.clen == 0 && |PackText(v)| <= BUFSZ
  }

  // GET / HTTP/1.1
  lemma SuchAFile()
    ensures AsksFile(Ask(GET, "/", REQ_STATIC, 0))
  {
    AskPrintable(GET, "/", REQ_STATIC, 0);
    AskShort(GET, "/", REQ_STATIC, 0);
  }

  // The file opens as descriptor 6 and does not map.
  function VainEnv(v: ReqVal): Env {
    Idle.(recv := Got(PackText(v)), tries := [Unmapped(6)])
  }

  function LeakingRun(v: ReqVal): seq<PassIn> {
    [CONNECT] + [Reads({FD}, {}, VainEnv(v))]
  }

  // The client will get 404.
  function NotFound(v: ReqVal): Local {
    var c := AskedFile(v, "");
    Local(c.(req := Aborted(c.req), resp := RespVal(RESP_ABORT, 404, 0, true, None)),
          {SOCK, SSL, FD}, {FD}, {SOCK, SSL, FD, 6}, {6})
  }

  lemma VainTurn(g: Grammar, v: ReqVal)
    requires IsLiso(g) && AsksFile(v)
    ensures Serve(g, CONNECTED, {FD}, {}, VainEnv(v)) == Kept(NotFound(v))
  {
    var l := CONNECTED.(c := AskedFile(v, ""));
    assert PackText(v) + "" == PackText(v);
    FirstArrives(g, v, "");
    assert LisoRecv(g, CONNECTED, VainEnv(v).recv) == Kept(l);
    NothingFound(v, l);
  }

  lemma NothingFound(v: ReqVal, l: Local)
    requires AsksFile(v) && l == CONNECTED.(c := AskedFile(v, ""))
    ensures Transitions(l, {FD}, VainEnv(v)) == NotFound(v)
  {
    var tries := VainEnv(v).tries;
    assert tries[1..] == [];
    assert Lookup(l.open + {6}, tries[1..], N_TRIES - 1) == Found(None, {});
    assert Lookup(l.open, tries, N_TRIES) == Found(None, {6});
    assert PrepareStep(l, tries, HdrText("", "")) == NotFound(v);
  }

  // After the run descriptor 6 is open, and neither a listener nor recorded
  // in the one connection there is.
  lemma EmptyFileLeaks(g: Grammar, v: ReqVal)
    requires IsLiso(g) && AsksFile(v)
    ensures var p := Run(g, NewPool(SOCK, SSL), LeakingRun(v));
            p.open == {SOCK, SSL, FD, 6} && p.lost == {6} && AllOwned(p.conns) == {FD}
  {
    var x := Reads({FD}, {}, VainEnv(v));
    ConnectRun(g);
    RunStep(g, NewPool(SOCK, SSL), [CONNECT], x);
    VainTurn(g, v);
    OneRound(g, CONNECTED, FD, x, {FD}, {}, VainEnv(v), NotFound(v));
    OnlyOwn(NotFound(v).c);
  }

  lemma OnlyOwn(c: ConnVal)
    requires c.cgi.fds == NoFds
    ensures AllOwned([c]) == {c.fd as int}
  {
    assert Own(c) == {c.fd as int};
    assert forall x :: x in AllOwned([c]) <==> x in Own([c][0]);
  }

  // Whatever comes after it, the descriptor is never closed.
  lemma LeakStays(g: Grammar, v: ReqVal, ys: seq<PassIn>)
    requires IsLiso(g) && AsksFile(v)
    ensures 6 in Run(g, Run(g, NewPool(SOCK, SSL), LeakingRun(v)), ys).open
    ensures !LeakFreeRun(g, NewPool(SOCK, SSL), LeakingRun(v))
  {
    EmptyFileLeaks(g, v);
    EveryRun(g, SOCK, SSL, LeakingRun(v));
    LostForEver(g, Run(g, NewPool(SOCK, SSL), LeakingRun(v)), ys);
    RunLoses(g, SOCK, SSL, LeakingRun(v));
  }
}
