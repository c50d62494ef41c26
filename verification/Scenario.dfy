/** One client on a server that has just started: what the runs of the other
    modules that show a concrete behaviour have in common. */
module Scenario {
  import opened Text
  import opened Buffers
  import opened RequestSpec
  import opened PackSpec
  import opened RoundTrip
  import opened ConnSpec
  import opened Chunking
  import opened ServerSpec

  const SOCK := 3
  const SSL := 4
  const FD := 5
  const PIPES := PipeFds(6, 7, 8, 9, 10, 11)

  function Ask(verb: Method, uri: string, kind: ReqType, clen: nat): ReqVal {
    ReqVal(ReqLine(verb, uri, None, "HTTP/1.1", kind), ReqHead("h", clen, true, []), 0, REQ_DONE)
  }

  lemma AskPrintable(verb: Method, uri: string, kind: ReqType, clen: nat)
    requires verb != OTHER && clen < 10
    requires (uri == "/cgi/a" && kind == REQ_DYNAMIC) || (uri == "/" && kind == REQ_STATIC)
    ensures Printable(Ask(verb, uri, kind, clen))
  {
    assert !StartsWith("/", "/cgi/") && "/cgi/a"[..5] == "/cgi/";
    assert !CaseEq("/cgi/a", "http://") && !CaseEq("/cgi/a", "https://");
  }

  lemma AskShort(verb: Method, uri: string, kind: ReqType, clen: nat)
    requires |uri| <= 10 && clen < 10
    ensures |PackText(Ask(verb, uri, kind, clen))| <= 100
  {
    assert |Dec(clen)| == 1;
    assert |FirstText(Ask(verb, uri, kind, clen).line)| <= 30;
    assert |FieldText("Host", "h")| == 9;
    assert |FieldText(LENGTH, Dec(clen))| == 19;
  }

  // ---------- the first request in a buffer ----------

  // A printed request, with any bytes behind it, in the buffer of a
  // connection that waits for one.
  lemma FirstParsed(g: Grammar, c: ConnVal, v: ReqVal, b: string)
    requires IsLiso(g) && Printable(v) && c.req == Blank && c.buf.dp == 0 && c.buf.bytes == PackText(v) + b
    ensures PackText(v) != ""
    ensures ParseReq(g, c) == (TakeBody(c.(req := Reparsed(v), buf := c.buf.(dp := |PackText(v)|))), NoCall)
  {
    PackedParses(g, v);
    FirstOfTwo(g, v, PackText(v), b);
    BlockParsed(g, c, PackText(v) + b, (Reparsed(v), |PackText(v)|));
  }

  lemma BlockParsed(g: Grammar, c: ConnVal, s: string, r: (ReqVal, int))
    requires c.req == Blank && c.buf.dp == 0 && c.buf.bytes == s && WholeLines(s) > 0
    requires ParseBlock(g, Blank, s[..WholeLines(s)]) == r && r.1 >= 0
    ensures ParseReq(g, c) == (TakeBody(c.(req := r.0, buf := c.buf.(dp := r.1))), NoCall)
  {
    ParseReqInHeader(g, c);
    assert c.buf.Window() == s;
    TakenAs(c, WholeLines(s), r);
  }

  lemma FirstOfTwo(g: Grammar, v: ReqVal, a: string, b: string)
    requires IsBlock(a) && ParseBlock(g, Blank, a) == (Reparsed(v), |a|)
    ensures WholeLines(a + b) == |a| + WholeLines(b) && a != ""
    ensures ParseBlock(g, Blank, (a + b)[..WholeLines(a + b)]) == (Reparsed(v), |a|)
  {
    var m := WholeLines(b);
    WholeLinesAppend(a, b);
    PrefixOfConcat(a, b, m);
    ParseBlockConcat(g, Blank, a, b[..m]);
  }

  lemma TakenAs(c: ConnVal, n: nat, r: (ReqVal, int))
    requires r.1 >= 0 && c.buf.dp == 0
    ensures AfterParse(c, n, r) == (TakeBody(c.(req := r.0, buf := c.buf.(dp := r.1))), NoCall)
  {
  }

  // A request without a body, with the bytes b behind it.  For a program:
  function AskedProgram(v: ReqVal, b: string): ConnVal {
    var a := PackText(v);
    FreshConn(FD).(
      req := Reparsed(v).(rsize := -|b|, phase := REQ_DONE), buf := BufVal(|a|, a, |a|), last := Filled(b),
      resp := FreshResp.(phase := RESP_DISABLED), cgi := FreshCgi.(phase := CGI_READY),
      log := EmptyLog.(fed := a + b))
  }

  // For a file:
  function AskedFile(v: ReqVal, b: string): ConnVal {
    FreshConn(FD).(
      req := Reparsed(v).(rsize := -|b|, phase := REQ_DONE), last := Filled(b),
      cgi := FreshCgi.(phase := CGI_DISABLED), log := EmptyLog.(fed := PackText(v) + b))
  }

  function Asked(v: ReqVal, b: string): ConnVal {
    if v.line.kind == REQ_STATIC then AskedFile(v, b) else AskedProgram(v, b)
  }

  lemma FirstArrives(g: Grammar, v: ReqVal, b: string)
    requires IsLiso(g) && Printable(v) && v.head.clen == 0 && |PackText(v) + b| <= BUFSZ
    ensures Recv(g, FreshConn(FD), Got(PackText(v) + b)) == RecvOut(Asked(v, b), 0, false)
  {
    var s, c := PackText(v) + b, Fed(FreshConn(FD), PackText(v) + b);
    assert "" + s == s && Prefix(s, BUFSZ) == s;
    FirstParsed(g, c, v, b);
    TakeFirst(c, v, PackText(v), b);
    FreshRecv(g, s);
  }

  lemma FreshRecv(g: Grammar, s: string)
    requires s != "" && |s| <= BUFSZ && Prefix(s, BUFSZ) == s
    requires ParseReq(g, Fed(FreshConn(FD), s)).1 == NoCall
    ensures Recv(g, FreshConn(FD), Got(s)) == RecvOut(ParseReq(g, Fed(FreshConn(FD), s)).0, 0, false)
  {
  }

  lemma TakeFirst(c: ConnVal, v: ReqVal, a: string, b: string)
    requires v.head.clen == 0 && c == Fed(FreshConn(FD), a + b) && a == PackText(v)
    ensures TakeBody(c.(req := Reparsed(v), buf := c.buf.(dp := |a|))) == Asked(v, b)
  {
    assert (a + b)[|a|..] == b;
    assert (a + b)[..|a|] == a;
    assert "" + (a + b) == a + b;
    if b == "" {
      assert a + b == a;
    }
  }

  // ---------- rounds with one connection ----------

  function Reads(rd: set<int>, wr: set<int>, env: Env): PassIn {
    PassIn(true, rd, wr, None, false, None, false, [env])
  }

  const CONNECT := PassIn(true, {SOCK}, {}, Some(FD), true, None, false, [])

  function Pool(l: Local, max: int): PoolVal {
    PoolVal(SOCK, SSL, [l.c], l.R, l.W, l.open, l.lost, max)
  }

  const CONNECTED := Local(FreshConn(FD), {SOCK, SSL, FD}, {}, {SOCK, SSL, FD}, {})

  lemma OneTurn(g: Grammar, p: PoolVal, rd: set<int>, wr: set<int>, env: Env, l: Local)
    requires |p.conns| == 1 && Serve(g, At(p, 0), rd, wr, env) == Kept(l)
    ensures var t := Turns(g, StartPass(p), rd, wr, [env]);
            && t.p == PoolVal(p.sock, p.sslSock, [l.c], l.R, l.W, l.open, l.lost, p.maxFd)
            && t.max == MaxWith(MinMaxFd(p), l.c)
  {
    var t := Turn(g, StartPass(p), rd, wr, env);
    assert [env][1..] == [] && Turns(g, t, rd, wr, []) == t;
  }

  lemma OneRound(g: Grammar, m: Local, max: int, x: PassIn, rd: set<int>, wr: set<int>, env: Env, l: Local)
    requires x == Reads(rd, wr, env) && SOCK !in rd && SSL !in rd && rd <= m.R && wr <= m.W
    requires Serve(g, m, rd, wr, env) == Kept(l)
    ensures Round(g, Pool(m, max), x) == Pool(l, MaxWith(SSL, l.c))
  {
    var p := Pool(m, max);
    assert x.rd * p.R == rd && x.wr * p.W == wr;
    assert Padded([env], 1) == [env];
    assert At(p, 0) == m;
    OneTurn(g, p, rd, wr, env, l);
  }

  lemma Connected(g: Grammar)
    ensures Round(g, NewPool(SOCK, SSL), CONNECT) == Pool(CONNECTED, FD)
  {
    var p, q := Pool(CONNECTED, SSL), NewPool(SOCK, SSL);
    assert CONNECT.rd * q.R == {SOCK} && CONNECT.wr * q.W == {};
    assert [] + [FreshConn(FD)] == [FreshConn(FD)];
    assert q.R + {FD} == CONNECTED.R && q.open + {FD} == CONNECTED.open;
    assert Accepts(q, {SOCK}, CONNECT) == p;
    assert Padded([], 1) == [Idle];
    assert At(p, 0) == CONNECTED;
    OneTurn(g, p, {SOCK}, {}, Idle, CONNECTED);
  }

  // Runs are built round by round.
  lemma RunStep(g: Grammar, p: PoolVal, xs: seq<PassIn>, x: PassIn)
    ensures Run(g, p, xs + [x]) == Round(g, Run(g, p, xs), x)
  {
    assert (xs + [x])[..|xs|] == xs;
  }

  lemma ConnectRun(g: Grammar)
    ensures Run(g, NewPool(SOCK, SSL), [CONNECT]) == Pool(CONNECTED, FD)
  {
    assert [CONNECT][..0] == [];
    assert Run(g, NewPool(SOCK, SSL), [CONNECT]) == Round(g, NewPool(SOCK, SSL), CONNECT);
    Connected(g);
  }
}
