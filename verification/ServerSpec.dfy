/** The server as a value: the callbacks and the main loop of lisod.c over the
    pool of pool.c. */
module ServerSpec {
  import opened Text
  import opened Buffers
  import opened RequestSpec
  import opened ConnSpec

  const FD_SETSIZE: nat := 1024
  const MAX_CONNS: nat := FD_SETSIZE - 10

  // One connection with what the server shares: the descriptor sets given to
  // select, the descriptors that are open and, among these, the ones that
  // nobody records and nobody will close.
  datatype Local = Local(c: ConnVal, R: set<int>, W: set<int>, open: set<int>, lost: set<int>)

  // What is left after a step: the connection is kept, or it was deleted.
  datatype Outcome = Kept(l: Local) | Dropped(R: set<int>, W: set<int>, open: set<int>, lost: set<int>)

  // ---------- answers for one pass over one connection ----------

  datatype Env = Env(
    recv: Input, tries: seq<Try>, header: HdrText, spawn: Spawn, writes: seq<int>,
    read: Input, dynSend: int, statSend: int, page: HdrText, msg: string)

  // ---------- callbacks ----------

  // liso_conn_err
  function ConnErr(l: Local, status: nat): Local {
    l.(c := l.c.(req := Aborted(l.c.req), resp := l.c.resp.(phase := RESP_ABORT, status := status)),
       W := l.W + {l.c.fd})
  }

  function Without(s: set<int>, fd: int): set<int> {
    if fd >= 0 then s - {fd} else s
  }

  // pl_reset_conn: srv_in and srv_err leave read_set and are closed, then
  // cgi_reset closes the rest.
  function ResetConn(l: Local): Local {
    var f := l.c.cgi.fds;
    Local(FreshConn(l.c.fd).(last := l.c.last),
          Without(Without(l.R + {l.c.fd}, f.srvIn), f.srvErr),
          l.W - {l.c.fd},
          CloseAll(l.open, f), l.lost)
  }

  function CloseAll(open: set<int>, f: CgiFds): set<int> {
    Without(Without(Without(Without(Without(Without(open, f.srvIn), f.srvErr), f.srvOut), f.cgiIn), f.cgiOut), f.cgiErr)
  }

  // pl_del_conn
  function DropConn(l: Local): Outcome {
    var l1 := ResetConn(l);
    Dropped(l1.R - {l.c.fd}, l1.W, l1.open - {l.c.fd}, l1.lost)
  }

  // liso_reset_or_close: bytes of the next request that came early are
  // parsed at once.
  function ResetOrClose(g: Grammar, l: Local): Outcome {
    if !l.c.req.head.alive then DropConn(l)
    else
      var l1 := ResetConn(l);
      if l1.c.last.sz == 0 then Kept(l1) else Kept(NextRequest(g, l1))
  }

  function TakeLast(c: ConnVal): ConnVal {
    c.(buf := BufVal(c.last.sz, c.last.bytes, c.buf.dp), last := EmptyBuf, log := c.log.(fed := c.last.bytes))
  }

  function NextRequest(g: Grammar, l: Local): Local {
    var l1 := OrErr(l, ParseReq(g, TakeLast(l.c)));
    if l1.c.req.phase == REQ_DONE then l1.(R := l1.R - {l.c.fd}, W := l1.W + {l.c.fd}) else l1
  }

  // What the callback named by a function does.
  function After(g: Grammar, l: Local, r: (ConnVal, Call)): Outcome {
    match r.1
    case NoCall => Kept(l.(c := r.0))
    case Err(status) => Kept(ConnErr(l.(c := r.0), status))
    case Fatal => DropConn(l.(c := r.0))
    case Succ => ResetOrClose(g, l.(c := r.0))
  }

  // ---------- the body of the main loop ----------

  function LisoRecv(g: Grammar, l: Local, input: Input): Outcome {
    var r := Recv(g, l.c, input);
    var l1 := if r.err > 0 then ConnErr(l.(c := r.c), r.err) else l.(c := r.c);
    if r.fatal then DropConn(l1) else Kept(l1)
  }

  // Callback of a function that only ever fails or goes on.
  function OrErr(l: Local, r: (ConnVal, Call)): Local {
    if r.1.Err? then ConnErr(l.(c := r.0), r.1.status) else l.(c := r.0)
  }

  predicate Prepares(c: ConnVal) {
    c.req.line.kind == REQ_STATIC && c.req.phase == REQ_DONE && c.resp.phase == RESP_READY
  }

  function PrepareStep(l: Local, tries: seq<Try>, t: HdrText): Local {
    if Prepares(l.c) then
      var r := Lookup(l.open, tries, N_TRIES);
      OrErr(Lose(l, r.lost), Prepare(l.c, r.file, t))
    else l
  }

  // Descriptors are opened that nobody records.
  function Lose(l: Local, fds: set<int>): Local {
    l.(open := l.open + fds, lost := l.lost + fds)
  }

  // A descriptor that is not open (-1), or different from these.
  predicate Alone(fd: int, others: set<int>) {
    fd == -1 || fd !in others
  }

  // pipe() hands out descriptors that are not open, all different.
  predicate FreshFds(open: set<int>, f: PipeFds) {
    && f.cgiIn > 0 && f.srvOut > 0 && f.srvIn > 0 && f.cgiOut > 0 && f.srvErr > 0 && f.cgiErr > 0
    && f.srvIn !in open && f.srvErr !in open && f.srvOut !in open
    && f.cgiIn !in open && f.cgiOut !in open && f.cgiErr !in open
    && Alone(f.srvIn, {f.srvOut, f.srvErr, f.cgiIn, f.cgiOut, f.cgiErr})
    && Alone(f.srvErr, {f.srvOut, f.cgiIn, f.cgiOut, f.cgiErr})
    && Alone(f.srvOut, {f.cgiIn, f.cgiOut, f.cgiErr})
    && Alone(f.cgiIn, {f.cgiOut, f.cgiErr}) && f.cgiOut != f.cgiErr
  }

  // An answer the kernel cannot give is read as a failed pipe().
  function Given(open: set<int>, p: Spawn): Spawn {
    if p.NoPipes? then if p.made !! open && |p.made| in {2, 4} then p else NoPipes({})
    else if FreshFds(open, p.fds) then p
    else NoPipes({})
  }

  // Nothing is forked when select could not watch the pipes.
  function Watchable(p: Spawn): Spawn {
    if p.Forked? && (p.fds.srvIn >= FD_SETSIZE || p.fds.srvErr >= FD_SETSIZE) then NotForked(p.fds) else p
  }

  function Possible(open: set<int>, p: Spawn): Spawn {
    Watchable(Given(open, p))
  }

  // The descriptors left open by a pipe() that failed.
  function Stray(p: Spawn): set<int> {
    if p.NoPipes? then p.made else {}
  }

  function Opened(open: set<int>, p: Spawn): set<int> {
    match p
    case NoPipes(made) => open + made
    case NotForked(f) => open + {f.cgiIn, f.srvOut, f.srvIn, f.cgiOut, f.srvErr, f.cgiErr}
    case Forked(f) => open + {f.srvOut, f.srvIn, f.srvErr}
  }

  predicate Spawns(c: ConnVal) {
    c.req.line.kind == REQ_DYNAMIC && c.cgi.phase == CGI_READY
  }

  function SpawnStep(l: Local, spawn: Spawn): Local {
    if Spawns(l.c) then
      var p := Possible(l.open, spawn);
      var r := InitCgi(l.c, p);
      var l1 := l.(open := Opened(l.open, p), lost := l.lost + Stray(p));
      if r.1.Err? then ConnErr(l1.(c := r.0), r.1.status)
      else l1.(c := r.0, R := l1.R + {r.0.cgi.fds.srvErr})
    else l
  }

  // Prepare for select.
  function DoneStep(l: Local): Local {
    if l.c.req.phase == REQ_DONE then
      l.(R := l.R - {l.c.fd}, W := if l.c.req.line.kind == REQ_STATIC then l.W + {l.c.fd} else l.W)
    else l
  }

  function StreamStep(l: Local, writes: seq<int>): Local {
    if l.c.req.line.kind == REQ_DYNAMIC && l.c.cgi.phase == CGI_SRV_TO_CGI then
      var l1 := OrErr(l, StreamToCgi(l.c, writes));
      if l1.c.req.phase == REQ_DONE then CloseBody(l1) else l1
    else l
  }

  // The body is complete: srv_out is closed and the answer is waited for.
  function CloseBody(l: Local): Local {
    var f := l.c.cgi.fds;
    l.(c := l.c.(cgi := l.c.cgi.(phase := CGI_CGI_TO_SRV, fds := f.(srvOut := if f.srvOut >= 0 then -1 else f.srvOut))),
       open := Without(l.open, f.srvOut), R := l.R + {f.srvIn})
  }

  function FromCgiStep(l: Local, rd: set<int>, input: Input): Local {
    if l.c.req.line.kind == REQ_DYNAMIC && l.c.cgi.fds.srvIn > 0 && l.c.cgi.fds.srvIn in rd
       && l.c.cgi.phase == CGI_CGI_TO_SRV && l.c.cgi.bufPhase == BUF_RECV then
      var l1 := OrErr(l, StreamFromCgi(l.c, input));
      var l2 := if l1.c.cgi.bufPhase == BUF_SEND then l1.(W := l1.W + {l.c.fd}) else l1;
      if l2.c.cgi.phase == CGI_DONE then CloseInput(l2) else l2
    else l
  }

  // The program has closed its output.
  function CloseInput(l: Local): Local {
    var f := l.c.cgi.fds;
    l.(c := l.c.(cgi := l.c.cgi.(fds := f.(srvIn := if f.srvIn >= 0 then -1 else f.srvIn))),
       R := l.R - {f.srvIn}, open := Without(l.open, f.srvIn))
  }

  function DynStep(g: Grammar, l: Local, wr: set<int>, n: int): Outcome {
    if l.c.req.line.kind == REQ_DYNAMIC && l.c.fd in wr && l.c.cgi.bufPhase == BUF_SEND then
      match After(g, l, ServeDynamic(l.c, n))
      case Dropped(R, W, open, lost) => Dropped(R, W, open, lost)
      case Kept(l1) =>
        // clear write set to prevent busy waiting
        Kept(if l1.c.cgi.bufPhase == BUF_RECV && l1.c.fd > 0 then l1.(W := l1.W - {l1.c.fd}) else l1)
    else Kept(l)
  }

  function StatStep(g: Grammar, l: Local, wr: set<int>, n: int, t: HdrText, msg: string): Outcome {
    if l.c.fd in wr && l.c.resp.phase != RESP_DISABLED then After(g, l, ServeStatic(l.c, n, t, msg))
    else Kept(l)
  }

  // The transitions between receiving and serving.
  function Transitions(l: Local, rd: set<int>, env: Env): Local {
    FromCgiStep(StreamStep(DoneStep(SpawnStep(PrepareStep(l, env.tries, env.header), env.spawn)), env.writes),
                rd, env.read)
  }

  // Serving the client, once the transitions are made.
  function Respond(g: Grammar, l: Local, wr: set<int>, env: Env): Outcome {
    match DynStep(g, l, wr, env.dynSend)
    case Dropped(R, W, open, lost) => Dropped(R, W, open, lost)
    case Kept(l1) => StatStep(g, l1, wr, env.statSend, env.page, env.msg)
  }

  // One turn of the loop over the pool (lisod.c:418-524).
  function Serve(g: Grammar, l: Local, rd: set<int>, wr: set<int>, env: Env): Outcome {
    match if l.c.fd in rd then LisoRecv(g, l, env.recv) else Kept(l)
    case Dropped(R, W, open, lost) => Dropped(R, W, open, lost)
    case Kept(l1) => Respond(g, Transitions(l1, rd, env), wr, env)
  }

  // ---------- the pool ----------

  datatype PoolVal = PoolVal(
    sock: int, sslSock: int, conns: seq<ConnVal>, R: set<int>, W: set<int>, open: set<int>, lost: set<int>,
    maxFd: int)

  function Max(a: int, b: int): int {
    if a > b then a else b
  }

  function MinMaxFd(p: PoolVal): int {
    Max(p.sock, p.sslSock)
  }

  // pl_new
  function NewPool(sock: int, sslSock: int): PoolVal {
    PoolVal(sock, sslSock, [], {sock, sslSock}, {}, {sock, sslSock}, {}, Max(sock, sslSock))
  }

  // liso_accept_conn: the kernel answers with a new descriptor or fails; the
  // connection is refused when select could not watch it, the TLS set-up
  // fails or the pool is full.
  function Accept(p: PoolVal, answer: Option<nat>, usable: bool): PoolVal {
    if answer.None? || answer.value == 0 || answer.value in p.open
       || answer.value >= FD_SETSIZE || !usable || |p.conns| == MAX_CONNS then p
    else
      p.(conns := p.conns + [FreshConn(answer.value)], R := p.R + {answer.value}, open := p.open + {answer.value})
  }

  // The last connection takes the place of the deleted one.
  function SwapRemove(conns: seq<ConnVal>, i: nat): seq<ConnVal>
    requires i < |conns|
  {
    conns[i := conns[|conns| - 1]][..|conns| - 1]
  }

  // The state of the loop: the pool, the index, the maximum so far and, for
  // the record, the connections served and dropped as they were before.
  datatype Pass = Pass(p: PoolVal, i: nat, max: int, served: seq<ConnVal>, dropped: seq<ConnVal>)

  function At(p: PoolVal, i: nat): Local
    requires i < |p.conns|
  {
    Local(p.conns[i], p.R, p.W, p.open, p.lost)
  }

  function Put(p: PoolVal, i: nat, l: Local): PoolVal
    requires i < |p.conns|
  {
    p.(conns := p.conns[i := l.c], R := l.R, W := l.W, open := l.open, lost := l.lost)
  }

  function Remove(p: PoolVal, i: nat, R: set<int>, W: set<int>, open: set<int>, lost: set<int>): PoolVal
    requires i < |p.conns|
  {
    p.(conns := SwapRemove(p.conns, i), R := R, W := W, open := open, lost := lost)
  }

  function MaxWith(max: int, c: ConnVal): int {
    Max(Max(Max(max, c.fd), c.cgi.fds.srvIn), c.cgi.fds.srvErr)
  }

  function Turn(g: Grammar, s: Pass, rd: set<int>, wr: set<int>, env: Env): (t: Pass)
    requires s.i < |s.p.conns|
    ensures t.i <= |t.p.conns| && |t.p.conns| - t.i == |s.p.conns| - s.i - 1
  {
    var c := s.p.conns[s.i];
    match Serve(g, At(s.p, s.i), rd, wr, env)
    case Dropped(R, W, open, lost) =>
      Pass(Remove(s.p, s.i, R, W, open, lost), s.i, s.max, s.served + [c], s.dropped + [c])
    case Kept(l) =>
      Pass(Put(s.p, s.i, l), s.i + 1, MaxWith(s.max, l.c), s.served + [c], s.dropped)
  }

  // The whole loop, with one environment per turn.
  function Turns(g: Grammar, s: Pass, rd: set<int>, wr: set<int>, envs: seq<Env>): (t: Pass)
    requires s.i <= |s.p.conns| && |envs| == |s.p.conns| - s.i
    ensures t.i == |t.p.conns|
    decreases |envs|
  {
    if envs == [] then s else Turns(g, Turn(g, s, rd, wr, envs[0]), rd, wr, envs[1..])
  }

  // ---------- passes and runs ----------

  // What the environment decides in one pass: whether select succeeds and
  // what it reports, who connects, and the answers in every turn.
  datatype PassIn = PassIn(
    selected: bool, rd: set<int>, wr: set<int>, first: Option<nat>, firstUsable: bool,
    second: Option<nat>, secondUsable: bool, envs: seq<Env>)

  const Idle := Env(Failed, [], HdrText("", ""), NoPipes({}), [], Failed, 0, 0, HdrText("", ""), "")

  function Padded(envs: seq<Env>, n: nat): (r: seq<Env>)
    ensures |r| == n
  {
    seq(n, i => if 0 <= i < |envs| then envs[i] else Idle)
  }

  function Accepts(p: PoolVal, rd: set<int>, x: PassIn): PoolVal {
    var p1 := if p.sock in rd then Accept(p, x.first, x.firstUsable) else p;
    if p1.sslSock in rd then Accept(p1, x.second, x.secondUsable) else p1
  }

  function StartPass(p: PoolVal): Pass {
    Pass(p, 0, MinMaxFd(p), [], [])
  }

  // One round of the main loop (lisod.c:364-549).
  function EndOfPass(g: Grammar, p: PoolVal, x: PassIn): (t: Pass)
    ensures t.i == |t.p.conns|
  {
    var rd, wr := x.rd * p.R, x.wr * p.W;
    var p1 := Accepts(p, rd, x);
    Turns(g, StartPass(p1), rd, wr, Padded(x.envs, |p1.conns|))
  }

  function Round(g: Grammar, p: PoolVal, x: PassIn): PoolVal {
    if x.selected then
      var t := EndOfPass(g, p, x);
      t.p.(maxFd := t.max)
    else p
  }

  // Every state of the server at select is Run of some inputs.
  function Run(g: Grammar, p: PoolVal, xs: seq<PassIn>): PoolVal
    decreases |xs|
  {
    if xs == [] then p else Round(g, Run(g, p, xs[..|xs| - 1]), xs[|xs| - 1])
  }
}
