/** The sets and the bound that select is given, and who gets into them. */
module SelectSets {
  import opened Text
  import opened Buffers
  import opened RequestSpec
  import opened ConnSpec
  import opened ServerSpec
  import opened LoopInv
  import opened PoolInv

  // ---------- accepting ----------

  // The kernel gave a new descriptor that select can watch, its set-up
  // succeeded, and there is room.
  predicate Welcome(p: PoolVal, answer: Option<nat>, usable: bool) {
    answer.Some? && 0 < answer.value < FD_SETSIZE && answer.value !in p.open && usable && |p.conns| < MAX_CONNS
  }

  // Both listeners are served in one pass, each if it is ready.
  lemma BothAccepted(p: PoolVal, rd: set<int>, x: PassIn)
    requires |p.conns| <= MAX_CONNS
    ensures var q := Accepts(p, rd, x);
            var one := p.sock in rd && Welcome(p, x.first, x.firstUsable);
            var p1 := if one then p.(conns := p.conns + [FreshConn(x.first.value)], R := p.R + {x.first.value},
                                     open := p.open + {x.first.value}) else p;
            var two := p.sslSock in rd && Welcome(p1, x.second, x.secondUsable);
            && (if two then q.conns == p1.conns + [FreshConn(x.second.value)] && x.second.value in q.R && x.second.value in q.open
                else q == p1)
            && p1.conns <= q.conns && p1.R <= q.R && p1.open <= q.open && q.W == p.W && q.lost == p.lost
  {
  }

  // ---------- descriptors that select can watch ----------

  predicate Small(s: set<int>) {
    forall x :: x in s ==> x < FD_SETSIZE
  }

  // A running program's output and messages can be watched.
  predicate Narrow(c: ConnVal) {
    && c.fd < FD_SETSIZE
    && (c.cgi.phase in {CGI_SRV_TO_CGI, CGI_CGI_TO_SRV, CGI_DONE} ==>
          c.cgi.fds.srvIn < FD_SETSIZE && c.cgi.fds.srvErr < FD_SETSIZE)
  }

  predicate Selectable(l: Local) {
    Small(l.R) && Small(l.W) && Narrow(l.c)
  }

  predicate StaysSelectable(o: Outcome) {
    match o
    case Kept(l) => Selectable(l)
    case Dropped(R, W, _, _) => Small(R) && Small(W)
  }

  lemma ParseNarrow(g: Grammar, c: ConnVal)
    requires Narrow(c) && c.cgi.phase !in {CGI_CGI_TO_SRV, CGI_DONE}
    ensures Narrow(ParseReq(g, c).0) && ParseReq(g, c).0.fd == c.fd
  {
  }

  lemma RecvSelectable(g: Grammar, l: Local, input: Input)
    requires Inv(l) && l.c.req.phase != REQ_DONE && Selectable(l)
    ensures StaysSelectable(LisoRecv(g, l, input))
  {
    if l.c.req.phase != REQ_ABORT && BUFSZ - l.c.buf.sz > 0 && input != Failed && input.bytes != "" {
      ParseNarrow(g, Fed(l.c, Prefix(input.bytes, BUFSZ - l.c.buf.sz)));
    }
  }

  lemma ResetSelectable(g: Grammar, l: Local)
    requires Selectable(l)
    ensures StaysSelectable(ResetOrClose(g, l)) && StaysSelectable(DropConn(l))
  {
    ParseNarrow(g, TakeLast(FreshConn(l.c.fd).(last := l.c.last)));
  }

  lemma TransitionsSelectable(l: Local, rd: set<int>, env: Env)
    requires Selectable(l)
    ensures Selectable(Transitions(l, rd, env))
  {
    var l1 := PrepareStep(l, env.tries, env.header);
    assert Selectable(l1);
    var l2 := SpawnStep(l1, env.spawn);
    SpawnSelectable(l1, env.spawn);
    var l3 := DoneStep(l2);
    assert Selectable(l3);
    StreamSelectable(l3, env.writes);
    FromCgiSelectable(StreamStep(l3, env.writes), rd, env.read);
  }

  lemma SpawnSelectable(l: Local, spawn: Spawn)
    requires Selectable(l)
    ensures Selectable(SpawnStep(l, spawn))
  {
  }

  lemma StreamSelectable(l: Local, writes: seq<int>)
    requires Selectable(l)
    ensures Selectable(StreamStep(l, writes))
  {
  }

  lemma FromCgiSelectable(l: Local, rd: set<int>, input: Input)
    requires Selectable(l)
    ensures Selectable(FromCgiStep(l, rd, input))
  {
  }

  lemma DynSelectable(g: Grammar, l: Local, wr: set<int>, n: int)
    requires Selectable(l)
    ensures StaysSelectable(DynStep(g, l, wr, n))
  {
    ResetSelectable(g, l.(c := ServeDynamic(l.c, n).0));
  }

  lemma StatSelectable(g: Grammar, l: Local, wr: set<int>, n: int, t: HdrText, msg: string)
    requires Selectable(l)
    ensures StaysSelectable(StatStep(g, l, wr, n, t, msg))
  {
    ResetSelectable(g, l.(c := ServeStatic(l.c, n, t, msg).0));
  }

  lemma ServeSelectable(g: Grammar, l: Local, rd: set<int>, wr: set<int>, env: Env)
    requires Inv(l) && (l.c.req.phase == REQ_DONE ==> l.c.fd !in rd) && Selectable(l)
    ensures StaysSelectable(Serve(g, l, rd, wr, env))
  {
    if l.c.fd in rd {
      RecvSelectable(g, l, env.recv);
    }
    var o := if l.c.fd in rd then LisoRecv(g, l, env.recv) else Kept(l);
    if o.Kept? {
      TransitionsSelectable(o.l, rd, env);
      RespondSelectable(g, Transitions(o.l, rd, env), wr, env);
    }
  }

  lemma RespondSelectable(g: Grammar, l: Local, wr: set<int>, env: Env)
    requires Selectable(l)
    ensures StaysSelectable(Respond(g, l, wr, env))
  {
    DynSelectable(g, l, wr, env.dynSend);
    var o := DynStep(g, l, wr, env.dynSend);
    if o.Kept? {
      StatSelectable(g, o.l, wr, env.statSend, env.page, env.msg);
    }
  }

  predicate AllSelectable(p: PoolVal) {
    Small(p.R) && Small(p.W) && forall i :: 0 <= i < |p.conns| ==> Narrow(p.conns[i])
  }

  lemma TurnSelectable(g: Grammar, s: Pass, rd: set<int>, wr: set<int>, env: Env)
    requires s.i < |s.p.conns| && PoolOk(s.p) && NotYetRead(s, rd) && AllSelectable(s.p)
    ensures AllSelectable(Turn(g, s, rd, wr, env).p)
  {
    var l := At(s.p, s.i);
    assert Inv(l) && Narrow(s.p.conns[s.i]);
    ServeSelectable(g, l, rd, wr, env);
    if Serve(g, l, rd, wr, env).Dropped? {
      SwapRemoveAt(s.p.conns, s.i);
    }
  }

  lemma {:induction false} TurnsSelectable(g: Grammar, s: Pass, rd: set<int>, wr: set<int>, envs: seq<Env>)
    requires s.i <= |s.p.conns| && |envs| == |s.p.conns| - s.i
    requires PoolOk(s.p) && NotYetRead(s, rd) && AllSelectable(s.p)
    ensures AllSelectable(Turns(g, s, rd, wr, envs).p)
    decreases |envs|
  {
    if envs != [] {
      TurnOk(g, s, rd, wr, envs[0]);
      TurnSelectable(g, s, rd, wr, envs[0]);
      TurnsSelectable(g, Turn(g, s, rd, wr, envs[0]), rd, wr, envs[1..]);
    }
  }

  lemma AcceptSelectable(p: PoolVal, answer: Option<nat>, usable: bool)
    requires AllSelectable(p)
    ensures AllSelectable(Accept(p, answer, usable))
  {
  }

  // In every state of every run select is given only descriptors that fit
  // into its sets, if the listeners do.
  lemma {:induction false} SelectSafe(g: Grammar, sock: nat, sslSock: nat, xs: seq<PassIn>)
    requires sock != sslSock && sock < FD_SETSIZE && sslSock < FD_SETSIZE
    ensures AllSelectable(Run(g, NewPool(sock, sslSock), xs))
    decreases |xs|
  {
    if xs != [] {
      SelectSafe(g, sock, sslSock, xs[..|xs| - 1]);
      EveryRun(g, sock, sslSock, xs[..|xs| - 1]);
      RoundSelectable(g, Run(g, NewPool(sock, sslSock), xs[..|xs| - 1]), xs[|xs| - 1]);
    }
  }

  lemma RoundSelectable(g: Grammar, p: PoolVal, x: PassIn)
    requires PoolOk(p) && AllSelectable(p)
    ensures AllSelectable(Round(g, p, x))
  {
    if x.selected {
      var rd, wr := x.rd * p.R, x.wr * p.W;
      var p1 := if p.sock in rd then Accept(p, x.first, x.firstUsable) else p;
      AcceptSelectable(p, x.first, x.firstUsable);
      AcceptSelectable(p1, x.second, x.secondUsable);
      AcceptsOk(p, rd, x);
      var p2 := Accepts(p, rd, x);
      TurnsSelectable(g, StartPass(p2), rd, wr, Padded(x.envs, |p2.conns|));
    }
  }

  // ---------- the bound is tight ----------

  // The descriptors that count for the bound.
  function BoundedBy(c: ConnVal): set<int> {
    {c.fd as int, c.cgi.fds.srvIn, c.cgi.fds.srvErr}
  }

  // The maximum is a listener or recorded in a connection that was served.
  ghost predicate Attained(s: Pass) {
    s.max == MinMaxFd(s.p) || exists j :: 0 <= j < s.i && j < |s.p.conns| && s.max in BoundedBy(s.p.conns[j])
  }

  lemma TurnAttained(g: Grammar, s: Pass, rd: set<int>, wr: set<int>, env: Env)
    requires s.i < |s.p.conns| && Attained(s)
    ensures Attained(Turn(g, s, rd, wr, env))
  {
    var t, o := Turn(g, s, rd, wr, env), Serve(g, At(s.p, s.i), rd, wr, env);
    if o.Dropped? {
      SwapRemoveAt(s.p.conns, s.i);
      StillAttained(s, t);
    } else if t.max == s.max {
      StillAttained(s, t);
    } else {
      assert t.p.conns[s.i] == o.l.c && t.max in BoundedBy(o.l.c);
    }
  }

  lemma StillAttained(s: Pass, t: Pass)
    requires Attained(s) && t.max == s.max && MinMaxFd(t.p) == MinMaxFd(s.p) && s.i <= t.i
    requires forall j :: 0 <= j < s.i && j < |s.p.conns| ==> j < |t.p.conns| && t.p.conns[j] == s.p.conns[j]
    ensures Attained(t)
  {
    if s.max != MinMaxFd(s.p) {
      var j :| 0 <= j < s.i && j < |s.p.conns| && s.max in BoundedBy(s.p.conns[j]);
      assert t.max in BoundedBy(t.p.conns[j]);
    }
  }

  lemma {:induction false} TurnsAttained(g: Grammar, s: Pass, rd: set<int>, wr: set<int>, envs: seq<Env>)
    requires s.i <= |s.p.conns| && |envs| == |s.p.conns| - s.i && Attained(s)
    ensures Attained(Turns(g, s, rd, wr, envs))
    decreases |envs|
  {
    if envs != [] {
      TurnAttained(g, s, rd, wr, envs[0]);
      TurnsAttained(g, Turn(g, s, rd, wr, envs[0]), rd, wr, envs[1..]);
    }
  }

  // After a pass the bound is exactly the greatest of the listeners and the
  // descriptors recorded for reading.
  lemma BoundIsMax(g: Grammar, p: PoolVal, x: PassIn)
    requires PoolOk(p) && x.selected
    ensures IsGreatest(Round(g, p, x))
  {
    var p1 := Accepts(p, x.rd * p.R, x);
    var s, envs := StartPass(p1), Padded(x.envs, |p1.conns|);
    TurnsCovered(g, s, x.rd * p.R, x.wr * p.W, envs);
    TurnsAttained(g, s, x.rd * p.R, x.wr * p.W, envs);
    GreatestAtEnd(EndOfPass(g, p, x));
  }

  ghost predicate IsGreatest(p: PoolVal) {
    && p.maxFd >= MinMaxFd(p) && (forall j, y :: 0 <= j < |p.conns| && y in BoundedBy(p.conns[j]) ==> y <= p.maxFd)
    && (p.maxFd == MinMaxFd(p) || exists j :: 0 <= j < |p.conns| && p.maxFd in BoundedBy(p.conns[j]))
  }

  lemma GreatestAtEnd(t: Pass)
    requires Covered(t) && Attained(t) && t.i == |t.p.conns|
    ensures IsGreatest(t.p.(maxFd := t.max))
  {
    forall j, y | 0 <= j < |t.p.conns| && y in BoundedBy(t.p.conns[j])
      ensures y <= t.max
    {
      assert MaxWith(t.max, t.p.conns[j]) == t.max;
    }
    if t.max != MinMaxFd(t.p) {
      var j :| 0 <= j < t.i && j < |t.p.conns| && t.max in BoundedBy(t.p.conns[j]);
      assert t.max in BoundedBy(t.p.(maxFd := t.max).conns[j]);
    }
  }

  // The bound fits into the sets as well, if and only if all descriptors
  // recorded do, also those of a program that could not be started.
  lemma BoundFits(g: Grammar, p: PoolVal, x: PassIn)
    requires PoolOk(p) && x.selected
    ensures var q := Round(g, p, x);
            q.maxFd < FD_SETSIZE <==>
              MinMaxFd(q) < FD_SETSIZE && forall j :: 0 <= j < |q.conns| ==> Small(BoundedBy(q.conns[j]))
  {
    BoundIsMax(g, p, x);
    var q := Round(g, p, x);
    if q.maxFd < FD_SETSIZE {
      forall j, y | 0 <= j < |q.conns| && y in BoundedBy(q.conns[j])
        ensures y < FD_SETSIZE
      {
        assert y <= q.maxFd;
      }
    }
  }
}
