/** Descriptors that nobody closes: exactly when a run leaves some open. */
module Leaks {
  import opened RequestSpec
  import opened ConnSpec
  import opened ServerSpec
  import opened LoopInv
  import opened PoolInv

  // ---------- one turn ----------

  // Among the paths that are tried a file opens but cannot be mapped.
  predicate OpensInVain(open: set<int>, tries: seq<Try>, n: nat)
    decreases n
  {
    n > 0 && tries != [] &&
    match tries[0]
    case MappedAs(fd, _) => fd in open && OpensInVain(open, tries[1..], n - 1)
    case Unmapped(fd) => fd !in open || OpensInVain(open, tries[1..], n - 1)
    case Missing => OpensInVain(open, tries[1..], n - 1)
  }

  lemma {:induction false} LookupLoses(open: set<int>, tries: seq<Try>, n: nat)
    ensures Lookup(open, tries, n).lost != {} <==> OpensInVain(open, tries, n)
    decreases n
  {
    if n > 0 && tries != [] {
      LookupLoses(open, tries[1..], n - 1);
    }
  }

  // A pipe() fails after others succeeded.
  predicate PipesInVain(open: set<int>, p: Spawn) {
    p.NoPipes? && p.made !! open && |p.made| in {2, 4}
  }

  // What the environment answers in this turn makes the server leak.
  predicate Leaks(g: Grammar, l: Local, rd: set<int>, env: Env) {
    match if l.c.fd in rd then LisoRecv(g, l, env.recv) else Kept(l)
    case Dropped(_, _, _, _) => false
    case Kept(l1) =>
      || (Prepares(l1.c) && OpensInVain(l1.open, env.tries, N_TRIES))
      || (Spawns(l1.c) && PipesInVain(l1.open, env.spawn))
  }

  function LostIn(o: Outcome): set<int> {
    match o
    case Kept(l) => l.lost
    case Dropped(_, _, _, lost) => lost
  }

  lemma PrepareLoses(l: Local, tries: seq<Try>, t: HdrText)
    requires l.lost <= l.open
    ensures PrepareStep(l, tries, t).lost == l.lost <==> !(Prepares(l.c) && OpensInVain(l.open, tries, N_TRIES))
    ensures Spawns(PrepareStep(l, tries, t).c) <==> Spawns(l.c)
    ensures Spawns(l.c) ==> PrepareStep(l, tries, t).open == l.open
  {
    if Prepares(l.c) {
      LookupLoses(l.open, tries, N_TRIES);
      LookupFresh(l.open, tries, N_TRIES);
      var lost := Lookup(l.open, tries, N_TRIES).lost;
      NewOnes(l.lost, l.open, lost);
    }
  }

  lemma NewOnes(old_: set<int>, open: set<int>, new_: set<int>)
    requires old_ <= open && new_ !! open
    ensures old_ + new_ == old_ <==> new_ == {}
  {
    if x :| x in new_ {
      assert x in old_ + new_ && x !in old_;
    }
  }

  lemma SpawnLoses(l: Local, spawn: Spawn)
    requires l.lost <= l.open
    ensures SpawnStep(l, spawn).lost == l.lost <==> !(Spawns(l.c) && PipesInVain(l.open, spawn))
  {
    var p := Possible(l.open, spawn);
    if Spawns(l.c) && p.NoPipes? {
      NewOnes(l.lost, l.open, Stray(p));
      assert PipesInVain(l.open, spawn) <==> Stray(p) != {};
    }
  }

  lemma TransitionsLose(l: Local, rd: set<int>, env: Env)
    requires Inv(l)
    ensures Transitions(l, rd, env).lost == l.lost <==>
              !((Prepares(l.c) && OpensInVain(l.open, env.tries, N_TRIES)) || (Spawns(l.c) && PipesInVain(l.open, env.spawn)))
  {
    var l1 := PrepareStep(l, env.tries, env.header);
    PrepareStepOk(l, env.tries, env.header);
    PrepareLoses(l, env.tries, env.header);
    SpawnLoses(l1, env.spawn);
    assert Prepares(l.c) ==> !Spawns(l.c);
    OthersKeepLost(SpawnStep(l1, env.spawn), rd, env);
  }

  lemma OthersKeepLost(l: Local, rd: set<int>, env: Env)
    ensures FromCgiStep(StreamStep(DoneStep(l), env.writes), rd, env.read).lost == l.lost
  {
  }

  lemma RespondKeepsLost(g: Grammar, l: Local, wr: set<int>, env: Env)
    ensures LostIn(Respond(g, l, wr, env)) == l.lost
  {
    DynKeepsLost(g, l, wr, env.dynSend);
    var o := DynStep(g, l, wr, env.dynSend);
    if o.Kept? {
      StatKeepsLost(g, o.l, wr, env);
    }
  }

  lemma ResetKeepsLost(g: Grammar, l: Local)
    ensures LostIn(ResetOrClose(g, l)) == l.lost && LostIn(DropConn(l)) == l.lost
  {
  }

  lemma DynKeepsLost(g: Grammar, l: Local, wr: set<int>, n: int)
    ensures LostIn(DynStep(g, l, wr, n)) == l.lost
  {
    ResetKeepsLost(g, l.(c := ServeDynamic(l.c, n).0));
  }

  lemma StatKeepsLost(g: Grammar, l: Local, wr: set<int>, env: Env)
    ensures LostIn(StatStep(g, l, wr, env.statSend, env.page, env.msg)) == l.lost
  {
    ResetKeepsLost(g, l.(c := ServeStatic(l.c, env.statSend, env.page, env.msg).0));
  }

  lemma ServeLoses(g: Grammar, l: Local, rd: set<int>, wr: set<int>, env: Env)
    requires Inv(l) && (l.c.req.phase == REQ_DONE ==> l.c.fd !in rd)
    ensures l.lost <= LostIn(Serve(g, l, rd, wr, env))
    ensures LostIn(Serve(g, l, rd, wr, env)) == l.lost <==> !Leaks(g, l, rd, env)
  {
    ServeOk(g, l, rd, wr, env);
    if l.c.fd in rd {
      LisoRecvOk(g, l, env.recv);
      RecvKeepsLost(g, l, env.recv);
    }
    var o := if l.c.fd in rd then LisoRecv(g, l, env.recv) else Kept(l);
    if o.Kept? {
      TransitionsLose(o.l, rd, env);
      RespondKeepsLost(g, Transitions(o.l, rd, env), wr, env);
    }
  }

  lemma RecvKeepsLost(g: Grammar, l: Local, input: Input)
    ensures LostIn(LisoRecv(g, l, input)) == l.lost
  {
  }

  // ---------- passes and runs ----------

  ghost predicate LeakFreeTurns(g: Grammar, s: Pass, rd: set<int>, wr: set<int>, envs: seq<Env>)
    requires s.i <= |s.p.conns| && |envs| == |s.p.conns| - s.i
    decreases |envs|
  {
    envs != [] ==>
      !Leaks(g, At(s.p, s.i), rd, envs[0]) && LeakFreeTurns(g, Turn(g, s, rd, wr, envs[0]), rd, wr, envs[1..])
  }

  lemma {:induction false} TurnsLose(g: Grammar, s: Pass, rd: set<int>, wr: set<int>, envs: seq<Env>)
    requires s.i <= |s.p.conns| && |envs| == |s.p.conns| - s.i
    requires PoolOk(s.p) && NotYetRead(s, rd)
    ensures s.p.lost <= Turns(g, s, rd, wr, envs).p.lost
    ensures Turns(g, s, rd, wr, envs).p.lost == s.p.lost <==> LeakFreeTurns(g, s, rd, wr, envs)
    decreases |envs|
  {
    if envs != [] {
      assert Inv(At(s.p, s.i));
      ServeLoses(g, At(s.p, s.i), rd, wr, envs[0]);
      TurnOk(g, s, rd, wr, envs[0]);
      TurnsLose(g, Turn(g, s, rd, wr, envs[0]), rd, wr, envs[1..]);
    }
  }

  ghost predicate LeakFreeRound(g: Grammar, p: PoolVal, x: PassIn) {
    x.selected ==>
      var rd := x.rd * p.R;
      var p1 := Accepts(p, rd, x);
      LeakFreeTurns(g, StartPass(p1), rd, x.wr * p.W, Padded(x.envs, |p1.conns|))
  }

  lemma RoundLoses(g: Grammar, p: PoolVal, x: PassIn)
    requires PoolOk(p)
    ensures p.lost <= Round(g, p, x).lost
    ensures Round(g, p, x).lost == p.lost <==> LeakFreeRound(g, p, x)
  {
    if x.selected {
      var rd, wr := x.rd * p.R, x.wr * p.W;
      var p1 := Accepts(p, rd, x);
      AcceptsOk(p, rd, x);
      TurnsLose(g, StartPass(p1), rd, wr, Padded(x.envs, |p1.conns|));
    }
  }

  ghost predicate LeakFreeRun(g: Grammar, p: PoolVal, xs: seq<PassIn>)
    decreases |xs|
  {
    xs != [] ==> LeakFreeRun(g, p, xs[..|xs| - 1]) && LeakFreeRound(g, Run(g, p, xs[..|xs| - 1]), xs[|xs| - 1])
  }

  // What is lost stays open for ever.
  lemma {:induction false} LostForEver(g: Grammar, p: PoolVal, xs: seq<PassIn>)
    requires PoolOk(p) && Bounded(p)
    ensures PoolOk(Run(g, p, xs)) && Bounded(Run(g, p, xs)) && p.lost <= Run(g, p, xs).lost <= Run(g, p, xs).open
    decreases |xs|
  {
    if xs != [] {
      LostForEver(g, p, xs[..|xs| - 1]);
      RoundOk(g, Run(g, p, xs[..|xs| - 1]), xs[|xs| - 1]);
      RoundLoses(g, Run(g, p, xs[..|xs| - 1]), xs[|xs| - 1]);
    }
  }

  lemma {:induction false} RunLoses(g: Grammar, sock: nat, sslSock: nat, xs: seq<PassIn>)
    requires sock != sslSock
    ensures Run(g, NewPool(sock, sslSock), xs).lost == {} <==> LeakFreeRun(g, NewPool(sock, sslSock), xs)
    decreases |xs|
  {
    if xs != [] {
      var p := Run(g, NewPool(sock, sslSock), xs[..|xs| - 1]);
      RunLoses(g, sock, sslSock, xs[..|xs| - 1]);
      EveryRun(g, sock, sslSock, xs[..|xs| - 1]);
      RoundLoses(g, p, xs[|xs| - 1]);
    }
  }

  // After a run the open descriptors are exactly the listeners and those
  // recorded in live connections, if and only if in no turn a file opened
  // that could not be mapped, and no pipe() failed behind another.
  lemma AllAccountedFor(g: Grammar, sock: nat, sslSock: nat, xs: seq<PassIn>)
    requires sock != sslSock
    ensures var p := Run(g, NewPool(sock, sslSock), xs);
            p.open == {sock, sslSock} + AllOwned(p.conns) <==> LeakFreeRun(g, NewPool(sock, sslSock), xs)
  {
    var p := Run(g, NewPool(sock, sslSock), xs);
    RunLoses(g, sock, sslSock, xs);
    EveryRun(g, sock, sslSock, xs);
    Ownership(p);
    SameListeners(g, NewPool(sock, sslSock), xs);
    if x :| x in p.lost {
      assert x in p.open && x !in {sock, sslSock} + AllOwned(p.conns);
    }
  }

  lemma {:induction false} TurnsListeners(g: Grammar, s: Pass, rd: set<int>, wr: set<int>, envs: seq<Env>)
    requires s.i <= |s.p.conns| && |envs| == |s.p.conns| - s.i
    ensures Turns(g, s, rd, wr, envs).p.sock == s.p.sock && Turns(g, s, rd, wr, envs).p.sslSock == s.p.sslSock
    decreases |envs|
  {
    if envs != [] {
      TurnsListeners(g, Turn(g, s, rd, wr, envs[0]), rd, wr, envs[1..]);
    }
  }

  lemma {:induction false} SameListeners(g: Grammar, p: PoolVal, xs: seq<PassIn>)
    ensures Run(g, p, xs).sock == p.sock && Run(g, p, xs).sslSock == p.sslSock
    decreases |xs|
  {
    if xs != [] {
      var q, x := Run(g, p, xs[..|xs| - 1]), xs[|xs| - 1];
      SameListeners(g, p, xs[..|xs| - 1]);
      var p1 := Accepts(q, x.rd * q.R, x);
      TurnsListeners(g, StartPass(p1), x.rd * q.R, x.wr * q.W, Padded(x.envs, |p1.conns|));
    }
  }
}
