/** The two kinds of stalls over whole passes and whole runs: a complete
    request is found again by the next pass, a stuck one never. */
module StuckRuns {
  import opened Text
  import opened RequestSpec
  import opened ServerSpec
  import opened LoopInv
  import opened Watch
  import opened PoolInv
  import opened WatchRuns

  // ---------- no turn sticks ----------

  // Connections that were served and will not be found again.
  ghost predicate FrontHalf(s: Pass) {
    forall j :: 0 <= j < s.i && j < |s.p.conns| ==> HalfWatched(At(s.p, j))
  }

  lemma TurnHalf(g: Grammar, s: Pass, rd: set<int>, wr: set<int>, env: Env)
    requires s.i < |s.p.conns| && PoolOk(s.p) && NotYetRead(s, rd) && FrontHalf(s) && BackHalf(s)
    ensures FrontHalf(Turn(g, s, rd, wr, env)) <==> !SticksInTurn(g, At(s.p, s.i), rd, wr, env)
  {
    var a, t := At(s.p, s.i), Turn(g, s, rd, wr, env);
    assert Inv(a) && HalfWatched(a);
    forall k | 0 <= k < s.i && k < |t.p.conns|
      ensures HalfWatched(At(t.p, k))
    {
      assert HalfWatched(At(s.p, k));
      TurnAlike(g, s, rd, wr, env, k, k);
      AlikeWatched(At(s.p, k), At(t.p, k));
    }
    SticksHere(g, a, rd, wr, env);
    if Serve(g, a, rd, wr, env).Kept? {
      assert At(t.p, s.i) == Serve(g, a, rd, wr, env).l;
    }
  }

  lemma SticksHere(g: Grammar, l: Local, rd: set<int>, wr: set<int>, env: Env)
    requires Inv(l) && HalfWatched(l) && (l.c.req.phase == REQ_DONE ==> l.c.fd !in rd)
    ensures var o := Serve(g, l, rd, wr, env);
            SticksInTurn(g, l, rd, wr, env) <==> o.Kept? && !HalfWatched(o.l)
  {
    StickIsStall(g, l, rd, wr, env);
    StallIsKept(g, l, rd, wr, env);
    if Serve(g, l, rd, wr, env).Kept? {
      StallKinds(g, l, rd, wr, env);
    }
  }

  lemma StickIsStall(g: Grammar, l: Local, rd: set<int>, wr: set<int>, env: Env)
    ensures SticksInTurn(g, l, rd, wr, env) ==> StallsInTurn(g, l, rd, wr, env)
  {
  }

  // No turn of the pass sticks.
  ghost predicate Unstuck(g: Grammar, s: Pass, rd: set<int>, wr: set<int>, envs: seq<Env>)
    requires s.i <= |s.p.conns| && |envs| == |s.p.conns| - s.i
    decreases |envs|
  {
    envs != [] ==>
      && !SticksInTurn(g, At(s.p, s.i), rd, wr, envs[0])
      && Unstuck(g, Turn(g, s, rd, wr, envs[0]), rd, wr, envs[1..])
  }

  lemma {:induction false} FrontStaysStuck(g: Grammar, s: Pass, rd: set<int>, wr: set<int>, envs: seq<Env>)
    requires s.i <= |s.p.conns| && |envs| == |s.p.conns| - s.i
    requires PoolOk(s.p) && NotYetRead(s, rd) && !FrontHalf(s)
    ensures !AllHalf(Turns(g, s, rd, wr, envs).p)
    decreases |envs|
  {
    if envs != [] {
      var t := Turn(g, s, rd, wr, envs[0]);
      var j :| 0 <= j < s.i && j < |s.p.conns| && !HalfWatched(At(s.p, j));
      TurnAlike(g, s, rd, wr, envs[0], j, j);
      AlikeWatched(At(s.p, j), At(t.p, j));
      TurnOk(g, s, rd, wr, envs[0]);
      FrontStaysStuck(g, t, rd, wr, envs[1..]);
    }
  }

  lemma {:induction false} TurnsHalf(g: Grammar, s: Pass, rd: set<int>, wr: set<int>, envs: seq<Env>)
    requires s.i <= |s.p.conns| && |envs| == |s.p.conns| - s.i
    requires PoolOk(s.p) && NotYetRead(s, rd) && FrontHalf(s) && BackHalf(s)
    ensures AllHalf(Turns(g, s, rd, wr, envs).p) <==> Unstuck(g, s, rd, wr, envs)
    decreases |envs|
  {
    if envs != [] {
      var t := Turn(g, s, rd, wr, envs[0]);
      TurnOk(g, s, rd, wr, envs[0]);
      TurnHalf(g, s, rd, wr, envs[0]);
      TurnBackHalf(g, s, rd, wr, envs[0]);
      if FrontHalf(t) {
        TurnsHalf(g, t, rd, wr, envs[1..]);
      } else {
        FrontStaysStuck(g, t, rd, wr, envs[1..]);
      }
    }
  }

  ghost predicate UnstuckRound(g: Grammar, p: PoolVal, x: PassIn) {
    x.selected ==>
      var rd := x.rd * p.R;
      var p1 := Accepts(p, rd, x);
      Unstuck(g, StartPass(p1), rd, x.wr * p.W, Padded(x.envs, |p1.conns|))
  }

  lemma SameHalf(p: PoolVal, max: int)
    ensures AllHalf(p.(maxFd := max)) <==> AllHalf(p)
  {
    var q := p.(maxFd := max);
    assert forall i :: 0 <= i < |p.conns| ==> At(q, i) == At(p, i);
  }

  lemma RoundHalf(g: Grammar, p: PoolVal, x: PassIn)
    requires PoolOk(p) && AllHalf(p)
    ensures AllHalf(Round(g, p, x)) <==> UnstuckRound(g, p, x)
  {
    if x.selected {
      var rd, wr := x.rd * p.R, x.wr * p.W;
      var p1 := Accepts(p, rd, x);
      AcceptsOk(p, rd, x);
      AcceptsHalf(p, rd, x);
      TurnsHalf(g, StartPass(p1), rd, wr, Padded(x.envs, |p1.conns|));
      SameHalf(EndOfPass(g, p, x).p, EndOfPass(g, p, x).max);
    }
  }

  ghost predicate UnstuckRun(g: Grammar, p: PoolVal, xs: seq<PassIn>)
    decreases |xs|
  {
    xs != [] ==> UnstuckRun(g, p, xs[..|xs| - 1]) && UnstuckRound(g, Run(g, p, xs[..|xs| - 1]), xs[|xs| - 1])
  }

  lemma {:induction false} UnstuckIsHalf(g: Grammar, sock: nat, sslSock: nat, xs: seq<PassIn>)
    requires sock != sslSock && UnstuckRun(g, NewPool(sock, sslSock), xs)
    ensures AllHalf(Run(g, NewPool(sock, sslSock), xs))
    decreases |xs|
  {
    if xs != [] {
      UnstuckIsHalf(g, sock, sslSock, xs[..|xs| - 1]);
      EveryRun(g, sock, sslSock, xs[..|xs| - 1]);
      RoundHalf(g, Run(g, NewPool(sock, sslSock), xs[..|xs| - 1]), xs[|xs| - 1]);
    }
  }

  // As long as no turn sticks, no request waits for longer than a pass: what
  // is not watched after a pass stalled in that very pass.
  lemma LateByOnePass(g: Grammar, sock: nat, sslSock: nat, xs: seq<PassIn>, x: PassIn)
    requires sock != sslSock && UnstuckRun(g, NewPool(sock, sslSock), xs) && x.selected
    ensures var p := Run(g, NewPool(sock, sslSock), xs);
            AllWatched(Round(g, p, x)) <==> SmoothRound(g, p, x)
  {
    UnstuckIsHalf(g, sock, sslSock, xs);
    EveryRun(g, sock, sslSock, xs);
    RoundWatched(g, Run(g, NewPool(sock, sslSock), xs), x);
  }

  // ---------- stuck for good ----------

  ghost predicate HasStuck(p: PoolVal, f: int) {
    exists j :: 0 <= j < |p.conns| && p.conns[j].fd == f && Stuck(At(p, j))
  }

  // Dropped in this pass: connections leave in no other way.
  ghost predicate Left(s: Pass, f: int) {
    exists k :: 0 <= k < |s.dropped| && s.dropped[k].fd == f
  }

  lemma TurnStuck(g: Grammar, s: Pass, rd: set<int>, wr: set<int>, env: Env, f: int)
    requires s.i < |s.p.conns| && PoolOk(s.p) && NotYetRead(s, rd) && HasStuck(s.p, f) && f !in wr
    ensures HasStuck(Turn(g, s, rd, wr, env).p, f) || Left(Turn(g, s, rd, wr, env), f)
  {
    var j :| 0 <= j < |s.p.conns| && s.p.conns[j].fd == f && Stuck(At(s.p, j));
    if j == s.i {
      ServedStuck(g, s, rd, wr, env);
    } else {
      WaitingStuck(g, s, rd, wr, env, j);
    }
  }

  lemma ServedStuck(g: Grammar, s: Pass, rd: set<int>, wr: set<int>, env: Env)
    requires s.i < |s.p.conns| && Stuck(At(s.p, s.i)) && s.p.conns[s.i].fd !in wr
    ensures var t, f := Turn(g, s, rd, wr, env), s.p.conns[s.i].fd; HasStuck(t.p, f) || Left(t, f)
  {
    var t, o := Turn(g, s, rd, wr, env), Serve(g, At(s.p, s.i), rd, wr, env);
    if o.Kept? {
      StuckStays(g, At(s.p, s.i), rd, wr, env);
      assert At(t.p, s.i) == o.l;
    } else {
      assert t.dropped[|s.dropped|] == s.p.conns[s.i];
    }
  }

  lemma WaitingStuck(g: Grammar, s: Pass, rd: set<int>, wr: set<int>, env: Env, j: nat)
    requires s.i < |s.p.conns| && PoolOk(s.p) && NotYetRead(s, rd)
    requires j < |s.p.conns| && j != s.i && Stuck(At(s.p, j))
    ensures HasStuck(Turn(g, s, rd, wr, env).p, s.p.conns[j].fd)
  {
    var t := TurnIndex(g, s, rd, wr, env);
    var k := if t.i == s.i && j == |s.p.conns| - 1 then s.i else j;
    TurnAlike(g, s, rd, wr, env, j, k);
    MovedStuck(s.p, j, t.p, k);
  }

  lemma TurnIndex(g: Grammar, s: Pass, rd: set<int>, wr: set<int>, env: Env) returns (t: Pass)
    requires s.i < |s.p.conns|
    ensures t == Turn(g, s, rd, wr, env) && s.i <= t.i <= s.i + 1 && |t.p.conns| == |s.p.conns| - s.i - 1 + t.i
  {
    t := Turn(g, s, rd, wr, env);
  }

  lemma MovedStuck(p: PoolVal, j: nat, q: PoolVal, k: nat)
    requires j < |p.conns| && k < |q.conns| && Alike(At(p, j), At(q, k)) && FdsOk(p.conns[j]) && Stuck(At(p, j))
    ensures HasStuck(q, p.conns[j].fd)
  {
    AlikeWatched(At(p, j), At(q, k));
    assert q.conns[k].fd == p.conns[j].fd && Stuck(At(q, k));
  }

  lemma {:induction false} LeftStays(g: Grammar, s: Pass, rd: set<int>, wr: set<int>, envs: seq<Env>, f: int)
    requires s.i <= |s.p.conns| && |envs| == |s.p.conns| - s.i && Left(s, f)
    ensures Left(Turns(g, s, rd, wr, envs), f)
    decreases |envs|
  {
    if envs != [] {
      var k :| 0 <= k < |s.dropped| && s.dropped[k].fd == f;
      var t := Turn(g, s, rd, wr, envs[0]);
      assert t.dropped[k] == s.dropped[k];
      LeftStays(g, t, rd, wr, envs[1..], f);
    }
  }

  lemma {:induction false} TurnsStuck(g: Grammar, s: Pass, rd: set<int>, wr: set<int>, envs: seq<Env>, f: int)
    requires s.i <= |s.p.conns| && |envs| == |s.p.conns| - s.i
    requires PoolOk(s.p) && NotYetRead(s, rd) && HasStuck(s.p, f) && f !in wr
    ensures HasStuck(Turns(g, s, rd, wr, envs).p, f) || Left(Turns(g, s, rd, wr, envs), f)
    decreases |envs|
  {
    if envs != [] {
      var t := Turn(g, s, rd, wr, envs[0]);
      TurnOk(g, s, rd, wr, envs[0]);
      TurnStuck(g, s, rd, wr, envs[0], f);
      if HasStuck(t.p, f) {
        TurnsStuck(g, t, rd, wr, envs[1..], f);
      } else {
        LeftStays(g, t, rd, wr, envs[1..], f);
      }
    }
  }

  lemma AcceptStuck(p: PoolVal, answer: Option<nat>, usable: bool, f: int)
    requires HasStuck(p, f)
    ensures HasStuck(Accept(p, answer, usable), f) && Accept(p, answer, usable).W == p.W
  {
    var j :| 0 <= j < |p.conns| && p.conns[j].fd == f && Stuck(At(p, j));
    var q := Accept(p, answer, usable);
    assert q.conns[j].fd == f && Stuck(At(q, j));
  }

  lemma RoundStuck(g: Grammar, p: PoolVal, x: PassIn, f: int)
    requires PoolOk(p) && HasStuck(p, f)
    ensures HasStuck(Round(g, p, x), f) || (x.selected && Left(EndOfPass(g, p, x), f))
  {
    if x.selected {
      var rd, wr := x.rd * p.R, x.wr * p.W;
      var p1 := if p.sock in rd then Accept(p, x.first, x.firstUsable) else p;
      AcceptStuck(p, x.first, x.firstUsable, f);
      AcceptStuck(p1, x.second, x.secondUsable, f);
      AcceptsOk(p, rd, x);
      var p2 := Accepts(p, rd, x);
      TurnsStuck(g, StartPass(p2), rd, wr, Padded(x.envs, |p2.conns|), f);
      if HasStuck(EndOfPass(g, p, x).p, f) {
        SameStuck(EndOfPass(g, p, x).p, EndOfPass(g, p, x).max, f);
      }
    }
  }

  lemma SameStuck(p: PoolVal, max: int, f: int)
    requires HasStuck(p, f)
    ensures HasStuck(p.(maxFd := max), f)
  {
    var j :| 0 <= j < |p.conns| && p.conns[j].fd == f && Stuck(At(p, j));
    var q := p.(maxFd := max);
    assert At(q, j) == At(p, j) && q.conns[j].fd == f;
  }

  // In some round of the run a connection with descriptor f was dropped.
  ghost predicate EverLeft(g: Grammar, p: PoolVal, xs: seq<PassIn>, f: int)
    decreases |xs|
  {
    xs != [] &&
    var ys, x := xs[..|xs| - 1], xs[|xs| - 1];
    EverLeft(g, p, ys, f) || (x.selected && Left(EndOfPass(g, Run(g, p, ys), x), f))
  }

  // A stuck connection is never waited for again: whatever happens, it stays
  // stuck until it is dropped.
  lemma {:induction false} StuckForGood(g: Grammar, p: PoolVal, xs: seq<PassIn>, f: int)
    requires PoolOk(p) && Bounded(p) && HasStuck(p, f)
    ensures PoolOk(Run(g, p, xs)) && Bounded(Run(g, p, xs))
    ensures HasStuck(Run(g, p, xs), f) || EverLeft(g, p, xs, f)
    decreases |xs|
  {
    if xs != [] {
      var ys, x := xs[..|xs| - 1], xs[|xs| - 1];
      StuckForGood(g, p, ys, f);
      RoundOk(g, Run(g, p, ys), x);
      if HasStuck(Run(g, p, ys), f) {
        RoundStuck(g, Run(g, p, ys), x, f);
      }
    }
  }
}
