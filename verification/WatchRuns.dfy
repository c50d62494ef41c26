/** Watching over whole passes and whole runs: exactly when some connection is
    not waited for at a select. */
module WatchRuns {
  import opened Text
  import opened RequestSpec
  import opened ServerSpec
  import opened LoopInv
  import opened Watch
  import opened PoolInv

  ghost predicate AllWatched(p: PoolVal) {
    forall i :: 0 <= i < |p.conns| ==> Watched(At(p, i))
  }

  ghost predicate AllHalf(p: PoolVal) {
    forall i :: 0 <= i < |p.conns| ==> HalfWatched(At(p, i))
  }

  lemma AlikeWatched(l: Local, m: Local)
    requires Alike(l, m) && FdsOk(l.c)
    ensures (Watched(l) <==> Watched(m)) && (HalfWatched(l) <==> HalfWatched(m)) && (Stuck(l) <==> Stuck(m))
  {
    assert l.c.fd in Own(l.c) && (l.c.cgi.fds.srvIn > 0 ==> l.c.cgi.fds.srvIn in Own(l.c));
  }

  // ---------- one turn ----------

  // In the middle of a pass the connections that were served are watched, the
  // others have what their turn needs to watch them.
  ghost predicate FrontWatched(s: Pass) {
    forall j :: 0 <= j < s.i && j < |s.p.conns| ==> Watched(At(s.p, j))
  }

  ghost predicate BackHalf(s: Pass) {
    forall j :: s.i <= j < |s.p.conns| ==> HalfWatched(At(s.p, j))
  }

  // The connection in slot j after the turn of slot i was kept: the same as
  // before, and alike.
  lemma KeptAlike(p: PoolVal, i: nat, b: Local, j: nat)
    requires PoolOk(p) && i < |p.conns| && j < |p.conns| && i != j && Inv(b) && Frame(At(p, i), b)
    ensures Alike(At(p, j), At(Put(p, i, b), j)) && FdsOk(p.conns[j])
  {
    assert Inv(At(p, j));
    BystanderKept(At(p, i), b, p.conns[j]);
    assert At(Put(p, i, b), j) == b.(c := p.conns[j]) && At(p, j) == At(p, i).(c := p.conns[j]);
  }

  lemma DroppedAlike(p: PoolVal, i: nat, R: set<int>, W: set<int>, open: set<int>, lost: set<int>, j: nat, k: nat)
    requires PoolOk(p) && i < |p.conns| && j < |p.conns| && k < |p.conns| - 1 && Released(At(p, i), R, W, open, lost)
    requires j == if k == i then |p.conns| - 1 else k
    ensures Alike(At(p, j), At(Remove(p, i, R, W, open, lost), k)) && FdsOk(p.conns[j])
  {
    SwapRemoveAt(p.conns, i);
    assert Inv(At(p, j));
    OtherStays(p, i, R, W, open, lost, j);
  }

  // Slot j, which was not served, is slot k after the turn: the last one
  // takes the place of a connection that was dropped.
  predicate Moves(s: Pass, t: Pass, j: nat, k: nat) {
    && j < |s.p.conns| && k < |t.p.conns|
    && (k == s.i ==> t.i == s.i) && j == if k == s.i then |s.p.conns| - 1 else k
  }

  lemma TurnAlike(g: Grammar, s: Pass, rd: set<int>, wr: set<int>, env: Env, j: nat, k: nat)
    requires s.i < |s.p.conns| && PoolOk(s.p) && NotYetRead(s, rd) && Moves(s, Turn(g, s, rd, wr, env), j, k)
    ensures Alike(At(s.p, j), At(Turn(g, s, rd, wr, env).p, k)) && FdsOk(s.p.conns[j])
  {
    var a := At(s.p, s.i);
    assert Inv(a);
    ServeOk(g, a, rd, wr, env);
    match Serve(g, a, rd, wr, env)
    case Kept(b) => KeptAlike(s.p, s.i, b, k);
    case Dropped(R, W, open, lost) => DroppedAlike(s.p, s.i, R, W, open, lost, j, k);
  }

  lemma TurnBackHalf(g: Grammar, s: Pass, rd: set<int>, wr: set<int>, env: Env)
    requires s.i < |s.p.conns| && PoolOk(s.p) && NotYetRead(s, rd) && BackHalf(s)
    ensures BackHalf(Turn(g, s, rd, wr, env))
  {
    var t := Turn(g, s, rd, wr, env);
    forall k | t.i <= k < |t.p.conns|
      ensures HalfWatched(At(t.p, k))
    {
      var j := if k == s.i then |s.p.conns| - 1 else k;
      TurnAlike(g, s, rd, wr, env, j, k);
      AlikeWatched(At(s.p, j), At(t.p, k));
      assert HalfWatched(At(s.p, j));
    }
  }

  // A turn forgets a connection exactly if it stalls.
  lemma TurnWatched(g: Grammar, s: Pass, rd: set<int>, wr: set<int>, env: Env)
    requires s.i < |s.p.conns| && PoolOk(s.p) && NotYetRead(s, rd) && FrontWatched(s) && BackHalf(s)
    ensures FrontWatched(Turn(g, s, rd, wr, env)) <==> !StallsInTurn(g, At(s.p, s.i), rd, wr, env)
  {
    var a, t := At(s.p, s.i), Turn(g, s, rd, wr, env);
    assert Inv(a) && HalfWatched(a);
    forall k | 0 <= k < s.i && k < |t.p.conns|
      ensures Watched(At(t.p, k))
    {
      assert Watched(At(s.p, k));
      TurnAlike(g, s, rd, wr, env, k, k);
      AlikeWatched(At(s.p, k), At(t.p, k));
    }
    StallIsKept(g, a, rd, wr, env);
    if Serve(g, a, rd, wr, env).Kept? {
      ServeWatched(g, a, rd, wr, env);
      assert At(t.p, s.i) == Serve(g, a, rd, wr, env).l;
    }
  }

  // ---------- one pass ----------

  // No turn of the pass stalls.
  ghost predicate Smooth(g: Grammar, s: Pass, rd: set<int>, wr: set<int>, envs: seq<Env>)
    requires s.i <= |s.p.conns| && |envs| == |s.p.conns| - s.i
    decreases |envs|
  {
    envs != [] ==>
      && !StallsInTurn(g, At(s.p, s.i), rd, wr, envs[0])
      && Smooth(g, Turn(g, s, rd, wr, envs[0]), rd, wr, envs[1..])
  }

  // A connection that was served is not touched again in the pass.
  lemma {:induction false} FrontStays(g: Grammar, s: Pass, rd: set<int>, wr: set<int>, envs: seq<Env>)
    requires s.i <= |s.p.conns| && |envs| == |s.p.conns| - s.i
    requires PoolOk(s.p) && NotYetRead(s, rd) && !FrontWatched(s)
    ensures !AllWatched(Turns(g, s, rd, wr, envs).p)
    decreases |envs|
  {
    if envs != [] {
      var t := Turn(g, s, rd, wr, envs[0]);
      var j :| 0 <= j < s.i && j < |s.p.conns| && !Watched(At(s.p, j));
      TurnAlike(g, s, rd, wr, envs[0], j, j);
      AlikeWatched(At(s.p, j), At(t.p, j));
      TurnOk(g, s, rd, wr, envs[0]);
      FrontStays(g, t, rd, wr, envs[1..]);
    }
  }

  lemma {:induction false} TurnsWatched(g: Grammar, s: Pass, rd: set<int>, wr: set<int>, envs: seq<Env>)
    requires s.i <= |s.p.conns| && |envs| == |s.p.conns| - s.i
    requires PoolOk(s.p) && NotYetRead(s, rd) && FrontWatched(s) && BackHalf(s)
    ensures AllWatched(Turns(g, s, rd, wr, envs).p) <==> Smooth(g, s, rd, wr, envs)
    decreases |envs|
  {
    if envs != [] {
      var t := Turn(g, s, rd, wr, envs[0]);
      TurnOk(g, s, rd, wr, envs[0]);
      TurnWatched(g, s, rd, wr, envs[0]);
      TurnBackHalf(g, s, rd, wr, envs[0]);
      if FrontWatched(t) {
        TurnsWatched(g, t, rd, wr, envs[1..]);
      } else {
        FrontStays(g, t, rd, wr, envs[1..]);
      }
    }
  }

  // ---------- rounds and runs ----------

  lemma AcceptHalf(p: PoolVal, answer: Option<nat>, usable: bool)
    requires PoolOk(p) && AllHalf(p)
    ensures AllHalf(Accept(p, answer, usable))
  {
    var q := Accept(p, answer, usable);
    if q != p {
      forall j | 0 <= j < |p.conns|
        ensures HalfWatched(At(q, j))
      {
        assert Inv(At(p, j)) && Quiet(At(p, j)) && HalfWatched(At(p, j));
        BystanderNew(At(p, j), answer.value);
        assert At(q, j) == At(p, j).(R := q.R, open := q.open);
        AlikeWatched(At(p, j), At(q, j));
      }
    }
  }

  lemma AcceptsHalf(p: PoolVal, rd: set<int>, x: PassIn)
    requires PoolOk(p) && rd <= p.R && AllHalf(p)
    ensures AllHalf(Accepts(p, rd, x))
  {
    var p1 := if p.sock in rd then Accept(p, x.first, x.firstUsable) else p;
    AcceptOk(p, x.first, x.firstUsable, rd);
    AcceptHalf(p, x.first, x.firstUsable);
    AcceptHalf(p1, x.second, x.secondUsable);
  }

  ghost predicate SmoothRound(g: Grammar, p: PoolVal, x: PassIn) {
    x.selected ==>
      var rd := x.rd * p.R;
      var p1 := Accepts(p, rd, x);
      Smooth(g, StartPass(p1), rd, x.wr * p.W, Padded(x.envs, |p1.conns|))
  }

  lemma SameConns(p: PoolVal, max: int)
    ensures AllWatched(p.(maxFd := max)) <==> AllWatched(p)
  {
    var q := p.(maxFd := max);
    assert forall i :: 0 <= i < |p.conns| ==> At(q, i) == At(p, i);
  }

  // One pass is enough: if every connection has what its turn needs, then
  // after the pass every one is watched, exactly if no turn of it stalled.
  // Requests that stalled in the pass before are found again.
  lemma RoundWatched(g: Grammar, p: PoolVal, x: PassIn)
    requires PoolOk(p) && AllHalf(p) && x.selected
    ensures AllWatched(Round(g, p, x)) <==> SmoothRound(g, p, x)
  {
    var rd, wr := x.rd * p.R, x.wr * p.W;
    var p1 := Accepts(p, rd, x);
    AcceptsOk(p, rd, x);
    AcceptsHalf(p, rd, x);
    TurnsWatched(g, StartPass(p1), rd, wr, Padded(x.envs, |p1.conns|));
    SameConns(EndOfPass(g, p, x).p, EndOfPass(g, p, x).max);
  }

  lemma AllWatchedIsHalf(p: PoolVal)
    requires PoolOk(p) && AllWatched(p)
    ensures AllHalf(p)
  {
    forall i | 0 <= i < |p.conns|
      ensures HalfWatched(At(p, i))
    {
      assert Inv(At(p, i)) && Watched(At(p, i));
      WatchedIsHalf(At(p, i));
    }
  }

  ghost predicate SmoothRun(g: Grammar, p: PoolVal, xs: seq<PassIn>)
    decreases |xs|
  {
    xs != [] ==> SmoothRun(g, p, xs[..|xs| - 1]) && SmoothRound(g, Run(g, p, xs[..|xs| - 1]), xs[|xs| - 1])
  }

  // Every connection is watched at every select of a run.
  ghost predicate AlwaysWatched(g: Grammar, p: PoolVal, xs: seq<PassIn>) {
    forall k :: 0 <= k <= |xs| ==> AllWatched(Run(g, p, xs[..k]))
  }

  lemma PrefixOfPrefix(xs: seq<PassIn>, k: nat)
    requires xs != [] && k < |xs|
    ensures xs[..|xs| - 1][..k] == xs[..k]
  {
  }

  lemma AlwaysShrinks(g: Grammar, p: PoolVal, xs: seq<PassIn>)
    requires xs != [] && AlwaysWatched(g, p, xs)
    ensures AlwaysWatched(g, p, xs[..|xs| - 1])
  {
    var ys := xs[..|xs| - 1];
    forall k | 0 <= k <= |ys|
      ensures AllWatched(Run(g, p, ys[..k]))
    {
      PrefixOfPrefix(xs, k);
      assert AllWatched(Run(g, p, xs[..k]));
    }
  }

  lemma AlwaysGrows(g: Grammar, p: PoolVal, xs: seq<PassIn>)
    requires xs != [] && AlwaysWatched(g, p, xs[..|xs| - 1]) && AllWatched(Run(g, p, xs))
    ensures AlwaysWatched(g, p, xs)
  {
    forall k | 0 <= k <= |xs|
      ensures AllWatched(Run(g, p, xs[..k]))
    {
      if k == |xs| {
        assert xs[..k] == xs;
      } else {
        PrefixOfPrefix(xs, k);
        assert AllWatched(Run(g, p, xs[..|xs| - 1][..k]));
      }
    }
  }

  lemma AlwaysWatchedStep(g: Grammar, p: PoolVal, xs: seq<PassIn>)
    requires xs != []
    ensures AlwaysWatched(g, p, xs) <==> AlwaysWatched(g, p, xs[..|xs| - 1]) && AllWatched(Run(g, p, xs))
  {
    if AlwaysWatched(g, p, xs) {
      AlwaysShrinks(g, p, xs);
      assert xs[..|xs|] == xs;
    }
    if AlwaysWatched(g, p, xs[..|xs| - 1]) && AllWatched(Run(g, p, xs)) {
      AlwaysGrows(g, p, xs);
    }
  }

  // No connection is ever forgotten, if and only if no turn ever stalls.
  lemma {:induction false} NoForgottenConnection(g: Grammar, sock: nat, sslSock: nat, xs: seq<PassIn>)
    requires sock != sslSock
    ensures AlwaysWatched(g, NewPool(sock, sslSock), xs) <==> SmoothRun(g, NewPool(sock, sslSock), xs)
    decreases |xs|
  {
    var p := NewPool(sock, sslSock);
    if xs == [] {
      assert xs[..0] == [];
    } else {
      var ys, x := xs[..|xs| - 1], xs[|xs| - 1];
      NoForgottenConnection(g, sock, sslSock, ys);
      AlwaysWatchedStep(g, p, xs);
      EveryRun(g, sock, sslSock, ys);
      if AlwaysWatched(g, p, ys) {
        assert ys[..|ys|] == ys;
        AllWatchedIsHalf(Run(g, p, ys));
        if x.selected {
          RoundWatched(g, Run(g, p, ys), x);
        }
      }
    }
  }
}
