/** The bytes of every connection, over whole runs of the server. */
module Runs {
  import opened Text
  import opened RequestSpec
  import opened ConnSpec
  import opened ServerSpec
  import opened LoopInv
  import opened PoolInv
  import opened Relay
  import opened Losses

  ghost predicate AllFaithful(g: Grammar, conns: seq<ConnVal>) {
    forall i :: 0 <= i < |conns| ==> Faithful(g, conns[i])
  }

  predicate AllStaticClean(conns: seq<ConnVal>) {
    forall i :: 0 <= i < |conns| ==> StaticClean(conns[i])
  }

  // The response headers of all files found in the pass fit into the buffer.
  predicate AllHeadersFit(envs: seq<Env>) {
    forall i :: 0 <= i < |envs| ==> HeadersFit(envs[i])
  }

  // ---------- a pass ----------

  lemma TurnFaithful(g: Grammar, s: Pass, rd: set<int>, wr: set<int>, env: Env)
    requires s.i < |s.p.conns| && PoolOk(s.p) && NotYetRead(s, rd) && AllFaithful(g, s.p.conns)
    ensures AllFaithful(g, Turn(g, s, rd, wr, env).p.conns)
  {
    assert Inv(At(s.p, s.i));
    if Serve(g, At(s.p, s.i), rd, wr, env).Kept? {
      ServeFaithful(g, At(s.p, s.i), rd, wr, env);
    } else {
      SwapRemoveAt(s.p.conns, s.i);
    }
  }

  lemma TurnClean(g: Grammar, s: Pass, rd: set<int>, wr: set<int>, env: Env)
    requires s.i < |s.p.conns| && PoolOk(s.p) && NotYetRead(s, rd) && AllStaticClean(s.p.conns)
    requires HeadersFit(env)
    ensures AllStaticClean(Turn(g, s, rd, wr, env).p.conns)
  {
    assert Inv(At(s.p, s.i));
    if Serve(g, At(s.p, s.i), rd, wr, env).Kept? {
      StaticTurn(g, At(s.p, s.i), rd, wr, env);
    } else {
      SwapRemoveAt(s.p.conns, s.i);
    }
  }

  lemma {:induction false} TurnsFaithful(g: Grammar, s: Pass, rd: set<int>, wr: set<int>, envs: seq<Env>)
    requires s.i <= |s.p.conns| && |envs| == |s.p.conns| - s.i
    requires PoolOk(s.p) && NotYetRead(s, rd) && AllFaithful(g, s.p.conns)
    ensures AllFaithful(g, Turns(g, s, rd, wr, envs).p.conns)
    ensures AllStaticClean(s.p.conns) && AllHeadersFit(envs) ==> AllStaticClean(Turns(g, s, rd, wr, envs).p.conns)
    decreases |envs|
  {
    if envs != [] {
      TurnOk(g, s, rd, wr, envs[0]);
      TurnFaithful(g, s, rd, wr, envs[0]);
      if AllStaticClean(s.p.conns) && AllHeadersFit(envs) {
        TurnClean(g, s, rd, wr, envs[0]);
      }
      TurnsFaithful(g, Turn(g, s, rd, wr, envs[0]), rd, wr, envs[1..]);
    }
  }

  lemma AcceptFaithful(g: Grammar, p: PoolVal, answer: Option<nat>, usable: bool)
    requires AllFaithful(g, p.conns)
    ensures AllFaithful(g, Accept(p, answer, usable).conns)
    ensures AllStaticClean(p.conns) ==> AllStaticClean(Accept(p, answer, usable).conns)
  {
    if answer.Some? {
      FreshIsExact(g, answer.value);
    }
  }

  lemma PaddedFit(envs: seq<Env>, n: nat)
    requires AllHeadersFit(envs)
    ensures AllHeadersFit(Padded(envs, n))
  {
  }

  lemma RoundFaithful(g: Grammar, p: PoolVal, x: PassIn)
    requires PoolOk(p) && AllFaithful(g, p.conns)
    ensures AllFaithful(g, Round(g, p, x).conns)
    ensures AllStaticClean(p.conns) && AllHeadersFit(x.envs) ==> AllStaticClean(Round(g, p, x).conns)
  {
    if x.selected {
      var rd, wr := x.rd * p.R, x.wr * p.W;
      var p1 := if p.sock in rd then Accept(p, x.first, x.firstUsable) else p;
      AcceptFaithful(g, p, x.first, x.firstUsable);
      AcceptFaithful(g, p1, x.second, x.secondUsable);
      AcceptsOk(p, rd, x);
      var p2 := Accepts(p, rd, x);
      if AllHeadersFit(x.envs) {
        PaddedFit(x.envs, |p2.conns|);
      }
      TurnsFaithful(g, StartPass(p2), rd, wr, Padded(x.envs, |p2.conns|));
    }
  }

  // ---------- runs ----------

  // In every state of every run, whatever the system answers: each request
  // that did not fail and whose own turns lost nothing is what one-shot
  // parsing of its bytes gives, its body went to the program, the program's
  // answer or the page to the client.
  lemma {:induction false} EveryByte(g: Grammar, sock: nat, sslSock: nat, xs: seq<PassIn>)
    requires sock != sslSock
    ensures AllFaithful(g, Run(g, NewPool(sock, sslSock), xs).conns)
    decreases |xs|
  {
    if xs != [] {
      EveryByte(g, sock, sslSock, xs[..|xs| - 1]);
      EveryRun(g, sock, sslSock, xs[..|xs| - 1]);
      RoundFaithful(g, Run(g, NewPool(sock, sslSock), xs[..|xs| - 1]), xs[|xs| - 1]);
    }
  }

  predicate FitRun(xs: seq<PassIn>) {
    forall k :: 0 <= k < |xs| ==> AllHeadersFit(xs[k].envs)
  }

  lemma {:induction false} CleanRun(g: Grammar, sock: nat, sslSock: nat, xs: seq<PassIn>)
    requires sock != sslSock && FitRun(xs)
    ensures AllStaticClean(Run(g, NewPool(sock, sslSock), xs).conns)
    decreases |xs|
  {
    if xs != [] {
      var ys, x := xs[..|xs| - 1], xs[|xs| - 1];
      assert forall k :: 0 <= k < |ys| ==> ys[k] == xs[k];
      CleanRun(g, sock, sslSock, ys);
      EveryByte(g, sock, sslSock, ys);
      EveryRun(g, sock, sslSock, ys);
      RoundFaithful(g, Run(g, NewPool(sock, sslSock), ys), x);
    }
  }

  // Requests for files need none of this: if the response headers fit into
  // the buffer, every one that did not fail is exact in every state of every
  // run, with short writes and sends on its own and all other connections.
  lemma EveryFile(g: Grammar, sock: nat, sslSock: nat, xs: seq<PassIn>, i: nat)
    requires sock != sslSock && FitRun(xs)
    requires i < |Run(g, NewPool(sock, sslSock), xs).conns|
    ensures var c := Run(g, NewPool(sock, sslSock), xs).conns[i];
            && (NotForProgram(c) ==> Exact(g, c))
            && (NotForProgram(c) && c.resp.phase in {RESP_HEADER, RESP_BODY} ==> c.log.sent <= c.log.page)
  {
    EveryByte(g, sock, sslSock, xs);
    CleanRun(g, sock, sslSock, xs);
    EveryRun(g, sock, sslSock, xs);
    var p := Run(g, NewPool(sock, sslSock), xs);
    assert Inv(At(p, i));
    if NotForProgram(p.conns[i]) {
      PagePrefix(g, At(p, i));
    }
  }

  // What the client has of a file's response is a prefix of the page.
  lemma PagePrefix(g: Grammar, l: Local)
    requires Inv(l) && NotForProgram(l.c) && Exact(g, l.c)
    ensures l.c.resp.phase in {RESP_HEADER, RESP_BODY} ==> l.c.log.sent <= l.c.log.page
  {
    if l.c.resp.phase == RESP_HEADER || l.c.resp.phase == RESP_BODY {
      StaticResponse(l.c, 0, HdrText("", ""), "");
    }
  }
}
