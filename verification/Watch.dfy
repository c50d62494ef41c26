/** No forgotten connection: which descriptor every connection waits on, and
    exactly when the loop fails to wait on it. */
module Watch {
  import opened Text
  import opened Buffers
  import opened RequestSpec
  import opened ConnSpec
  import opened ConnInv
  import opened ServerSpec
  import opened LoopInv

  // The program's output, or the client that must take it.
  ghost predicate RelayWatched(l: Local) {
    && (l.c.cgi.phase == CGI_CGI_TO_SRV ==> l.c.cgi.fds.srvIn in l.R)
    && (if l.c.cgi.bufPhase == BUF_SEND then l.c.fd in l.W else l.c.cgi.phase == CGI_CGI_TO_SRV)
  }

  // What select must be waiting for, phase by phase.
  ghost predicate Watched(l: Local) {
    match l.c.req.phase
    case REQ_ABORT => l.c.fd in l.W
    case REQ_DONE =>
      l.c.fd !in l.R &&
      (if l.c.req.line.kind == REQ_STATIC || l.c.cgi.phase == CGI_READY then l.c.fd in l.W
       else RelayWatched(l))
    case _ => l.c.fd in l.R
  }

  // The part of it that holds in the middle of a turn.
  ghost predicate HalfWatched(l: Local) {
    && (l.c.req.InHeader() || l.c.req.phase == REQ_BODY ==> l.c.fd in l.R)
    && (l.c.req.phase == REQ_ABORT ==> l.c.fd in l.W)
    && (l.c.cgi.phase == CGI_CGI_TO_SRV || l.c.cgi.phase == CGI_DONE ==> RelayWatched(l))
  }

  // A complete dynamic request has its program running and fed.
  ghost predicate Settled(l: Local) {
    && Watched(l)
    && (l.c.req.phase == REQ_DONE && l.c.req.line.kind == REQ_DYNAMIC ==>
          l.c.cgi.phase == CGI_CGI_TO_SRV || l.c.cgi.phase == CGI_DONE)
  }

  lemma RecvWatched(g: Grammar, l: Local, input: Input)
    requires Inv(l) && l.c.req.phase != REQ_DONE && HalfWatched(l) && LisoRecv(g, l, input).Kept?
    ensures HalfWatched(LisoRecv(g, l, input).l)
  {
    if l.c.req.phase != REQ_ABORT && BUFSZ - l.c.buf.sz > 0 && input != Failed && input.bytes != "" {
      var s := Prefix(input.bytes, BUFSZ - l.c.buf.sz);
      FedOk(l.c, s);
      BytesWatched(g, l, Fed(l.c, s));
      FreshBytesOk(g, l, s);
    }
  }

  lemma BytesWatched(g: Grammar, l: Local, d: ConnVal)
    requires InBounds(d) && Coupled(d) && d.fd == l.c.fd && d.fd in l.R && d.req.phase in {REQ_START, REQ_HEADER, REQ_BODY}
    ensures HalfWatched(OrErr(l, ParseReq(g, d)))
  {
    ParseStaysOffProgram(g, d);
    ParseReqOk(g, d);
  }

  lemma ParseStaysOffProgram(g: Grammar, c: ConnVal)
    requires c.cgi.phase != CGI_CGI_TO_SRV && c.cgi.phase != CGI_DONE
    ensures ParseReq(g, c).0.cgi.phase != CGI_CGI_TO_SRV && ParseReq(g, c).0.cgi.phase != CGI_DONE
  {
  }

  lemma PrepareWatched(l: Local, tries: seq<Try>, t: HdrText)
    requires Inv(l) && HalfWatched(l)
    ensures HalfWatched(PrepareStep(l, tries, t))
  {
  }

  predicate Spawned(c: ConnVal) {
    c.req.phase == REQ_DONE ==> c.cgi.phase != CGI_READY
  }

  lemma SpawnWatched(l: Local, spawn: Spawn)
    requires Inv(l) && HalfWatched(l)
    ensures HalfWatched(SpawnStep(l, spawn)) && Spawned(SpawnStep(l, spawn).c)
  {
  }

  // After DoneStep only a program that still takes the body is not settled.
  ghost predicate AlmostSettled(l: Local) {
    && HalfWatched(l)
    && (l.c.req.phase == REQ_DONE ==>
          l.c.fd !in l.R && (l.c.req.line.kind == REQ_STATIC ==> l.c.fd in l.W))
    && Spawned(l.c)
  }

  lemma DoneWatched(l: Local)
    requires Inv(l) && HalfWatched(l) && Spawned(l.c)
    ensures AlmostSettled(DoneStep(l))
  {
  }

  lemma StreamWatched(l: Local, writes: seq<int>)
    requires Inv(l) && AlmostSettled(l)
    ensures Settled(StreamStep(l, writes))
  {
  }

  lemma FromCgiWatched(l: Local, rd: set<int>, input: Input)
    requires Inv(l) && Settled(l)
    ensures Settled(FromCgiStep(l, rd, input))
  {
  }

  lemma TransitionsWatched(l: Local, rd: set<int>, env: Env)
    requires Inv(l) && HalfWatched(l)
    ensures Settled(Transitions(l, rd, env))
  {
    var l1 := PrepareStep(l, env.tries, env.header);
    PrepareStepOk(l, env.tries, env.header);
    PrepareWatched(l, env.tries, env.header);
    var l2 := SpawnStep(l1, env.spawn);
    SpawnStepOk(l1, env.spawn);
    SpawnWatched(l1, env.spawn);
    var l3 := DoneStep(l2);
    DoneStepOk(l2);
    DoneWatched(l2);
    var l4 := StreamStep(l3, env.writes);
    StreamStepOk(l3, env.writes);
    StreamWatched(l3, env.writes);
    FromCgiWatched(l4, rd, env.read);
  }

  // ---------- serving ----------

  function ErrorPage(t: HdrText, msg: string): string {
    Prefix(Header(|msg|, t) + msg, BUFSZ)
  }

  // The connection as it starts over with the bytes that came early.
  function Restarted(c: ConnVal): ConnVal {
    TakeLast(FreshConn(c.fd).(last := c.last))
  }

  // A dynamic response completes in this turn.
  predicate Completes(l: Local, wr: set<int>) {
    && l.c.req.line.kind == REQ_DYNAMIC && l.c.fd in wr && l.c.cgi.bufPhase == BUF_SEND
    && l.c.cgi.phase == CGI_DONE && l.c.req.head.alive
  }

  // When the write bit is cleared behind the back of the next request: bytes
  // came early and hold a whole request, or a bad one whose error page is
  // not taken at once.
  predicate Stalls(g: Grammar, l: Local, wr: set<int>, env: Env) {
    StallsBriefly(g, l, wr) || StallsForGood(g, l, wr, env)
  }

  predicate StallsBriefly(g: Grammar, l: Local, wr: set<int>) {
    Completes(l, wr) && l.c.last.sz != 0 && ParseReq(g, Restarted(l.c)).0.req.phase == REQ_DONE
  }

  predicate StallsForGood(g: Grammar, l: Local, wr: set<int>, env: Env) {
    && Completes(l, wr) && l.c.last.sz != 0
    && ParseReq(g, Restarted(l.c)).1.Err? && 0 < env.statSend < |ErrorPage(env.page, env.msg)|
  }

  lemma RestartedOk(c: ConnVal)
    requires FdsOk(c) && c.last.Sane() && c.last.sz >= 0 && c.last.dp == 0
    ensures InBounds(Restarted(c)) && Coupled(Restarted(c)) && Restarted(c).req == Blank
  {
  }

  lemma ResetWatched(g: Grammar, l: Local)
    requires Inv(l) && ResetOrClose(g, l).Kept?
    ensures Watched(ResetOrClose(g, l).l)
    ensures l.c.last.sz != 0 ==>
              var r := ParseReq(g, Restarted(l.c));
              var m := ResetOrClose(g, l).l;
              && (r.0.req.phase == REQ_DONE <==> m.c.req.phase == REQ_DONE)
              && (r.1.Err? <==> m.c.req.phase == REQ_ABORT)
    ensures l.c.last.sz == 0 ==> ResetOrClose(g, l).l.c == FreshConn(l.c.fd).(last := l.c.last)
  {
    if l.c.last.sz != 0 {
      RestartedOk(l.c);
      ParseReqOk(g, Restarted(l.c));
      FreshlyParsed(g, Restarted(l.c));
    }
  }

  // A request parsed in one go is not being served yet.
  lemma FreshlyParsed(g: Grammar, c: ConnVal)
    requires c.req == Blank && c.cgi == FreshCgi && c.resp == FreshResp
    ensures var d := ParseReq(g, c).0; d.cgi.phase in {CGI_IDLE, CGI_READY, CGI_DISABLED} && d.cgi.bufPhase == BUF_RECV
    ensures var d := ParseReq(g, c).0; d.resp.phase in {RESP_READY, RESP_DISABLED}
  {
  }

  lemma DynWatched(g: Grammar, l: Local, wr: set<int>, n: int)
    requires Inv(l) && Settled(l) && DynStep(g, l, wr, n).Kept?
    ensures !Completes(l, wr) ==> Settled(DynStep(g, l, wr, n).l)
    ensures Completes(l, wr) ==>
              DynStep(g, l, wr, n).l == Cleared(ResetOrClose(g, l).l)
  {
  }

  // lisod.c:507-510
  function Cleared(l: Local): Local {
    if l.c.cgi.bufPhase == BUF_RECV && l.c.fd > 0 then l.(W := l.W - {l.c.fd}) else l
  }

  lemma StatWatched(g: Grammar, l: Local, wr: set<int>, n: int, t: HdrText, msg: string)
    requires Inv(l) && Watched(l) && StatStep(g, l, wr, n, t, msg).Kept?
    ensures Watched(StatStep(g, l, wr, n, t, msg).l)
  {
    var r := ServeStatic(l.c, n, t, msg);
    if l.c.fd in wr && l.c.resp.phase != RESP_DISABLED {
      ServeStaticOk(l.c, n, t, msg);
      if r.1 == Succ {
        ResetWatched(g, l.(c := r.0));
      }
    }
  }

  // The static step on a connection whose write bit was just cleared.
  lemma StatAfterClear(g: Grammar, l: Local, wr: set<int>, n: int, t: HdrText, msg: string)
    requires Inv(l) && l.c.fd in wr && l.c.fd !in l.W && StatStep(g, l, wr, n, t, msg).Kept?
    requires l.c.cgi.phase in {CGI_IDLE, CGI_READY, CGI_DISABLED} && l.c.resp.phase in {RESP_READY, RESP_DISABLED, RESP_ABORT}
    requires l.c.last.sz == 0 || l.c.req.phase == REQ_DONE
    requires l.c.req.phase != REQ_DONE ==> l.c.fd in l.R
    ensures var stuck := l.c.req.phase == REQ_DONE || (l.c.req.phase == REQ_ABORT && n < |ErrorPage(t, msg)|);
            Watched(StatStep(g, l, wr, n, t, msg).l) <==> !stuck
  {
    if l.c.req.phase == REQ_ABORT {
      ServeStaticOk(l.c, n, t, msg);
      var r := ServeStatic(l.c, n, t, msg);
      if r.1 == Succ {
        ResetWatched(g, l.(c := r.0));
      }
    }
  }

  lemma CompletedWatched(g: Grammar, l: Local, wr: set<int>, n: int, t: HdrText, msg: string)
    requires Inv(l) && Settled(l) && Completes(l, wr)
    requires ResetOrClose(g, l).Kept? && StatStep(g, Cleared(ResetOrClose(g, l).l), wr, n, t, msg).Kept?
    ensures var stuck := l.c.last.sz != 0 &&
              var r := ParseReq(g, Restarted(l.c));
              r.0.req.phase == REQ_DONE || (r.1.Err? && n < |ErrorPage(t, msg)|);
            Watched(StatStep(g, Cleared(ResetOrClose(g, l).l), wr, n, t, msg).l) <==> !stuck
  {
    ResetWatched(g, l);
    ResetOrCloseOk(g, l);
    if l.c.last.sz != 0 {
      RestartedOk(l.c);
      ParseReqOk(g, Restarted(l.c));
      FreshlyParsed(g, Restarted(l.c));
    }
    StatAfterClear(g, Cleared(ResetOrClose(g, l).l), wr, n, t, msg);
  }

  // A settled connection that is kept is watched after serving, if and only
  // if the step did not clear the write bit of a next request.
  lemma RespondWatched(g: Grammar, l: Local, wr: set<int>, env: Env)
    requires Inv(l) && Settled(l) && Respond(g, l, wr, env).Kept?
    ensures Watched(Respond(g, l, wr, env).l) <==> !Stalls(g, l, wr, env)
  {
    if Completes(l, wr) {
      CompletedRespond(g, l, wr, env);
    } else {
      DynStepOk(g, l, wr, env.dynSend);
      DynWatched(g, l, wr, env.dynSend);
      StatWatched(g, DynStep(g, l, wr, env.dynSend).l, wr, env.statSend, env.page, env.msg);
    }
  }

  lemma CompletedRespond(g: Grammar, l: Local, wr: set<int>, env: Env)
    requires Inv(l) && Settled(l) && Completes(l, wr) && Respond(g, l, wr, env).Kept?
    ensures Watched(Respond(g, l, wr, env).l) <==> !Stalls(g, l, wr, env)
  {
    CompletedDyn(g, l, wr, env.dynSend);
    CompletedWatched(g, l, wr, env.statSend, env.page, env.msg);
    if env.statSend <= 0 {
      ErrorPageRefused(g, l, Cleared(ResetOrClose(g, l).l), wr, env);
    }
  }

  // A client that takes nothing of the error page is dropped.
  lemma ErrorPageRefused(g: Grammar, l: Local, m: Local, wr: set<int>, env: Env)
    requires Inv(l) && Completes(l, wr) && env.statSend <= 0 && m == Cleared(ResetOrClose(g, l).l)
    requires StatStep(g, m, wr, env.statSend, env.page, env.msg).Kept? && ResetOrClose(g, l).Kept?
    ensures l.c.last.sz != 0 ==> !ParseReq(g, Restarted(l.c)).1.Err?
  {
    ResetWatched(g, l);
  }

  // The connection at the moment it is served, unless it was dropped before.
  function BeforeServing(g: Grammar, l: Local, rd: set<int>, env: Env): Option<Local> {
    match if l.c.fd in rd then LisoRecv(g, l, env.recv) else Kept(l)
    case Dropped(_, _, _, _) => None
    case Kept(l1) => Some(Transitions(l1, rd, env))
  }

  predicate StallsInTurn(g: Grammar, l: Local, rd: set<int>, wr: set<int>, env: Env) {
    match BeforeServing(g, l, rd, env)
    case None => false
    case Some(m) => Stalls(g, m, wr, env)
  }

  // Before it is served, the connection is settled.
  lemma BeforeIsSettled(g: Grammar, l: Local, rd: set<int>, wr: set<int>, env: Env)
    requires Inv(l) && HalfWatched(l) && (l.c.req.phase == REQ_DONE ==> l.c.fd !in rd)
    ensures match BeforeServing(g, l, rd, env)
            case None => Serve(g, l, rd, wr, env).Dropped?
            case Some(m) => Inv(m) && Settled(m) && Quiet(m) && Serve(g, l, rd, wr, env) == Respond(g, m, wr, env)
  {
    if l.c.fd in rd {
      LisoRecvOk(g, l, env.recv);
      if LisoRecv(g, l, env.recv).Kept? {
        RecvWatched(g, l, env.recv);
      }
    }
    var o := if l.c.fd in rd then LisoRecv(g, l, env.recv) else Kept(l);
    if o.Kept? {
      TransitionsOk(o.l, rd, env);
      TransitionsWatched(o.l, rd, env);
    }
  }

  // After a turn a connection that is kept is watched, except exactly in the
  // turns that stall; it need not have been watched before, so that a request
  // that stalled is watched again when the next pass is over.
  lemma ServeWatched(g: Grammar, l: Local, rd: set<int>, wr: set<int>, env: Env)
    requires Inv(l) && HalfWatched(l) && (l.c.req.phase == REQ_DONE ==> l.c.fd !in rd)
    requires Serve(g, l, rd, wr, env).Kept?
    ensures Watched(Serve(g, l, rd, wr, env).l) <==> !StallsInTurn(g, l, rd, wr, env)
  {
    BeforeIsSettled(g, l, rd, wr, env);
    RespondWatched(g, BeforeServing(g, l, rd, env).value, wr, env);
  }

  lemma WatchedIsHalf(l: Local)
    requires Inv(l) && Watched(l)
    ensures HalfWatched(l)
  {
  }

  // ---------- the two kinds of stalls ----------

  // A request that failed, that nothing waits on, and that has no program.
  ghost predicate Stuck(l: Local) {
    l.c.req.phase == REQ_ABORT && l.c.resp.phase == RESP_ABORT && l.c.cgi == FreshCgi && l.c.fd !in l.W
  }

  predicate SticksInTurn(g: Grammar, l: Local, rd: set<int>, wr: set<int>, env: Env) {
    match BeforeServing(g, l, rd, env)
    case None => false
    case Some(m) => StallsForGood(g, m, wr, env)
  }

  // A complete request that stalled keeps what the next turn needs to watch
  // it; a bad one whose error page was taken in part is stuck.
  lemma StallKinds(g: Grammar, l: Local, rd: set<int>, wr: set<int>, env: Env)
    requires Inv(l) && HalfWatched(l) && (l.c.req.phase == REQ_DONE ==> l.c.fd !in rd)
    requires Serve(g, l, rd, wr, env).Kept?
    ensures HalfWatched(Serve(g, l, rd, wr, env).l) <==> !SticksInTurn(g, l, rd, wr, env)
    ensures SticksInTurn(g, l, rd, wr, env) <==> Stuck(Serve(g, l, rd, wr, env).l)
  {
    BeforeIsSettled(g, l, rd, wr, env);
    RespondKinds(g, BeforeServing(g, l, rd, env).value, wr, env);
  }

  lemma RespondKinds(g: Grammar, l: Local, wr: set<int>, env: Env)
    requires Inv(l) && Settled(l) && Quiet(l) && Respond(g, l, wr, env).Kept?
    ensures HalfWatched(Respond(g, l, wr, env).l) <==> !StallsForGood(g, l, wr, env)
    ensures StallsForGood(g, l, wr, env) <==> Stuck(Respond(g, l, wr, env).l)
  {
    RespondOk(g, l, wr, env);
    RespondWatched(g, l, wr, env);
    if !Stalls(g, l, wr, env) {
      WatchedIsHalf(Respond(g, l, wr, env).l);
    } else {
      DynWatched(g, l, wr, env.dynSend);
      RestartKinds(g, l);
      if StallsForGood(g, l, wr, env) {
        PageTakenInPart(g, DynStep(g, l, wr, env.dynSend).l, wr, env);
      } else {
        NothingSent(g, DynStep(g, l, wr, env.dynSend).l, wr, env);
      }
    }
  }

  // What the bytes that came early make of a connection, without its write
  // bit.
  lemma RestartKinds(g: Grammar, l: Local)
    requires Inv(l) && l.c.last.sz != 0 && ResetOrClose(g, l).Kept?
    ensures var r, m := ParseReq(g, Restarted(l.c)), Cleared(ResetOrClose(g, l).l);
            && (r.1.Err? ==> Stuck(m) && m.c.fd == l.c.fd && r.0.req.phase == REQ_ABORT)
            && (r.0.req.phase == REQ_DONE ==>
                  HalfWatched(m) && m.c.req.phase == REQ_DONE && m.c.resp.phase in {RESP_READY, RESP_DISABLED}
                  && m.c.cgi.bufPhase == BUF_RECV)
  {
    RestartedOk(l.c);
    ParseReqOk(g, Restarted(l.c));
    FreshlyParsed(g, Restarted(l.c));
  }

  lemma PageTakenInPart(g: Grammar, m: Local, wr: set<int>, env: Env)
    requires Stuck(m) && 0 < env.statSend < |ErrorPage(env.page, env.msg)|
    ensures var o := StatStep(g, m, wr, env.statSend, env.page, env.msg); o.Kept? && Stuck(o.l)
  {
  }

  lemma NothingSent(g: Grammar, m: Local, wr: set<int>, env: Env)
    requires m.c.req.phase == REQ_DONE && m.c.resp.phase in {RESP_READY, RESP_DISABLED}
    ensures StatStep(g, m, wr, env.statSend, env.page, env.msg) == Kept(m)
  {
  }

  // A turn that stalls keeps its connection.
  lemma StallIsKept(g: Grammar, l: Local, rd: set<int>, wr: set<int>, env: Env)
    requires Inv(l) && HalfWatched(l) && (l.c.req.phase == REQ_DONE ==> l.c.fd !in rd)
    ensures StallsInTurn(g, l, rd, wr, env) ==> Serve(g, l, rd, wr, env).Kept?
  {
    if StallsInTurn(g, l, rd, wr, env) {
      BeforeIsSettled(g, l, rd, wr, env);
      StalledKept(g, BeforeServing(g, l, rd, env).value, wr, env);
    }
  }

  lemma StalledKept(g: Grammar, l: Local, wr: set<int>, env: Env)
    requires Inv(l) && Settled(l) && Stalls(g, l, wr, env)
    ensures Respond(g, l, wr, env).Kept?
  {
    CompletedDyn(g, l, wr, env.dynSend);
    RestartKinds(g, l);
    var m := Cleared(ResetOrClose(g, l).l);
    if StallsForGood(g, l, wr, env) {
      PageTakenInPart(g, m, wr, env);
    } else {
      NothingSent(g, m, wr, env);
    }
  }

  lemma CompletedDyn(g: Grammar, l: Local, wr: set<int>, n: int)
    requires Inv(l) && Completes(l, wr)
    ensures ResetOrClose(g, l).Kept? && DynStep(g, l, wr, n) == Kept(Cleared(ResetOrClose(g, l).l))
  {
  }

  // Once stuck, a connection stays stuck for as long as it is kept.
  lemma StuckStays(g: Grammar, l: Local, rd: set<int>, wr: set<int>, env: Env)
    requires Stuck(l) && l.c.fd !in wr && Serve(g, l, rd, wr, env).Kept?
    ensures Stuck(Serve(g, l, rd, wr, env).l) && Serve(g, l, rd, wr, env).l.c.fd == l.c.fd
  {
  }
}
