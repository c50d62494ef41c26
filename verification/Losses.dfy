/** What sets the flag that bytes of a request were lost, repeated or counted
    twice: only answers in the turns of its own connection, and for a request
    for a file only a response header that does not fit into the buffer. */
module Losses {
  import opened Buffers
  import opened RequestSpec
  import opened ConnSpec
  import opened ServerSpec
  import opened LoopInv
  import opened Relay

  // A write answers with an error or takes everything it was offered.
  predicate AllOrError(n: int) {
    n <= 0 || n >= BUFSZ
  }

  predicate FirstWrite(writes: seq<int>) {
    writes == [] || AllOrError(writes[0])
  }

  // The response headers of all files that may be found fit into the buffer.
  predicate HeadersFit(env: Env) {
    forall i :: 0 <= i < |env.tries| && env.tries[i].MappedAs? ==>
      |Header(|env.tries[i].bytes|, env.header)| <= BUFSZ
  }

  // The environment loses nothing in this turn: no receive into a body that
  // is still buffered; writes and sends to relay take everything or fail;
  // response headers fit into the buffer.
  predicate Lossless(l: Local, rd: set<int>, env: Env) {
    && (l.c.fd in rd ==> !Undrained(l.c))
    && FirstWrite(env.writes) && AllOrError(env.dynSend) && HeadersFit(env)
  }

  // ---------- step by step ----------

  lemma RecvLossy(g: Grammar, l: Local, input: Input)
    requires Inv(l) && l.c.req.phase != REQ_DONE && LisoRecv(g, l, input).Kept?
    ensures var d := LisoRecv(g, l, input).l.c;
            && (d.log.lossy ==> l.c.log.lossy || Undrained(l.c))
            && (l.c.req.phase == REQ_BODY ==>
                  d.req.phase == REQ_ABORT || (d.req.phase in {REQ_BODY, REQ_DONE} && d.req.line == l.c.req.line))
            && (l.c.req.phase == REQ_ABORT ==> d.req.phase == REQ_ABORT)
  {
    var c := l.c;
    if c.req.phase != REQ_ABORT && BUFSZ - c.buf.sz > 0 && input != Failed && input.bytes != "" {
      var t := Prefix(input.bytes, BUFSZ - c.buf.sz);
      RecvIsParse(g, c, t, input);
      ParseTouches(g, Fed(c, t));
      if c.req.phase == REQ_BODY {
        TakeBodyTouches(Fed(c, t));
      }
    }
  }

  lemma {:induction false} FoundAmong(open: set<int>, tries: seq<Try>, n: nat)
    ensures var r := Lookup(open, tries, n);
            r.file.Some? ==> exists i :: 0 <= i < |tries| && tries[i].MappedAs? && tries[i].bytes == r.file.value
    decreases n
  {
    if n > 0 && tries != [] {
      var next := if tries[0].Unmapped? then open + {tries[0].fd} else open;
      FoundAmong(open, tries[1..], n - 1);
      FoundAmong(next, tries[1..], n - 1);
      var r := Lookup(open, tries, n);
      if r.file.Some? && !(tries[0].MappedAs? && tries[0].bytes == r.file.value) {
        var i :| 0 <= i < |tries[1..]| && tries[1..][i].MappedAs? && tries[1..][i].bytes == r.file.value;
        assert tries[i + 1] == tries[1..][i];
      }
    }
  }

  lemma PrepareLossy(l: Local, env: Env)
    requires HeadersFit(env)
    ensures PrepareStep(l, env.tries, env.header).c.log.lossy == l.c.log.lossy
  {
    FoundAmong(l.open, env.tries, N_TRIES);
  }

  // Only a dynamic request is streamed and relayed.
  lemma StreamLossy(l: Local, writes: seq<int>)
    requires Inv(l)
    ensures var d := StreamStep(l, writes).c;
            && d.req.line == l.c.req.line
            && (d.log.lossy && !l.c.log.lossy ==> l.c.req.line.kind == REQ_DYNAMIC)
            && (d.log.lossy && FirstWrite(writes) ==> l.c.log.lossy || d.req.phase == REQ_ABORT)
  {
    var w := l.c.buf.Window();
    if FirstWrite(writes) && Deliver(w, |w|, writes).1 {
      WriteTakesAll(w, writes);
    }
  }

  lemma WriteTakesAll(w: string, writes: seq<int>)
    requires |w| <= BUFSZ && FirstWrite(writes) && Deliver(w, |w|, writes).1
    ensures Deliver(w, |w|, writes).0 == w
  {
    if w != "" {
      assert w[..|w|] + "" == w;
    }
  }

  lemma QuietSteps(l: Local, rd: set<int>, env: Env)
    ensures SpawnStep(l, env.spawn).c.log == l.c.log && SpawnStep(l, env.spawn).c.req.line == l.c.req.line
    ensures DoneStep(l).c == l.c
    ensures FromCgiStep(l, rd, env.read).c.log.lossy == l.c.log.lossy
    ensures FromCgiStep(l, rd, env.read).c.req.line == l.c.req.line
    ensures l.c.req.phase == REQ_ABORT ==> FromCgiStep(l, rd, env.read).c.req.phase == REQ_ABORT
  {
  }

  // A connection that starts over starts clean.
  lemma RestartClean(g: Grammar, l: Local)
    requires ResetOrClose(g, l).Kept?
    ensures !ResetOrClose(g, l).l.c.log.lossy
  {
    if l.c.last.sz != 0 {
      ParseTouches(g, TakeLast(FreshConn(l.c.fd).(last := l.c.last)));
    }
  }

  lemma DynLossy(g: Grammar, l: Local, wr: set<int>, n: int)
    requires Inv(l) && DynStep(g, l, wr, n).Kept?
    ensures var d := DynStep(g, l, wr, n).l.c;
            && (d.log.lossy && AllOrError(n) ==> l.c.log.lossy)
            && (d.log.lossy && !l.c.log.lossy ==> d.req.line.kind == REQ_DYNAMIC && d.req.phase == l.c.req.phase)
            && (d.log.lossy ==> d.req == l.c.req)
  {
    if ServeDynamic(l.c, n).1 == Succ && l.c.req.head.alive {
      RestartClean(g, l.(c := ServeDynamic(l.c, n).0));
    }
  }

  lemma StatLossy(g: Grammar, l: Local, wr: set<int>, env: Env)
    requires Inv(l) && StatStep(g, l, wr, env.statSend, env.page, env.msg).Kept?
    ensures var d := StatStep(g, l, wr, env.statSend, env.page, env.msg).l.c;
            d.log.lossy ==> l.c.log.lossy && d.req == l.c.req
  {
    var r := ServeStatic(l.c, env.statSend, env.page, env.msg);
    if r.1 == Succ && r.0.req.head.alive {
      RestartClean(g, l.(c := r.0));
    }
  }

  // ---------- one turn ----------

  // A request for a file, or one that is not known yet to be for a program.
  predicate NotForProgram(c: ConnVal) {
    c.req.phase != REQ_ABORT && (c.req.phase in {REQ_BODY, REQ_DONE} ==> c.req.line.kind == REQ_STATIC)
  }

  // Such a request is clean.
  predicate StaticClean(c: ConnVal) {
    NotForProgram(c) ==> !c.log.lossy
  }

  lemma TransitionsClean(l: Local, rd: set<int>, env: Env)
    requires Inv(l) && HeadersFit(env)
    ensures var d := Transitions(l, rd, env).c;
            && (!l.c.log.lossy && FirstWrite(env.writes) && d.req.phase != REQ_ABORT ==> !d.log.lossy)
            && (StaticClean(l.c) ==> StaticClean(d))
  {
    var l1 := PrepareStep(l, env.tries, env.header);
    PrepareStepOk(l, env.tries, env.header);
    PrepareLossy(l, env);
    PrepareKeepsLine(l, env);
    var l2 := SpawnStep(l1, env.spawn);
    SpawnStepOk(l1, env.spawn);
    QuietSteps(l1, rd, env);
    var l3 := DoneStep(l2);
    DoneStepOk(l2);
    QuietSteps(l2, rd, env);
    StreamLossy(l3, env.writes);
    QuietSteps(StreamStep(l3, env.writes), rd, env);
    PhasesGoOn(l, l1, l2, StreamStep(l3, env.writes), rd, env);
  }

  lemma PrepareKeepsLine(l: Local, env: Env)
    ensures PrepareStep(l, env.tries, env.header).c.req.line == l.c.req.line
  {
  }

  // No transition changes the phase of a request, except that it may fail.
  lemma PhasesGoOn(l: Local, l1: Local, l2: Local, l4: Local, rd: set<int>, env: Env)
    requires l1 == PrepareStep(l, env.tries, env.header) && l2 == SpawnStep(l1, env.spawn)
    requires l4 == StreamStep(DoneStep(l2), env.writes)
    ensures var d := FromCgiStep(l4, rd, env.read).c;
            && (d.req.phase == l.c.req.phase || d.req.phase == REQ_ABORT)
            && (l4.c.req.phase == REQ_ABORT ==> d.req.phase == REQ_ABORT)
  {
  }

  lemma RespondClean(g: Grammar, l: Local, wr: set<int>, env: Env)
    requires Inv(l) && Quiet(l) && Respond(g, l, wr, env).Kept?
    ensures var d := Respond(g, l, wr, env).l.c;
            && (d.log.lossy && AllOrError(env.dynSend) ==> l.c.log.lossy)
            && (d.log.lossy ==> d.req == l.c.req)
            && (StaticClean(l.c) ==> StaticClean(d))
  {
    DynStepOk(g, l, wr, env.dynSend);
    DynLossy(g, l, wr, env.dynSend);
    StatLossy(g, DynStep(g, l, wr, env.dynSend).l, wr, env);
    NotRelayed(g, l, wr, env.dynSend);
  }

  lemma NotRelayed(g: Grammar, l: Local, wr: set<int>, n: int)
    requires Inv(l) && Quiet(l)
    ensures l.c.req.line.kind == REQ_STATIC || l.c.req.InHeader() ==> DynStep(g, l, wr, n) == Kept(l)
  {
  }

  lemma ReceivedClean(g: Grammar, l: Local, input: Input)
    requires Inv(l) && l.c.req.phase != REQ_DONE && LisoRecv(g, l, input).Kept?
    ensures StaticClean(l.c) ==> StaticClean(LisoRecv(g, l, input).l.c)
  {
    RecvLossy(g, l, input);
  }

  // The flag is set in a turn only if something of its own was lost.
  lemma LosslessTurn(g: Grammar, l: Local, rd: set<int>, wr: set<int>, env: Env)
    requires Inv(l) && (l.c.req.phase == REQ_DONE ==> l.c.fd !in rd) && Serve(g, l, rd, wr, env).Kept?
    requires !l.c.log.lossy && Lossless(l, rd, env)
    ensures var d := Serve(g, l, rd, wr, env).l.c; d.log.lossy ==> d.req.phase == REQ_ABORT
  {
    if l.c.fd in rd {
      LisoRecvOk(g, l, env.recv);
      RecvLossy(g, l, env.recv);
    }
    var l1 := (if l.c.fd in rd then LisoRecv(g, l, env.recv) else Kept(l)).l;
    TransitionsOk(l1, rd, env);
    TransitionsClean(l1, rd, env);
    RespondClean(g, Transitions(l1, rd, env), wr, env);
  }

  // And for a request for a file only if its header did not fit.
  lemma StaticTurn(g: Grammar, l: Local, rd: set<int>, wr: set<int>, env: Env)
    requires Inv(l) && (l.c.req.phase == REQ_DONE ==> l.c.fd !in rd) && Serve(g, l, rd, wr, env).Kept?
    requires StaticClean(l.c) && HeadersFit(env)
    ensures StaticClean(Serve(g, l, rd, wr, env).l.c)
  {
    if l.c.fd in rd {
      LisoRecvOk(g, l, env.recv);
      ReceivedClean(g, l, env.recv);
    }
    var l1 := (if l.c.fd in rd then LisoRecv(g, l, env.recv) else Kept(l)).l;
    TransitionsOk(l1, rd, env);
    TransitionsClean(l1, rd, env);
    RespondClean(g, Transitions(l1, rd, env), wr, env);
  }
}
