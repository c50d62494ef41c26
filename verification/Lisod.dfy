/** The callbacks and the body of the main loop of lisod.c, on the objects. */
module Lisod {
  import opened Text
  import opened RequestSpec
  import opened ConnSpec
  import opened Conns
  import opened Pools
  import S = ServerSpec
  import opened LoopInv
  import opened PoolInv

  // ---------- callbacks ----------

  // liso_conn_err
  method ConnErr(pool: Pool, conn: Conn, status: nat)
    requires conn.Shape() && conn.Valid()
    modifies pool`writeSet, conn.req, conn.resp
    ensures conn.Valid() && pool.L(conn) == S.ConnErr(old(pool.L(conn)), status)
  {
    conn.req.phase := REQ_ABORT;
    conn.resp.phase := RESP_ABORT;
    conn.resp.status := status;
    pool.writeSet := pool.writeSet + {conn.fd};
  }

  // The bytes that came early move from last_buf to the buffer.
  method TakeLast(conn: Conn)
    requires conn.Shape() && conn.Valid() && conn.buf.sz == 0 && conn.req.lastBuf.sz >= 0
    modifies conn`log, conn.buf, conn.buf.data, conn.req.lastBuf
    ensures conn.Valid() && conn.Val() == S.TakeLast(old(conn.Val()))
  {
    var last := conn.req.lastBuf;
    conn.log := conn.log.(fed := last.data[..last.sz]);
    conn.buf.Append(last.data[..last.sz]);
    last.Reset();
    assert "" + old(last.data[..last.sz]) == old(last.data[..last.sz]);
  }

  method NextRequest(pool: Pool, conn: Conn, ghost g: Grammar)
    requires conn.Shape() && conn.Valid() && IsLiso(g)
    requires conn.buf.sz == 0 && conn.buf.data_p == 0 && conn.req.lastBuf.sz > 0 && conn.req.phase == REQ_START
    modifies pool`readSet, pool`writeSet
    modifies conn`log, conn.req, conn.resp, conn.cgi, conn.buf, conn.buf.data, conn.req.lastBuf, conn.req.lastBuf.data
    ensures conn.Valid() && pool.L(conn) == S.NextRequest(g, old(pool.L(conn)))
  {
    TakeLast(conn);
    var call := conn.ParseReq(0, g);
    if call.Err? {
      ConnErr(pool, conn, call.status);
    }
    if conn.req.phase == REQ_DONE {
      pool.readSet := pool.readSet - {conn.fd};
      pool.writeSet := pool.writeSet + {conn.fd};
    }
  }

  // What became of a connection: it is still there, or it is gone and the
  // last one of the pool has taken its slot.
  ghost predicate Ended(pool: Pool, conn: Conn, alive: bool, o: S.Outcome, was: seq<Conn?>, i: nat)
    requires i < |was|
    reads pool`nConns, pool`readSet, pool`writeSet, pool.kernel, pool.conns, pool.conns[..]`idx
    reads conn`log, conn.req, conn.resp, conn.cgi, conn.buf, conn.buf.data, conn.req.lastBuf, conn.req.lastBuf.data
  {
    && pool.Slots()
    && pool.conns[..pool.nConns] == (if alive then was else Swapped(was, i))
    && (if alive then conn.Valid() && o == S.Kept(pool.L(conn))
        else o == S.Dropped(pool.readSet, pool.writeSet, pool.kernel.open, pool.kernel.lost))
  }

  // liso_drop_conn, which always returns -1.
  method DropConn(pool: Pool, conn: Conn) returns (alive: bool)
    requires pool.Slots() && pool.Holds(conn) && conn.Valid() && Recorded(conn.cgi.Fds())
    modifies pool`nConns, pool`readSet, pool`writeSet, pool.kernel, pool.conns, pool.conns[..pool.nConns]`idx
    modifies conn`log, conn.req, conn.resp, conn.cgi, conn.buf
    ensures !alive && Ended(pool, conn, alive, S.DropConn(old(pool.L(conn))), old(pool.conns[..pool.nConns]), old(conn.idx))
  {
    pool.DelConn(conn);
    return false;
  }

  // liso_reset_or_close
  method ResetOrClose(pool: Pool, conn: Conn, ghost g: Grammar) returns (alive: bool)
    requires pool.Slots() && pool.Holds(conn) && conn.Valid() && Recorded(conn.cgi.Fds()) && IsLiso(g)
    requires conn.req.lastBuf.sz >= 0
    modifies pool`nConns, pool`readSet, pool`writeSet, pool.kernel, pool.conns, pool.conns[..pool.nConns]`idx
    modifies conn`log, conn.req, conn.resp, conn.cgi, conn.buf, conn.buf.data, conn.req.lastBuf, conn.req.lastBuf.data
    ensures Ended(pool, conn, alive, S.ResetOrClose(g, old(pool.L(conn))), old(pool.conns[..pool.nConns]), old(conn.idx))
  {
    if conn.req.alive {
      Restart(pool, conn, g);
      alive := true;
    } else {
      alive := DropConn(pool, conn);
    }
  }

  method Restart(pool: Pool, conn: Conn, ghost g: Grammar)
    requires conn.Shape() && conn.Valid() && Recorded(conn.cgi.Fds()) && IsLiso(g)
    requires conn.req.lastBuf.sz >= 0 && conn.req.alive
    modifies pool`readSet, pool`writeSet, pool.kernel
    modifies conn`log, conn.req, conn.resp, conn.cgi, conn.buf, conn.buf.data, conn.req.lastBuf, conn.req.lastBuf.data
    ensures conn.Valid() && S.Kept(pool.L(conn)) == S.ResetOrClose(g, old(pool.L(conn)))
  {
    pool.ResetConn(conn);
    if conn.req.lastBuf.sz != 0 {
      NextRequest(pool, conn, g);
    }
  }

  // The callback a function of conn.c ends with.
  method Callback(pool: Pool, conn: Conn, call: Call, ghost g: Grammar) returns (alive: bool)
    requires pool.Slots() && pool.Holds(conn) && conn.Valid() && Recorded(conn.cgi.Fds()) && IsLiso(g)
    requires conn.req.lastBuf.sz >= 0
    modifies pool`nConns, pool`readSet, pool`writeSet, pool.kernel, pool.conns, pool.conns[..pool.nConns]`idx
    modifies conn`log, conn.req, conn.resp, conn.cgi, conn.buf, conn.buf.data, conn.req.lastBuf, conn.req.lastBuf.data
    ensures Ended(pool, conn, alive, S.After(g, old(pool.L(conn)), (old(conn.Val()), call)),
                  old(pool.conns[..pool.nConns]), old(conn.idx))
  {
    alive := true;
    match call {
      case NoCall =>
      case Err(status) => ConnErr(pool, conn, status);
      case Fatal => alive := DropConn(pool, conn);
      case Succ => alive := ResetOrClose(pool, conn, g);
    }
  }

  // ---------- the invariant of a turn ----------

  // The invariant of a turn, folded: it is unfolded where Inv is mentioned.
  ghost predicate Sound(l: S.Local) {
    forall k: S.Local {:trigger Inv(k)} :: k == l ==> Inv(k)
  }

  lemma SoundTransitions(l: S.Local, rd: set<int>, env: S.Env)
    requires Sound(l)
    ensures Sound(S.Transitions(l, rd, env)) && Quiet(S.Transitions(l, rd, env))
  {
    assert Inv(l);
    TransitionsOk(l, rd, env);
  }

  lemma SoundStart(l: S.Local, env: S.Env)
    requires Sound(l)
    ensures Sound(S.DoneStep(S.SpawnStep(S.PrepareStep(l, env.tries, env.header), env.spawn)))
  {
    assert Inv(l);
    var l1 := S.PrepareStep(l, env.tries, env.header);
    PrepareStepOk(l, env.tries, env.header);
    SpawnStepOk(l1, env.spawn);
    DoneStepOk(S.SpawnStep(l1, env.spawn));
  }

  lemma SoundStream(l: S.Local, writes: seq<int>)
    requires Sound(l)
    ensures Usable(l.c) && Usable(S.StreamStep(l, writes).c)
  {
    assert Inv(l);
    StreamStepOk(l, writes);
  }

  lemma SoundRecv(g: Grammar, l: S.Local, input: Input)
    requires Sound(l) && l.c.req.phase != REQ_DONE
    ensures S.LisoRecv(g, l, input).Kept? ==> Sound(S.LisoRecv(g, l, input).l)
  {
    assert Inv(l);
    LisoRecvOk(g, l, input);
  }

  // What the methods of a connection rely on.
  ghost predicate Usable(c: ConnVal) {
    && Recorded(c.cgi.fds) && c.last.sz >= 0
    && (c.req.phase != REQ_ABORT ==> c.buf.sz >= 0) && (c.cgi.phase != CGI_ABORT ==> c.buf.sz >= 0)
    && (c.req.phase == REQ_BODY ==> c.req.rsize >= 0)
    && (c.cgi.phase == CGI_CGI_TO_SRV ==> c.buf.dp == 0)
    && (c.cgi.bufPhase == BUF_SEND ==> c.buf.sz >= 0)
    && (c.resp.phase == RESP_HEADER || c.resp.phase == RESP_BODY ==> c.resp.mmbuf.Some?)
    && (c.resp.phase == RESP_HEADER ==> c.buf.sz >= 0)
  }

  lemma SoundIsUsable(l: S.Local)
    requires Sound(l)
    ensures Usable(l.c) && Scanned(l.c)
  {
    assert Inv(l);
  }

  lemma SoundDyn(g: Grammar, l: S.Local, wr: set<int>, n: int)
    requires Sound(l) && Quiet(l)
    ensures S.DynStep(g, l, wr, n).Kept? ==> Usable(S.DynStep(g, l, wr, n).l.c)
  {
    assert Inv(l);
    DynStepOk(g, l, wr, n);
  }

  // ---------- receiving ----------

  method LisoRecv(pool: Pool, conn: Conn, input: Input, ghost g: Grammar) returns (alive: bool)
    requires pool.Slots() && pool.Holds(conn) && conn.Valid() && IsLiso(g) && Sound(pool.L(conn))
    modifies pool`nConns, pool`readSet, pool`writeSet, pool.kernel, pool.conns, pool.conns[..pool.nConns]`idx
    modifies conn`log, conn.req, conn.resp, conn.cgi, conn.buf, conn.buf.data, conn.req.lastBuf, conn.req.lastBuf.data
    ensures Ended(pool, conn, alive, S.LisoRecv(g, old(pool.L(conn)), input),
                  old(pool.conns[..pool.nConns]), old(conn.idx))
  {
    SoundIsUsable(pool.L(conn));
    var fatal := RecvAndMark(pool, conn, input, g);
    if fatal {
      alive := DropConn(pool, conn);
    } else {
      alive := true;
    }
  }

  // cn_recv up to its fatality callback.
  method RecvAndMark(pool: Pool, conn: Conn, input: Input, ghost g: Grammar) returns (fatal: bool)
    requires conn.Shape() && conn.Valid() && IsLiso(g) && Usable(conn.Val()) && Scanned(conn.Val())
    modifies pool`writeSet
    modifies conn`log, conn.req, conn.resp, conn.cgi, conn.buf, conn.buf.data, conn.req.lastBuf, conn.req.lastBuf.data
    ensures conn.Valid() && conn.cgi.Fds() == old(conn.cgi.Fds())
    ensures S.LisoRecv(g, old(pool.L(conn)), input) == if fatal then S.DropConn(pool.L(conn)) else S.Kept(pool.L(conn))
  {
    var err;
    err, fatal := conn.Recv(input, g);
    if err > 0 {
      ConnErr(pool, conn, err);
    }
  }

  // ---------- the transitions ----------

  method PrepareStep(pool: Pool, conn: Conn, tries: seq<Try>, t: HdrText)
    requires conn.Shape() && conn.Valid()
    modifies pool`writeSet, pool.kernel, conn`log, conn.req, conn.resp, conn.buf, conn.buf.data
    ensures conn.Valid() && pool.L(conn) == S.PrepareStep(old(pool.L(conn)), tries, t)
  {
    if conn.req.kind == REQ_STATIC && conn.req.phase == REQ_DONE && conn.resp.phase == RESP_READY {
      var call := conn.PrepareStaticHeader(pool.kernel, tries, t);
      if call.Err? {
        ConnErr(pool, conn, call.status);
      }
    }
  }

  method SpawnStep(pool: Pool, conn: Conn, spawn: Spawn)
    requires conn.Shape() && conn.Valid()
    modifies pool`readSet, pool`writeSet, pool.kernel, conn.req, conn.resp, conn.cgi
    ensures conn.Valid() && pool.L(conn) == S.SpawnStep(old(pool.L(conn)), spawn)
  {
    if conn.req.kind == REQ_DYNAMIC && conn.cgi.phase == CGI_READY {
      var call := conn.InitCgi(pool.kernel, S.Given(pool.kernel.open, spawn));
      if call.Err? {
        ConnErr(pool, conn, call.status);
      } else {
        // liso_cgi_inited
        pool.readSet := pool.readSet + {conn.cgi.srvErr};
      }
    }
  }

  method DoneStep(pool: Pool, conn: Conn)
    requires conn.Shape() && conn.Valid()
    modifies pool`readSet, pool`writeSet
    ensures pool.L(conn) == S.DoneStep(old(pool.L(conn)))
  {
    if conn.req.phase == REQ_DONE {
      pool.readSet := pool.readSet - {conn.fd};
      if conn.req.kind == REQ_STATIC {
        pool.writeSet := pool.writeSet + {conn.fd};
      }
    }
  }

  method StreamStep(pool: Pool, conn: Conn, writes: seq<int>)
    requires conn.Shape() && conn.Valid() && (conn.cgi.phase == CGI_SRV_TO_CGI ==> conn.buf.sz >= 0)
    modifies pool`readSet, pool`writeSet, pool.kernel, conn`log, conn.req, conn.resp, conn.cgi, conn.buf
    ensures conn.Valid() && pool.L(conn) == S.StreamStep(old(pool.L(conn)), writes)
  {
    if conn.req.kind == REQ_DYNAMIC && conn.cgi.phase == CGI_SRV_TO_CGI {
      var call := conn.StreamToCgi(writes);
      if call.Err? {
        ConnErr(pool, conn, call.status);
      }
      if conn.req.phase == REQ_DONE {
        CloseBody(pool, conn);
      }
    }
  }

  method CloseBody(pool: Pool, conn: Conn)
    requires conn.Shape() && conn.Valid()
    modifies pool`readSet, pool.kernel, conn.cgi
    ensures pool.L(conn) == S.CloseBody(old(pool.L(conn)))
  {
    conn.cgi.srvOut := Cgi.ClosePipe(pool.kernel, conn.cgi.srvOut);
    pool.readSet := pool.readSet + {conn.cgi.srvIn};
    conn.cgi.phase := CGI_CGI_TO_SRV;
  }

  method FromCgiStep(pool: Pool, conn: Conn, input: Input)
    requires conn.Shape() && conn.Valid() && (conn.cgi.phase == CGI_CGI_TO_SRV ==> conn.buf.data_p == 0)
    modifies pool`readSet, pool`writeSet, pool.kernel
    modifies conn`log, conn.req, conn.resp, conn.cgi, conn.buf, conn.buf.data
    ensures conn.Valid() && pool.L(conn) == S.FromCgiStep(old(pool.L(conn)), pool.readReady, input)
  {
    if conn.req.kind == REQ_DYNAMIC && conn.cgi.srvIn > 0 && conn.cgi.srvIn in pool.readReady
       && conn.cgi.phase == CGI_CGI_TO_SRV && conn.cgi.bufPhase == BUF_RECV {
      var call := conn.StreamFromCgi(input);
      if call.Err? {
        ConnErr(pool, conn, call.status);
      }
      if conn.cgi.bufPhase == BUF_SEND {
        pool.writeSet := pool.writeSet + {conn.fd};
      }
      if conn.cgi.phase == CGI_DONE {
        CloseInput(pool, conn);
      }
    }
  }

  method CloseInput(pool: Pool, conn: Conn)
    requires conn.Shape() && conn.Valid()
    modifies pool`readSet, pool.kernel, conn.cgi
    ensures pool.L(conn) == S.CloseInput(old(pool.L(conn)))
  {
    pool.readSet := pool.readSet - {conn.cgi.srvIn};
    conn.cgi.srvIn := Cgi.ClosePipe(pool.kernel, conn.cgi.srvIn);
  }

  method Transitions(pool: Pool, conn: Conn, env: S.Env)
    requires conn.Shape() && conn.Valid() && Sound(pool.L(conn))
    modifies pool`readSet, pool`writeSet, pool.kernel
    modifies conn`log, conn.req, conn.resp, conn.cgi, conn.buf, conn.buf.data
    ensures conn.Valid() && pool.L(conn) == S.Transitions(old(pool.L(conn)), pool.readReady, env)
  {
    SoundStart(pool.L(conn), env);
    Start(pool, conn, env);
    Stream(pool, conn, env);
  }

  method Stream(pool: Pool, conn: Conn, env: S.Env)
    requires conn.Shape() && conn.Valid() && Sound(pool.L(conn))
    modifies pool`readSet, pool`writeSet, pool.kernel
    modifies conn`log, conn.req, conn.resp, conn.cgi, conn.buf, conn.buf.data
    ensures conn.Valid()
    ensures pool.L(conn) == S.FromCgiStep(S.StreamStep(old(pool.L(conn)), env.writes), pool.readReady, env.read)
  {
    SoundStream(pool.L(conn), env.writes);
    StreamStep(pool, conn, env.writes);
    FromCgiStep(pool, conn, env.read);
  }

  // The transitions up to the one that prepares for select.
  method Start(pool: Pool, conn: Conn, env: S.Env)
    requires conn.Shape() && conn.Valid()
    modifies pool`readSet, pool`writeSet, pool.kernel
    modifies conn`log, conn.req, conn.resp, conn.cgi, conn.buf, conn.buf.data
    ensures conn.Valid()
    ensures pool.L(conn) == S.DoneStep(S.SpawnStep(S.PrepareStep(old(pool.L(conn)), env.tries, env.header), env.spawn))
  {
    PrepareStep(pool, conn, env.tries, env.header);
    SpawnStep(pool, conn, env.spawn);
    DoneStep(pool, conn);
  }

  // ---------- serving ----------

  method DynStep(pool: Pool, conn: Conn, n: int, ghost g: Grammar) returns (alive: bool)
    requires pool.Slots() && pool.Holds(conn) && conn.Valid() && Recorded(conn.cgi.Fds()) && IsLiso(g)
    requires conn.req.lastBuf.sz >= 0 && (conn.cgi.bufPhase == BUF_SEND ==> conn.buf.sz >= 0)
    modifies pool`nConns, pool`readSet, pool`writeSet, pool.kernel, pool.conns, pool.conns[..pool.nConns]`idx
    modifies conn`log, conn.req, conn.resp, conn.cgi, conn.buf, conn.buf.data, conn.req.lastBuf, conn.req.lastBuf.data
    ensures Ended(pool, conn, alive, S.DynStep(g, old(pool.L(conn)), pool.writeReady, n),
                  old(pool.conns[..pool.nConns]), old(conn.idx))
  {
    alive := true;
    if conn.req.kind == REQ_DYNAMIC && conn.fd in pool.writeReady && conn.cgi.bufPhase == BUF_SEND {
      alive := ServeAnswer(pool, conn, n, g);
      if alive && conn.cgi.bufPhase == BUF_RECV && conn.fd > 0 {
        pool.writeSet := pool.writeSet - {conn.fd};
      }
    }
  }

  // Sends from the buffer and makes the callback.
  method ServeAnswer(pool: Pool, conn: Conn, n: int, ghost g: Grammar) returns (alive: bool)
    requires pool.Slots() && pool.Holds(conn) && conn.Valid() && Recorded(conn.cgi.Fds()) && IsLiso(g)
    requires conn.req.lastBuf.sz >= 0 && conn.buf.sz >= 0
    modifies pool`nConns, pool`readSet, pool`writeSet, pool.kernel, pool.conns, pool.conns[..pool.nConns]`idx
    modifies conn`log, conn.req, conn.resp, conn.cgi, conn.buf, conn.buf.data, conn.req.lastBuf, conn.req.lastBuf.data
    ensures Ended(pool, conn, alive, S.After(g, old(pool.L(conn)), ServeDynamic(old(conn.Val()), n)),
                  old(pool.conns[..pool.nConns]), old(conn.idx))
  {
    var call := conn.ServeDynamic(n);
    alive := Callback(pool, conn, call, g);
  }

  method StatStep(pool: Pool, conn: Conn, n: int, t: HdrText, msg: string, ghost g: Grammar) returns (alive: bool)
    requires pool.Slots() && pool.Holds(conn) && conn.Valid() && Recorded(conn.cgi.Fds()) && IsLiso(g)
    requires conn.req.lastBuf.sz >= 0
    requires conn.resp.phase == RESP_HEADER || conn.resp.phase == RESP_BODY ==> conn.resp.mmbuf.Some?
    requires conn.resp.phase == RESP_HEADER ==> conn.buf.sz >= 0
    modifies pool`nConns, pool`readSet, pool`writeSet, pool.kernel, pool.conns, pool.conns[..pool.nConns]`idx
    modifies conn`log, conn.req, conn.resp, conn.cgi, conn.buf, conn.buf.data, conn.req.lastBuf, conn.req.lastBuf.data
    ensures Ended(pool, conn, alive, S.StatStep(g, old(pool.L(conn)), pool.writeReady, n, t, msg),
                  old(pool.conns[..pool.nConns]), old(conn.idx))
  {
    alive := true;
    if conn.fd in pool.writeReady && conn.resp.phase != RESP_DISABLED {
      alive := ServePage(pool, conn, n, t, msg, g);
    }
  }

  // Sends header, file or error page and makes the callback.
  method ServePage(pool: Pool, conn: Conn, n: int, t: HdrText, msg: string, ghost g: Grammar) returns (alive: bool)
    requires pool.Slots() && pool.Holds(conn) && conn.Valid() && Recorded(conn.cgi.Fds()) && IsLiso(g)
    requires conn.req.lastBuf.sz >= 0
    requires conn.resp.phase == RESP_HEADER || conn.resp.phase == RESP_BODY ==> conn.resp.mmbuf.Some?
    requires conn.resp.phase == RESP_HEADER ==> conn.buf.sz >= 0
    modifies pool`nConns, pool`readSet, pool`writeSet, pool.kernel, pool.conns, pool.conns[..pool.nConns]`idx
    modifies conn`log, conn.req, conn.resp, conn.cgi, conn.buf, conn.buf.data, conn.req.lastBuf, conn.req.lastBuf.data
    ensures Ended(pool, conn, alive, S.After(g, old(pool.L(conn)), ServeStatic(old(conn.Val()), n, t, msg)),
                  old(pool.conns[..pool.nConns]), old(conn.idx))
  {
    var call := conn.ServeStatic(n, t, msg);
    alive := Callback(pool, conn, call, g);
  }

  // Serving the client.
  method Respond(pool: Pool, conn: Conn, env: S.Env, ghost g: Grammar) returns (alive: bool)
    requires pool.Slots() && pool.Holds(conn) && conn.Valid() && IsLiso(g)
    requires Sound(pool.L(conn)) && Quiet(pool.L(conn))
    modifies pool`nConns, pool`readSet, pool`writeSet, pool.kernel, pool.conns, pool.conns[..pool.nConns]`idx
    modifies conn`log, conn.req, conn.resp, conn.cgi, conn.buf, conn.buf.data, conn.req.lastBuf, conn.req.lastBuf.data
    ensures Ended(pool, conn, alive, S.Respond(g, old(pool.L(conn)), pool.writeReady, env),
                  old(pool.conns[..pool.nConns]), old(conn.idx))
  {
    SoundIsUsable(pool.L(conn));
    SoundDyn(g, pool.L(conn), pool.writeReady, env.dynSend);
    alive := DynStep(pool, conn, env.dynSend, g);
    if alive {
      alive := StatStep(pool, conn, env.statSend, env.page, env.msg, g);
    }
  }

  // What a turn receives, if anything is there.
  ghost function Received(g: Grammar, l: S.Local, rd: set<int>, input: Input): S.Outcome {
    if l.c.fd in rd then S.LisoRecv(g, l, input) else S.Kept(l)
  }

  lemma TurnInParts(g: Grammar, l: S.Local, rd: set<int>, wr: set<int>, env: S.Env)
    ensures var o := Received(g, l, rd, env.recv);
            S.Serve(g, l, rd, wr, env) == if o.Kept? then S.Respond(g, S.Transitions(o.l, rd, env), wr, env) else o
  {
  }

  lemma SoundReceived(g: Grammar, l: S.Local, rd: set<int>, input: Input)
    requires Sound(l) && (l.c.req.phase == REQ_DONE ==> l.c.fd !in rd)
    ensures Received(g, l, rd, input).Kept? ==> Sound(Received(g, l, rd, input).l)
  {
    if l.c.fd in rd {
      SoundRecv(g, l, input);
    }
  }

  method Receive(pool: Pool, conn: Conn, input: Input, ghost g: Grammar) returns (alive: bool)
    requires pool.Slots() && pool.Holds(conn) && conn.Valid() && IsLiso(g) && Sound(pool.L(conn))
    requires conn.req.phase == REQ_DONE ==> conn.fd !in pool.readReady
    modifies pool`nConns, pool`readSet, pool`writeSet, pool.kernel, pool.conns, pool.conns[..pool.nConns]`idx
    modifies conn`log, conn.req, conn.resp, conn.cgi, conn.buf, conn.buf.data, conn.req.lastBuf, conn.req.lastBuf.data
    ensures Ended(pool, conn, alive, Received(g, old(pool.L(conn)), pool.readReady, input),
                  old(pool.conns[..pool.nConns]), old(conn.idx))
    ensures alive ==> pool.Holds(conn) && conn.idx == old(conn.idx)
  {
    alive := true;
    if conn.fd in pool.readReady {
      ghost var i := conn.idx;
      assert pool.conns[..pool.nConns][i] == conn;
      alive := LisoRecv(pool, conn, input, g);
      assert alive ==> pool.conns[i] == pool.conns[..pool.nConns][i] == conn;
    }
  }

  // A turn that started at l, once the bytes that arrived are received.
  method Proceed(pool: Pool, conn: Conn, env: S.Env, ghost l: S.Local, ghost g: Grammar) returns (alive: bool)
    requires pool.Slots() && pool.Holds(conn) && conn.Valid() && IsLiso(g) && Sound(pool.L(conn))
    requires Received(g, l, pool.readReady, env.recv) == S.Kept(pool.L(conn))
    modifies pool`nConns, pool`readSet, pool`writeSet, pool.kernel, pool.conns, pool.conns[..pool.nConns]`idx
    modifies conn`log, conn.req, conn.resp, conn.cgi, conn.buf, conn.buf.data, conn.req.lastBuf, conn.req.lastBuf.data
    ensures Ended(pool, conn, alive, S.Serve(g, l, pool.readReady, pool.writeReady, env),
                  old(pool.conns[..pool.nConns]), old(conn.idx))
  {
    TurnInParts(g, l, pool.readReady, pool.writeReady, env);
    SoundTransitions(pool.L(conn), pool.readReady, env);
    Transitions(pool, conn, env);
    alive := Respond(pool, conn, env, g);
  }

  // One turn of the loop over the pool.
  method Serve(pool: Pool, conn: Conn, env: S.Env, ghost g: Grammar) returns (alive: bool)
    requires pool.Slots() && pool.Holds(conn) && conn.Valid() && IsLiso(g) && Sound(pool.L(conn))
    requires conn.req.phase == REQ_DONE ==> conn.fd !in pool.readReady
    modifies pool`nConns, pool`readSet, pool`writeSet, pool.kernel, pool.conns, pool.conns[..pool.nConns]`idx
    modifies conn`log, conn.req, conn.resp, conn.cgi, conn.buf, conn.buf.data, conn.req.lastBuf, conn.req.lastBuf.data
    ensures Ended(pool, conn, alive, S.Serve(g, old(pool.L(conn)), pool.readReady, pool.writeReady, env),
                  old(pool.conns[..pool.nConns]), old(conn.idx))
  {
    ghost var l := pool.L(conn);
    TurnInParts(g, l, pool.readReady, pool.writeReady, env);
    SoundReceived(g, l, pool.readReady, env.recv);
    alive := Receive(pool, conn, env.recv, g);
    if alive {
      alive := Proceed(pool, conn, env, l, g);
    }
  }

  // ---------- the loop over the pool ----------

  // The invariant of a pass, folded: it is unfolded where NotYetRead is
  // mentioned.
  ghost predicate Fit(s: S.Pass, rd: set<int>) {
    forall k: S.Pass {:trigger NotYetRead(k, rd)} :: k == s ==> PoolOk(k.p) && NotYetRead(k, rd)
  }

  lemma SlotIsSound(s: S.Pass, rd: set<int>)
    requires s.i < |s.p.conns| && Fit(s, rd)
    ensures var l := S.At(s.p, s.i); Sound(l) && (l.c.req.phase == REQ_DONE ==> l.c.fd !in rd)
  {
    assert NotYetRead(s, rd);
    assert Inv(S.At(s.p, s.i));
  }

  // Everything a turn of conn may change, except the place of the last
  // connection.
  ghost function Footprint(pool: Pool, conn: Conn): set<object> {
    {pool, pool.kernel, pool.conns, conn,
     conn.req, conn.resp, conn.cgi, conn.buf, conn.buf.data, conn.req.lastBuf, conn.req.lastBuf.data}
  }

  method ServeIn(pool: Pool, conn: Conn, env: S.Env, ghost fp: set<object>, ghost peers: set<Conn>,
                 ghost g: Grammar) returns (alive: bool)
    requires pool.Slots() && pool.Holds(conn) && conn.Valid() && IsLiso(g) && Sound(pool.L(conn))
    requires conn.req.phase == REQ_DONE ==> conn.fd !in pool.readReady
    requires fp == Footprint(pool, conn)
    requires forall k :: 0 <= k < pool.nConns ==> pool.conns[k] in peers
    modifies peers`idx, fp
    ensures pool.readReady == old(pool.readReady) && pool.writeReady == old(pool.writeReady)
    ensures pool.maxFd == old(pool.maxFd)
    ensures Ended(pool, conn, alive, S.Serve(g, old(pool.L(conn)), pool.readReady, pool.writeReady, env),
                  old(pool.conns[..pool.nConns]), old(conn.idx))
  {
    alive := Serve(pool, conn, env, g);
  }

  // Serving one connection leaves the values of all others alone.
  method ServeAlone(pool: Pool, conn: Conn, env: S.Env, ghost fp: set<object>, ghost peers: set<Conn>,
                    ghost others: set<Conn>, ghost g: Grammar) returns (alive: bool)
    requires pool.Slots() && pool.Holds(conn) && conn.Valid() && IsLiso(g) && Sound(pool.L(conn))
    requires conn.req.phase == REQ_DONE ==> conn.fd !in pool.readReady
    requires fp == Footprint(pool, conn)
    requires forall c :: c in others ==> c !in fp && c.Parts() !! fp + peers && c.Valid()
    requires forall k :: 0 <= k < pool.nConns ==> pool.conns[k] in peers
    modifies peers`idx, fp
    ensures pool.readReady == old(pool.readReady) && pool.writeReady == old(pool.writeReady)
    ensures pool.maxFd == old(pool.maxFd)
    ensures Ended(pool, conn, alive, S.Serve(g, old(pool.L(conn)), pool.readReady, pool.writeReady, env),
                  old(pool.conns[..pool.nConns]), old(conn.idx))
    ensures forall c :: c in others ==> c.Valid() && c.Val() == old(c.Val())
  {
    ghost var touched: set<object> := fp + peers;
    forall c | c in others
      ensures c.req !in touched && c.resp !in touched && c.cgi !in touched && c.buf !in touched
      ensures c.buf.data !in touched && c.req.lastBuf !in touched && c.req.lastBuf.data !in touched
    {
    }
    alive := ServeIn(pool, conn, env, fp, peers, g);
  }

  ghost function Peers(pool: Pool): (s: set<Conn>)
    requires pool.Slots()
    reads pool`nConns, pool.conns, pool.conns[..]`idx
    ensures forall k :: 0 <= k < pool.nConns ==> pool.conns[k] in s
  {
    set k | 0 <= k < pool.nConns :: pool.conns[k]
  }

  lemma OthersUntouched(pool: Pool, conn: Conn, fp: set<object>)
    requires pool.Slots() && pool.Holds(conn) && fp == Footprint(pool, conn)
    ensures forall c :: c in Peers(pool) && c != conn ==> c !in fp && c.Parts() !! fp + Peers(pool)
  {
    forall c | c in Peers(pool) && c != conn
      ensures c !in fp && c.Parts() !! fp + Peers(pool)
    {
      var k :| 0 <= k < pool.nConns && pool.conns[k] == c;
      assert Apart(pool.conns[k], pool.conns[conn.idx]);
    }
  }

  // The connections of `was`, but for the i-th, are as p says.
  ghost predicate OthersShow(was: seq<Conn?>, i: nat, p: S.PoolVal, repr: set<object>)
    reads set k | 0 <= k < |was| :: was[k]
    reads repr
  {
    && |was| == |p.conns|
    && forall k :: 0 <= k < |was| && k != i ==>
         was[k] != null && was[k] in repr && was[k].Parts() <= repr && was[k].Valid() && was[k].Val() == p.conns[k]
  }

  ghost predicate SetsShow(pool: Pool, p: S.PoolVal)
    reads pool, pool.kernel
  {
    && p.sock == pool.sock && p.sslSock == pool.sslSock && S.MinMaxFd(p) == pool.minMaxFd && p.maxFd == pool.maxFd
    && p.R == pool.readSet && p.W == pool.writeSet && p.open == pool.kernel.open && p.lost == pool.kernel.lost
  }

  lemma ShowsKept(pool: Pool, conn: Conn, p: S.PoolVal, i: nat, l: S.Local, repr: set<object>)
    requires pool.Slots() && i < pool.nConns && pool.conns[i] == conn
    requires OthersShow(pool.conns[..pool.nConns], i, p, repr)
    requires conn in repr && conn.Parts() <= repr && conn.Valid() && pool.L(conn) == l
    requires SetsShow(pool, p.(R := l.R, W := l.W, open := l.open, lost := l.lost))
    ensures pool.Shows(S.Put(p, i, l), repr)
  {
  }

  lemma ShowsDropped(pool: Pool, was: seq<Conn?>, p: S.PoolVal, i: nat, R: set<int>, W: set<int>, open: set<int>,
                     lost: set<int>, repr: set<object>)
    requires pool.Slots() && i < |was| && pool.conns[..pool.nConns] == Swapped(was, i)
    requires OthersShow(was, i, p, repr)
    requires SetsShow(pool, p.(R := R, W := W, open := open, lost := lost))
    ensures pool.Shows(S.Remove(p, i, R, W, open, lost), repr)
  {
    forall k | 0 <= k < pool.nConns
      ensures pool.conns[k] == if k == i then was[|was| - 1] else was[k]
    {
      assert pool.conns[..pool.nConns][k] == pool.conns[k];
    }
  }

  // How the index and the maximum follow a turn.
  ghost predicate TurnTaken(alive: bool, s: S.Pass, t: S.Pass) {
    if alive then s.i < |t.p.conns| && t.i == s.i + 1 && t.max == S.MaxWith(s.max, t.p.conns[s.i])
    else t.i == s.i && t.max == s.max
  }

  // The turn of slot i, as a step of the loop over values.
  method Turn(pool: Pool, i: nat, env: S.Env, ghost s: S.Pass, ghost t: S.Pass, ghost repr: set<object>,
              ghost g: Grammar) returns (alive: bool)
    requires pool.Shows(s.p, repr) && i == s.i < pool.nConns && IsLiso(g)
    requires Fit(s, pool.readReady)
    requires t == S.Turn(g, s, pool.readReady, pool.writeReady, env)
    modifies pool, pool.kernel, pool.conns, repr
    ensures pool.readReady == old(pool.readReady) && pool.writeReady == old(pool.writeReady)
    ensures pool.Shows(t.p, repr) && TurnTaken(alive, s, t)
  {
    var conn: Conn := pool.conns[i];
    SlotIsSound(s, pool.readReady);
    assert pool.L(conn) == S.At(s.p, i);
    ghost var was := pool.conns[..pool.nConns];
    alive := ServeShown(pool, conn, env, s.p, repr, g);
    ghost var o := S.Serve(g, S.At(s.p, i), pool.readReady, pool.writeReady, env);
    if alive {
      assert was[i] == pool.conns[i];
      ShowsKept(pool, conn, s.p, i, o.l, repr);
    } else {
      ShowsDropped(pool, was, s.p, i, o.R, o.W, o.open, o.lost, repr);
    }
  }

  method ServeShown(pool: Pool, conn: Conn, env: S.Env, ghost p: S.PoolVal, ghost repr: set<object>, ghost g: Grammar)
    returns (alive: bool)
    requires pool.Shows(p, repr) && pool.Holds(conn) && IsLiso(g) && Sound(pool.L(conn))
    requires conn.req.phase == REQ_DONE ==> conn.fd !in pool.readReady
    modifies pool, pool.kernel, pool.conns, repr
    ensures pool.readReady == old(pool.readReady) && pool.writeReady == old(pool.writeReady)
    ensures pool.maxFd == old(pool.maxFd)
    ensures Ended(pool, conn, alive, S.Serve(g, old(pool.L(conn)), pool.readReady, pool.writeReady, env),
                  old(pool.conns[..pool.nConns]), old(conn.idx))
    ensures OthersShow(old(pool.conns[..pool.nConns]), old(conn.idx), p, repr)
  {
    ghost var was, i := pool.conns[..pool.nConns], conn.idx;
    ghost var fp, peers := Footprint(pool, conn), Peers(pool);
    OthersUntouched(pool, conn, fp);
    OthersListed(pool, was, conn);
    alive := ServeAlone(pool, conn, env, fp, peers, peers - {conn}, g);
  }

  lemma OthersListed(pool: Pool, was: seq<Conn?>, conn: Conn)
    requires pool.Slots() && pool.Holds(conn) && was == pool.conns[..pool.nConns]
    ensures forall k :: 0 <= k < |was| && k != conn.idx ==> was[k] in Peers(pool) - {conn}
  {
    forall k | 0 <= k < |was| && k != conn.idx
      ensures was[k] in Peers(pool) - {conn}
    {
      assert Apart(pool.conns[k], pool.conns[conn.idx]);
    }
  }

  lemma FirstTurn(g: Grammar, s: S.Pass, rd: set<int>, wr: set<int>, envs: seq<S.Env>, n: nat)
    requires n < |envs| && s.i < |s.p.conns| && |envs| - n == |s.p.conns| - s.i
    requires Fit(s, rd)
    ensures var t := S.Turn(g, s, rd, wr, envs[n]);
            S.Turns(g, s, rd, wr, envs[n..]) == S.Turns(g, t, rd, wr, envs[n + 1..]) && Fit(t, rd)
  {
    assert envs[n..][1..] == envs[n + 1..];
    assert NotYetRead(s, rd);
    TurnOk(g, s, rd, wr, envs[n]);
  }

  // One iteration: the connection in slot i is served, and i steps back when
  // it was dropped, because the last connection is in its slot then.
  method Iteration(pool: Pool, maxFd: int, i: nat, env: S.Env, ghost s: S.Pass, ghost t: S.Pass,
                   ghost repr: set<object>, ghost g: Grammar) returns (maxFd': int, i': int)
    requires pool.Shows(s.p, repr) && i == s.i < pool.nConns && maxFd == s.max && IsLiso(g)
    requires Fit(s, pool.readReady)
    requires t == S.Turn(g, s, pool.readReady, pool.writeReady, env)
    modifies pool, pool.kernel, pool.conns, repr
    ensures pool.readReady == old(pool.readReady) && pool.writeReady == old(pool.writeReady)
    ensures pool.Shows(t.p, repr) && i' == t.i && maxFd' == t.max
  {
    var alive := Turn(pool, i, env, s, t, repr, g);
    maxFd', i' := Advance(pool, alive, maxFd, i, s, t, repr);
  }

  method Advance(pool: Pool, alive: bool, maxFd: int, i: nat, ghost s: S.Pass, ghost t: S.Pass, ghost repr: set<object>)
    returns (maxFd': int, i': int)
    requires pool.Shows(t.p, repr) && TurnTaken(alive, s, t) && maxFd == s.max && i == s.i
    ensures i' == t.i && maxFd' == t.max
  {
    maxFd', i' := maxFd, i;
    if !alive {
      i' := i' - 1;
    } else {
      maxFd' := NewMax(maxFd, pool.conns[i]);
    }
    i' := i' + 1;
  }

  method NewMax(max: int, conn: Conn) returns (r: int)
    requires conn.Valid()
    ensures r == S.MaxWith(max, conn.Val())
  {
    r := S.Max(max, conn.fd);
    r := S.Max(r, conn.cgi.srvIn);
    r := S.Max(r, conn.cgi.srvErr);
  }

  // The pass has come to s: it ends where the whole pass over values ends.
  ghost predicate Passing(g: Grammar, p: S.PoolVal, s: S.Pass, rd: set<int>, wr: set<int>, envs: seq<S.Env>, n: nat) {
    && s.i <= |s.p.conns| && n <= |envs| && |envs| - n == |s.p.conns| - s.i && |envs| == |p.conns|
    && Fit(s, rd)
    && S.Turns(g, s, rd, wr, envs[n..]) == S.Turns(g, S.StartPass(p), rd, wr, envs)
  }

  lemma PassStarts(g: Grammar, p: S.PoolVal, rd: set<int>, wr: set<int>, envs: seq<S.Env>)
    requires PoolOk(p) && NotYetRead(S.StartPass(p), rd) && |envs| == |p.conns|
    ensures Passing(g, p, S.StartPass(p), rd, wr, envs, 0)
  {
    assert envs[0..] == envs;
  }

  lemma StillPassing(g: Grammar, p: S.PoolVal, s: S.Pass, rd: set<int>, wr: set<int>, envs: seq<S.Env>, n: nat)
    requires Passing(g, p, s, rd, wr, envs, n) && s.i < |s.p.conns|
    ensures Passing(g, p, S.Turn(g, s, rd, wr, envs[n]), rd, wr, envs, n + 1)
  {
    FirstTurn(g, s, rd, wr, envs, n);
  }

  // One pass over the pool: its turns come to an end, and they are exactly
  // the turns of the pass over values.
  method ServePool(pool: Pool, envs: seq<S.Env>, ghost p: S.PoolVal, ghost repr: set<object>, ghost g: Grammar)
    requires pool.Shows(p, repr) && IsLiso(g) && |envs| == pool.nConns
    requires PoolOk(p) && NotYetRead(S.StartPass(p), pool.readReady)
    modifies pool, pool.kernel, pool.conns, repr
    ensures pool.readReady == old(pool.readReady) && pool.writeReady == old(pool.writeReady)
    ensures var t := S.Turns(g, S.StartPass(p), pool.readReady, pool.writeReady, envs);
            pool.Shows(t.p.(maxFd := t.max), repr)
  {
    PassStarts(g, p, pool.readReady, pool.writeReady, envs);
    var maxFd, n, s := AllTurns(pool, envs, p, repr, g);
    EndPass(pool, maxFd, envs, n, p, s, repr, g);
  }

  // The loop itself, up to the last connection.
  method AllTurns(pool: Pool, envs: seq<S.Env>, ghost p: S.PoolVal, ghost repr: set<object>, ghost g: Grammar)
    returns (maxFd: int, ghost n: nat, ghost s: S.Pass)
    requires pool.Shows(p, repr) && IsLiso(g)
    requires Passing(g, p, S.StartPass(p), pool.readReady, pool.writeReady, envs, 0)
    modifies pool, pool.kernel, pool.conns, repr
    ensures pool.readReady == old(pool.readReady) && pool.writeReady == old(pool.writeReady)
    ensures pool.Shows(s.p, repr) && maxFd == s.max && s.i == pool.nConns
    ensures Passing(g, p, s, pool.readReady, pool.writeReady, envs, n)
  {
    var i: int, k := 0, 0;
    maxFd, n, s := pool.minMaxFd, 0, S.StartPass(p);
    while i < pool.nConns
      invariant 0 <= i == s.i && maxFd == s.max && 0 <= k == n
      invariant pool.Shows(s.p, repr) && Passing(g, p, s, pool.readReady, pool.writeReady, envs, n)
      invariant pool.readReady == old(pool.readReady) && pool.writeReady == old(pool.writeReady)
      decreases pool.nConns - i
    {
      maxFd, i, s := OneMoreTurn(pool, maxFd, i, k, envs, p, s, repr, g);
      k, n := k + 1, n + 1;
    }
  }

  method OneMoreTurn(pool: Pool, maxFd: int, i: nat, n: nat, envs: seq<S.Env>, ghost p: S.PoolVal, ghost s: S.Pass,
                     ghost repr: set<object>, ghost g: Grammar) returns (maxFd': int, i': int, ghost t: S.Pass)
    requires pool.Shows(s.p, repr) && i == s.i < pool.nConns && maxFd == s.max && IsLiso(g)
    requires Passing(g, p, s, pool.readReady, pool.writeReady, envs, n)
    modifies pool, pool.kernel, pool.conns, repr
    ensures pool.readReady == old(pool.readReady) && pool.writeReady == old(pool.writeReady)
    ensures pool.Shows(t.p, repr) && 0 <= i' == t.i && maxFd' == t.max
    ensures Passing(g, p, t, pool.readReady, pool.writeReady, envs, n + 1)
    ensures pool.nConns - i' == old(pool.nConns) - i - 1
  {
    StillPassing(g, p, s, pool.readReady, pool.writeReady, envs, n);
    t := S.Turn(g, s, pool.readReady, pool.writeReady, envs[n]);
    maxFd', i' := Iteration(pool, maxFd, i, envs[n], s, t, repr, g);
  }

  method EndPass(pool: Pool, maxFd: int, envs: seq<S.Env>, ghost n: nat, ghost p: S.PoolVal, ghost s: S.Pass,
                 ghost repr: set<object>, ghost g: Grammar)
    requires pool.Shows(s.p, repr) && maxFd == s.max && s.i == pool.nConns
    requires Passing(g, p, s, pool.readReady, pool.writeReady, envs, n)
    modifies pool`maxFd
    ensures var t := S.Turns(g, S.StartPass(p), pool.readReady, pool.writeReady, envs);
            pool.Shows(t.p.(maxFd := t.max), repr)
  {
    pool.maxFd := maxFd;
  }

  // ---------- accepting ----------

  // pl_add_conn changes no connection that is in the pool already.
  method AddAlone(pool: Pool, conn: Conn, ghost fp: set<object>, ghost others: set<Conn>) returns (ok: bool)
    requires pool.Slots() && conn.Shape() && fp == {pool, pool.conns, conn}
    requires forall k :: 0 <= k < pool.nConns ==> Apart(pool.conns[k], conn)
    requires forall c :: c in others ==> c !in fp && c.Parts() !! fp && c.Valid()
    requires conn.Valid() && conn.Parts() !! fp
    modifies fp
    ensures pool.Slots() && ok == (old(pool.nConns) < S.MAX_CONNS)
    ensures pool.conns[..pool.nConns] == old(pool.conns[..pool.nConns]) + if ok then [conn] else []
    ensures pool.readSet == old(pool.readSet) + if ok then {conn.fd} else {}
    ensures pool.writeSet == old(pool.writeSet) && pool.maxFd == old(pool.maxFd)
    ensures pool.readReady == old(pool.readReady) && pool.writeReady == old(pool.writeReady)
    ensures forall c :: c in others ==> c.Valid() && c.Val() == old(c.Val())
    ensures conn.Valid() && conn.Val() == old(conn.Val())
  {
    forall c | c in others + {conn}
      ensures c.req !in fp && c.resp !in fp && c.cgi !in fp && c.buf !in fp
      ensures c.buf.data !in fp && c.req.lastBuf !in fp && c.req.lastBuf.data !in fp
    {
    }
    ok := pool.AddConn(conn);
  }

  // cn_new and pl_add_conn.
  method Enlist(pool: Pool, fd: nat, ghost p: S.PoolVal, ghost repr: set<object>) returns (ghost repr': set<object>)
    requires pool.Shows(p, repr) && pool.nConns < S.MAX_CONNS
    modifies pool, pool.conns
    ensures repr <= repr' && fresh(repr' - repr)
    ensures pool.readReady == old(pool.readReady) && pool.writeReady == old(pool.writeReady)
    ensures pool.Shows(p.(conns := p.conns + [FreshConn(fd)], R := p.R + {fd}), repr')
  {
    ghost var was := pool.conns[..pool.nConns];
    var conn := new Conn(fd, pool.nConns);
    repr' := repr + {conn} + conn.Parts();
    ghost var fp, others := {pool, pool.conns, conn}, Peers(pool);
    NewApart(pool, conn, fp);
    AllListed(pool, was);
    var ok := AddAlone(pool, conn, fp, others);
    ShowsAdded(pool, was, conn, p, repr, repr');
  }

  lemma AllListed(pool: Pool, was: seq<Conn?>)
    requires pool.Slots() && was == pool.conns[..pool.nConns]
    ensures forall k :: 0 <= k < |was| ==> was[k] in Peers(pool)
  {
    assert forall k :: 0 <= k < |was| ==> was[k] == pool.conns[k];
  }

  lemma ShowsAdded(pool: Pool, was: seq<Conn?>, conn: Conn, p: S.PoolVal, repr: set<object>, repr': set<object>)
    requires pool.Slots() && pool.conns[..pool.nConns] == was + [conn]
    requires OthersShow(was, |was|, p, repr) && repr <= repr'
    requires conn in repr' && conn.Parts() <= repr' && conn.Valid() && conn.Val() == FreshConn(conn.fd)
    requires SetsShow(pool, p.(R := p.R + {conn.fd}))
    ensures pool.Shows(p.(conns := p.conns + [FreshConn(conn.fd)], R := p.R + {conn.fd}), repr')
  {
    var now := pool.conns[..pool.nConns];
    assert forall k :: 0 <= k < |now| ==> now[k] == pool.conns[k];
  }

  lemma NewApart(pool: Pool, conn: Conn, fp: set<object>)
    requires pool.Slots() && fp == {pool, pool.conns, conn} && conn !in Peers(pool)
    requires forall c :: c in Peers(pool) ==> Apart(c, conn)
    ensures forall c :: c in Peers(pool) ==> c !in fp && c.Parts() !! fp
    ensures conn.Parts() !! fp
  {
  }

  // liso_accept_conn without the TLS set-up: a connection is refused when its
  // descriptor cannot be watched or the pool is full.
  method AcceptConn(pool: Pool, answer: Option<nat>, usable: bool, ghost p: S.PoolVal, ghost repr: set<object>)
    returns (ghost repr': set<object>)
    requires pool.Shows(p, repr)
    modifies pool, pool.kernel, pool.conns
    ensures repr <= repr' && fresh(repr' - repr)
    ensures pool.readReady == old(pool.readReady) && pool.writeReady == old(pool.writeReady)
    ensures pool.Shows(S.Accept(p, answer, usable), repr')
  {
    repr' := repr;
    if answer.None? || answer.value == 0 || answer.value in pool.kernel.open {
      return;
    }
    var fd := answer.value;
    OpenFd(pool, fd, p, repr);
    if fd >= S.FD_SETSIZE || !usable || pool.nConns == S.MAX_CONNS {
      CloseFd(pool, fd, p, repr);
    } else {
      repr' := Enlist(pool, fd, p.(open := p.open + {fd}), repr);
    }
  }

  method OpenFd(pool: Pool, fd: int, ghost p: S.PoolVal, ghost repr: set<object>)
    requires pool.Shows(p, repr)
    modifies pool.kernel`open
    ensures pool.Shows(p.(open := p.open + {fd}), repr)
  {
    pool.kernel.open := pool.kernel.open + {fd};
  }

  method CloseFd(pool: Pool, fd: int, ghost p: S.PoolVal, ghost repr: set<object>)
    requires pool.Shows(p.(open := p.open + {fd}), repr) && fd !in p.open
    modifies pool.kernel`open
    ensures pool.Shows(p, repr)
  {
    pool.kernel.Close(fd);
    assert p.open + {fd} - {fd} == p.open;
  }

  // ---------- the main loop ----------

  // What is accepted in one round.
  method AcceptAll(pool: Pool, x: S.PassIn, ghost p: S.PoolVal, ghost repr: set<object>)
    returns (ghost repr': set<object>)
    requires pool.Shows(p, repr)
    modifies pool, pool.kernel, pool.conns
    ensures repr <= repr' && fresh(repr' - repr)
    ensures pool.readReady == old(pool.readReady) && pool.writeReady == old(pool.writeReady)
    ensures pool.Shows(S.Accepts(p, pool.readReady, x), repr')
  {
    repr' := repr;
    ghost var p1 := if p.sock in pool.readReady then S.Accept(p, x.first, x.firstUsable) else p;
    if pool.sock in pool.readReady {
      repr' := AcceptConn(pool, x.first, x.firstUsable, p, repr');
    }
    if pool.sslSock in pool.readReady {
      repr' := AcceptConn(pool, x.second, x.secondUsable, p1, repr');
    }
  }

  // One round of the main loop: select, accept, one pass over the pool.
  method Round(pool: Pool, x: S.PassIn, ghost p: S.PoolVal, ghost repr: set<object>, ghost g: Grammar)
    returns (ghost repr': set<object>)
    requires pool.Shows(p, repr) && PoolOk(p) && IsLiso(g)
    modifies pool, pool.kernel, pool.conns, repr
    ensures repr <= repr' && fresh(repr' - repr)
    ensures pool.Shows(S.Round(g, p, x), repr')
  {
    repr' := repr;
    if x.selected {
      Select(pool, x.rd, x.wr, p, repr);
      AcceptsOk(p, pool.readReady, x);
      repr' := AcceptAll(pool, x, p, repr);
      ServePool(pool, S.Padded(x.envs, pool.nConns), S.Accepts(p, pool.readReady, x), repr', g);
    }
  }

  method Select(pool: Pool, rd: set<int>, wr: set<int>, ghost p: S.PoolVal, ghost repr: set<object>)
    requires pool.Shows(p, repr)
    modifies pool`readReady, pool`writeReady
    ensures pool.Shows(p, repr) && pool.readReady == rd * p.R && pool.writeReady == wr * p.W
  {
    pool.Ready(rd, wr);
  }

  // The server from its start: after any rounds the objects are in the state
  // that the run over values reaches, so every law of runs is one of theirs.
  method RunServer(sock: nat, sslSock: nat, xs: seq<S.PassIn>, ghost g: Grammar)
    returns (pool: Pool, ghost repr: set<object>)
    requires sock != sslSock && IsLiso(g)
    ensures pool.Shows(S.Run(g, S.NewPool(sock, sslSock), xs), repr)
    ensures PoolOk(S.Run(g, S.NewPool(sock, sslSock), xs)) && Bounded(S.Run(g, S.NewPool(sock, sslSock), xs))
  {
    pool := new Pool(sock, sslSock);
    repr := {};
    ghost var start := S.NewPool(sock, sslSock);
    var n := 0;
    while n < |xs|
      invariant 0 <= n <= |xs|
      invariant fresh(pool) && fresh(pool.kernel) && fresh(pool.conns) && fresh(repr)
      invariant pool.Shows(S.Run(g, start, xs[..n]), repr)
    {
      EveryRun(g, sock, sslSock, xs[..n]);
      repr := Round(pool, xs[n], S.Run(g, start, xs[..n]), repr, g);
      OneMore(g, start, xs, n);
      n := n + 1;
    }
    assert xs[..n] == xs;
    EveryRun(g, sock, sslSock, xs);
  }

  // The server with its own grammar.
  method Liso(sock: nat, sslSock: nat, xs: seq<S.PassIn>) returns (pool: Pool, ghost repr: set<object>)
    requires sock != sslSock
    ensures pool.Shows(S.Run(LISO, S.NewPool(sock, sslSock), xs), repr)
  {
    LisoIsLiso();
    pool, repr := RunServer(sock, sslSock, xs, LISO);
  }

  lemma OneMore(g: Grammar, p: S.PoolVal, xs: seq<S.PassIn>, n: nat)
    requires n < |xs|
    ensures S.Run(g, p, xs[..n + 1]) == S.Round(g, S.Run(g, p, xs[..n]), xs[n])
  {
    assert xs[..n + 1][..n] == xs[..n];
  }
}
