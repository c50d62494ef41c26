/** What one turn of the main loop keeps: phases, buffers, descriptors and the
    bits in the descriptor sets. */
module LoopInv {
  import opened Text
  import opened Buffers
  import opened RequestSpec
  import opened ConnSpec
  import opened ConnInv
  import opened ServerSpec

  // ---------- descriptors ----------

  // The descriptors recorded in a connection.
  function Own(c: ConnVal): set<int> {
    var f := c.cgi.fds;
    {c.fd, f.srvIn, f.srvOut, f.srvErr, f.cgiIn, f.cgiOut, f.cgiErr} - {-1}
  }

  // Recorded descriptors are different, and which pipes are open follows the
  // phase of the program.
  ghost predicate FdsOk(c: ConnVal) {
    var f, ph := c.cgi.fds, c.cgi.phase;
    && c.fd > 0 && f.srvIn >= -1 && f.srvOut >= -1 && f.srvErr >= -1 && f.cgiIn >= -1 && f.cgiOut >= -1 && f.cgiErr >= -1
    && f.srvIn != 0 && f.srvErr != 0
    && Alone(f.srvIn, {c.fd, f.srvOut, f.srvErr, f.cgiIn, f.cgiOut, f.cgiErr})
    && Alone(f.srvErr, {c.fd, f.srvOut, f.cgiIn, f.cgiOut, f.cgiErr})
    && Alone(f.srvOut, {c.fd, f.cgiIn, f.cgiOut, f.cgiErr})
    && Alone(f.cgiIn, {c.fd, f.cgiOut, f.cgiErr})
    && Alone(f.cgiOut, {c.fd, f.cgiErr}) && Alone(f.cgiErr, {c.fd})
    && (ph in {CGI_IDLE, CGI_READY, CGI_DISABLED} ==> f == NoFds)
    && (ph in {CGI_SRV_TO_CGI, CGI_CGI_TO_SRV, CGI_DONE} ==>
          && f.srvErr > 0 && f.cgiIn == -1 && f.cgiOut == -1 && f.cgiErr == -1
          && (f.srvOut > 0 <==> ph == CGI_SRV_TO_CGI) && (f.srvIn > 0 <==> ph != CGI_DONE))
  }

  // The descriptor sets hold open descriptors, none of them lost.
  ghost predicate SetsOk(R: set<int>, W: set<int>, open: set<int>, lost: set<int>) {
    R <= open && W <= open && lost <= open && lost !! R && lost !! W
  }

  // A connection's descriptors are open; in the sets it shows only its
  // socket, srv_in and srv_err, and for writing only the socket.
  ghost predicate Owned(l: Local) {
    var f := l.c.cgi.fds;
    && FdsOk(l.c)
    && Own(l.c) <= l.open && SetsOk(l.R, l.W, l.open, l.lost) && l.lost !! Own(l.c)
    && l.R * Own(l.c) <= {l.c.fd, f.srvIn, f.srvErr}
    && l.W * Own(l.c) <= {l.c.fd}
  }

  ghost predicate Inv(l: Local) {
    Sane(l.c) && Coupled(l.c) && Owned(l)
  }

  // Sets, owned and lost descriptors of one side of a step.
  ghost predicate Tidy(l: Local) {
    SetsOk(l.R, l.W, l.open, l.lost) && Own(l.c) <= l.open && l.lost !! Own(l.c)
  }

  // Nothing but the descriptors of this connection changed, and those that
  // were lost; those it gained were not open before, those it gave up are
  // closed.
  ghost predicate Frame(a: Local, b: Local) {
    && b.c.fd == a.c.fd && a.lost <= b.lost
    && (forall x :: x !in Own(a.c) && x !in Own(b.c) ==>
          (x in a.R <==> x in b.R) && (x in a.W <==> x in b.W) && (x in b.open <==> x in a.open || x in b.lost))
    && (forall x :: x in Own(b.c) && x !in Own(a.c) ==> x !in a.open)
    && (forall x :: x in Own(a.c) && x !in Own(b.c) ==> x !in b.open || x in b.lost)
    && (forall x :: x in b.lost && x !in a.lost ==> x !in a.open || x in Own(a.c))
  }

  // The connection is gone, with everything it owned.
  ghost predicate Released(a: Local, R: set<int>, W: set<int>, open: set<int>, lost: set<int>) {
    && SetsOk(R, W, open, lost) && a.lost <= lost
    && (forall x :: x !in Own(a.c) ==>
          (x in a.R <==> x in R) && (x in a.W <==> x in W) && (x in open <==> x in a.open || x in lost))
    && (forall x :: x in Own(a.c) ==> x !in open || x in lost)
    && (forall x :: x in lost && x !in a.lost ==> x !in a.open || x in Own(a.c))
  }

  lemma FrameTrans(a: Local, b: Local, c: Local)
    requires Frame(a, b) && Frame(b, c) && Tidy(a) && Tidy(b) && Tidy(c)
    ensures Frame(a, c)
  {
    LostLater(a, b, c.lost);
  }

  // A descriptor lost in the second of two steps was not open before the
  // first, or belonged to the connection then.
  lemma LostLater(a: Local, b: Local, lost: set<int>)
    requires Frame(a, b) && Tidy(a) && Tidy(b)
    requires forall x :: x in lost && x !in b.lost ==> x !in b.open || x in Own(b.c)
    ensures forall x :: x in lost && x !in a.lost ==> x !in a.open || x in Own(a.c)
  {
  }

  lemma FrameRelease(a: Local, b: Local, R: set<int>, W: set<int>, open: set<int>, lost: set<int>)
    requires Frame(a, b) && Released(b, R, W, open, lost) && Tidy(a) && Tidy(b)
    ensures Released(a, R, W, open, lost)
  {
    LostLater(a, b, lost);
  }

  // What a turn, or a part of one, must establish.
  ghost predicate GoodOutcome(a: Local, o: Outcome) {
    match o
    case Kept(b) => Inv(b) && Frame(a, b)
    case Dropped(R, W, open, lost) => Released(a, R, W, open, lost)
  }

  lemma GoodThen(a: Local, b: Local, o: Outcome)
    requires Frame(a, b) && Tidy(a) && Tidy(b)
    requires GoodOutcome(b, o)
    ensures GoodOutcome(a, o)
  {
    match o
    case Kept(c) => FrameTrans(a, b, c);
    case Dropped(R, W, open, lost) => FrameRelease(a, b, R, W, open, lost);
  }

  // ---------- callbacks ----------

  // The error callback makes a failing connection consistent again.
  lemma ConnErrOk(l: Local, d: ConnVal, status: nat)
    requires Owned(l) && Failing(l.c, d) && FdsOk(d)
    ensures Inv(ConnErr(l.(c := d), status)) && Frame(l, ConnErr(l.(c := d), status))
  {
  }

  lemma ResetOk(l: Local)
    requires Owned(l)
    ensures Owned(ResetConn(l)) && Frame(l, ResetConn(l))
  {
    var m := ResetConn(l);
    forall x | x in m.R
      ensures x in m.open
    {
      assert x in Own(l.c) ==> x in l.R * Own(l.c) || x == l.c.fd;
    }
  }

  lemma DropOk(l: Local)
    requires Owned(l)
    ensures GoodOutcome(l, DropConn(l))
  {
    ResetOk(l);
  }

  // A descriptor waits for reading only while the request is not complete.
  ghost predicate Quiet(l: Local) {
    l.c.req.phase == REQ_DONE ==> l.c.fd !in l.R
  }

  // cn_parse_req with its callback; d is the connection with new bytes.
  lemma ParsedOk(g: Grammar, l: Local, d: ConnVal)
    requires Owned(l) && InBounds(d) && Coupled(d) && d.fd == l.c.fd && d.cgi == l.c.cgi
    requires d.req.phase in {REQ_START, REQ_HEADER, REQ_BODY}
    ensures var l1 := OrErr(l, ParseReq(g, d)); Inv(l1) && Frame(l, l1)
  {
    ParseReqOk(g, d);
    var r := ParseReq(g, d);
    if r.1.Err? {
      ConnErrOk(l.(c := d), r.0, r.1.status);
    } else {
      ParsedKeepsFds(g, d);
    }
  }

  // Parsing moves the program's phase only before there are pipes.
  lemma ParsedKeepsFds(g: Grammar, d: ConnVal)
    requires FdsOk(d) && (d.req.InHeader() || d.req.phase == REQ_BODY) && d.cgi.phase !in {CGI_CGI_TO_SRV, CGI_DONE}
    requires d.req.InHeader() ==> d.cgi.phase == CGI_IDLE
    requires d.req.phase == REQ_BODY && d.req.line.kind == REQ_STATIC ==> d.cgi.phase == CGI_DISABLED
    ensures FdsOk(ParseReq(g, d).0)
  {
    if d.req.InHeader() {
      var w := d.buf.Window();
      var r := ParseBlock(g, d.req, w[..WholeLines(w)]);
      if r.1 >= 0 {
        TakeBodyKeepsFds(d.(req := r.0, buf := d.buf.(dp := d.buf.dp + r.1)));
      }
    } else {
      TakeBodyKeepsFds(d);
    }
  }

  lemma TakeBodyKeepsFds(d: ConnVal)
    ensures var e := TakeBody(d);
            && e.fd == d.fd && e.cgi.fds == d.cgi.fds
            && (e.cgi.phase == d.cgi.phase || (d.req.phase == REQ_BODY &&
                 if d.req.line.kind == REQ_STATIC then e.cgi.phase == CGI_DISABLED
                 else d.cgi.phase == CGI_IDLE && e.cgi.phase == CGI_READY))
  {
  }

  lemma NextRequestOk(g: Grammar, l: Local)
    requires Owned(l) && l.c == FreshConn(l.c.fd).(last := l.c.last)
    requires l.c.last.Sane() && l.c.last.sz > 0 && l.c.last.dp == 0
    ensures Inv(NextRequest(g, l)) && Frame(l, NextRequest(g, l)) && Quiet(NextRequest(g, l))
  {
    ParsedOk(g, l, TakeLast(l.c));
    var l1 := OrErr(l, ParseReq(g, TakeLast(l.c)));
    FrameTrans(l, l1, NextRequest(g, l));
  }

  lemma ResetOrCloseOk(g: Grammar, l: Local)
    requires Owned(l) && l.c.last.Sane() && l.c.last.sz >= 0 && l.c.last.dp == 0
    ensures GoodOutcome(l, ResetOrClose(g, l))
    ensures ResetOrClose(g, l).Kept? ==> Quiet(ResetOrClose(g, l).l)
  {
    DropOk(l);
    ResetOk(l);
    var l1 := ResetConn(l);
    if l.c.req.head.alive && l1.c.last.sz > 0 {
      NextRequestOk(g, l1);
      GoodThen(l, l1, Kept(NextRequest(g, l1)));
    }
  }

  // ---------- receiving ----------

  // What cn_recv makes of a connection, with the error callback done.
  function Received(l: Local, r: RecvOut): Local {
    if r.err > 0 then ConnErr(l.(c := r.c), r.err) else l.(c := r.c)
  }

  lemma IgnoreOk(l: Local, err: nat, input: Input)
    requires Inv(l) && (err > 0 || l.c.req.phase == REQ_ABORT)
    requires l.c.req.phase != REQ_DONE
    ensures var r := Ignore(l.c, err, input);
            Inv(Received(l, r)) && Frame(l, Received(l, r)) && r.err == err
  {
    var r := Ignore(l.c, err, input);
    if err > 0 {
      ConnErrOk(l, r.c, err);
    }
  }

  lemma FedOk(c: ConnVal, s: string)
    requires Sane(c) && Coupled(c) && c.buf.sz >= 0 && |s| <= BUFSZ - c.buf.sz
    requires c.req.phase in {REQ_START, REQ_HEADER, REQ_BODY}
    ensures InBounds(Fed(c, s)) && Coupled(Fed(c, s))
  {
  }

  lemma FreshBytesOk(g: Grammar, l: Local, s: string)
    requires Inv(l) && l.c.req.phase in {REQ_START, REQ_HEADER, REQ_BODY} && |s| <= BUFSZ - l.c.buf.sz
    ensures var l1 := OrErr(l, ParseReq(g, Fed(l.c, s))); Inv(l1) && Frame(l, l1)
    ensures ParseReq(g, Fed(l.c, s)).1.Err? ==> ParseReq(g, Fed(l.c, s)).1.status > 0
  {
    FedOk(l.c, s);
    ParseReqOk(g, Fed(l.c, s));
    ParsedOk(g, l, Fed(l.c, s));
  }

  lemma RecvOk(g: Grammar, l: Local, input: Input)
    requires Inv(l) && l.c.req.phase != REQ_DONE
    ensures var r := Recv(g, l.c, input);
            Owned(Received(l, r)) && Frame(l, Received(l, r)) && (!r.fatal ==> Inv(Received(l, r)))
  {
    if l.c.req.phase == REQ_ABORT {
      IgnoreOk(l, 0, input);
    } else if BUFSZ - l.c.buf.sz <= 0 {
      IgnoreOk(l, 400, input);
    } else if input != Failed && input.bytes != "" {
      var s := Prefix(input.bytes, BUFSZ - l.c.buf.sz);
      FreshBytesOk(g, l, s);
      assert Received(l, Recv(g, l.c, input)) == OrErr(l, ParseReq(g, Fed(l.c, s)));
    }
  }

  lemma LisoRecvOk(g: Grammar, l: Local, input: Input)
    requires Inv(l) && l.c.req.phase != REQ_DONE
    ensures GoodOutcome(l, LisoRecv(g, l, input))
  {
    RecvOk(g, l, input);
    var r := Recv(g, l.c, input);
    var l1 := Received(l, r);
    if r.fatal {
      DropOk(l1);
      GoodThen(l, l1, DropConn(l1));
    }
  }

  // ---------- transitions ----------

  // Lost descriptors were not open before.
  lemma {:induction false} LookupFresh(open: set<int>, tries: seq<Try>, n: nat)
    ensures Lookup(open, tries, n).lost !! open
    decreases n
  {
    if n > 0 && tries != [] {
      LookupFresh(open, tries[1..], n - 1);
      if tries[0].Unmapped? {
        LookupFresh(open + {tries[0].fd}, tries[1..], n - 1);
      }
    }
  }

  lemma LoseOk(l: Local, fds: set<int>)
    requires Inv(l) && fds !! l.open
    ensures Inv(Lose(l, fds)) && Frame(l, Lose(l, fds))
  {
  }

  lemma PrepareStepOk(l: Local, tries: seq<Try>, t: HdrText)
    requires Inv(l)
    ensures Inv(PrepareStep(l, tries, t)) && Frame(l, PrepareStep(l, tries, t))
  {
    if Prepares(l.c) {
      var f := Lookup(l.open, tries, N_TRIES);
      LookupFresh(l.open, tries, N_TRIES);
      LoseOk(l, f.lost);
      PreparedOk(Lose(l, f.lost), f.file, t);
      FrameTrans(l, Lose(l, f.lost), PrepareStep(l, tries, t));
    }
  }

  lemma PreparedOk(l: Local, file: Option<string>, t: HdrText)
    requires Inv(l) && Prepares(l.c)
    ensures var m := OrErr(l, Prepare(l.c, file, t)); Inv(m) && Frame(l, m)
  {
    var r := Prepare(l.c, file, t);
    if r.1.Err? {
      ConnErrOk(l, r.0, r.1.status);
    }
  }

  lemma ForkedOk(l: Local, f: PipeFds)
    requires Inv(l) && Spawns(l.c) && FreshFds(l.open, f)
    ensures Inv(SpawnedAs(l, Forked(f))) && Frame(l, SpawnedAs(l, Forked(f)))
  {
    var m := SpawnedAs(l, Forked(f));
    assert Own(m.c) == {l.c.fd, f.srvIn, f.srvOut, f.srvErr};
  }

  lemma NotForkedOk(l: Local, f: PipeFds)
    requires Inv(l) && Spawns(l.c) && FreshFds(l.open, f)
    ensures Inv(SpawnedAs(l, NotForked(f))) && Frame(l, SpawnedAs(l, NotForked(f)))
  {
    var m := SpawnedAs(l, NotForked(f));
    assert Own(m.c) == {l.c.fd, f.srvIn, f.srvOut, f.srvErr, f.cgiIn, f.cgiOut, f.cgiErr};
  }

  lemma NoPipesOk(l: Local, made: set<int>)
    requires Inv(l) && Spawns(l.c) && made !! l.open
    ensures var m := ConnErr(Lose(l, made).(c := SpawnFailed(l.c, l.c.cgi.fds)), 500); Inv(m) && Frame(l, m)
  {
    var m := ConnErr(Lose(l, made).(c := SpawnFailed(l.c, l.c.cgi.fds)), 500);
    LoseOk(l, made);
    ConnErrOk(Lose(l, made), SpawnFailed(l.c, l.c.cgi.fds), 500);
    FrameTrans(l, Lose(l, made), m);
  }

  lemma SpawnStepOk(l: Local, spawn: Spawn)
    requires Inv(l)
    ensures Inv(SpawnStep(l, spawn)) && Frame(l, SpawnStep(l, spawn))
  {
    var p := Possible(l.open, spawn);
    if Spawns(l.c) {
      assert SpawnStep(l, spawn) == SpawnedAs(l, p);
      match p
      case NoPipes(made) => NoPipesOk(l, made);
      case NotForked(f) => NotForkedOk(l, f);
      case Forked(f) => ForkedOk(l, f);
    }
  }

  // The step for an answer the kernel can give.
  function SpawnedAs(l: Local, p: Spawn): Local {
    var l1 := l.(open := Opened(l.open, p), lost := l.lost + Stray(p));
    var r := InitCgi(l.c, p);
    if r.1.Err? then ConnErr(l1.(c := r.0), r.1.status)
    else l1.(c := r.0, R := l1.R + {r.0.cgi.fds.srvErr})
  }

  lemma DoneStepOk(l: Local)
    requires Inv(l)
    ensures Inv(DoneStep(l)) && Frame(l, DoneStep(l)) && Quiet(DoneStep(l))
  {
  }

  lemma CloseBodyOk(l: Local)
    requires Inv(l) && l.c.req.phase == REQ_DONE && l.c.cgi.phase == CGI_SRV_TO_CGI && l.c.buf.dp == 0
    ensures Inv(CloseBody(l)) && Frame(l, CloseBody(l))
  {
    var m, f := CloseBody(l), l.c.cgi.fds;
    assert f.srvOut !in l.R && f.srvOut !in l.W by {
      assert f.srvOut in l.R ==> f.srvOut in l.R * Own(l.c);
      assert f.srvOut in l.W ==> f.srvOut in l.W * Own(l.c);
    }
    assert Own(m.c) == Own(l.c) - {f.srvOut};
  }

  lemma StreamStepOk(l: Local, writes: seq<int>)
    requires Inv(l)
    ensures Inv(StreamStep(l, writes)) && Frame(l, StreamStep(l, writes))
    ensures Quiet(l) ==> Quiet(StreamStep(l, writes))
  {
    var r := StreamToCgi(l.c, writes);
    if l.c.req.line.kind == REQ_DYNAMIC && l.c.cgi.phase == CGI_SRV_TO_CGI {
      if r.1.Err? {
        ConnErrOk(l, r.0, r.1.status);
      } else if l.c.req.phase == REQ_DONE {
        CloseBodyOk(l.(c := r.0));
        FrameTrans(l, l.(c := r.0), CloseBody(l.(c := r.0)));
      }
    }
  }

  lemma CloseInputOk(l: Local)
    requires InBounds(l.c) && Coupled(l.c) && l.c.cgi.phase == CGI_DONE
    requires Owned(l.(c := l.c.(cgi := l.c.cgi.(phase := CGI_CGI_TO_SRV))))
    ensures Inv(CloseInput(l)) && Frame(l, CloseInput(l))
  {
    var m, f := CloseInput(l), l.c.cgi.fds;
    assert f.srvIn !in l.W by {
      assert f.srvIn in l.W ==> f.srvIn in l.W * Own(l.c);
    }
    assert Own(m.c) == Own(l.c) - {f.srvIn};
    assert m.R * Own(m.c) <= l.R * Own(l.c);
  }

  lemma FromCgiStepOk(l: Local, rd: set<int>, input: Input)
    requires Inv(l)
    ensures Inv(FromCgiStep(l, rd, input)) && Frame(l, FromCgiStep(l, rd, input))
    ensures Quiet(l) ==> Quiet(FromCgiStep(l, rd, input))
  {
    if FromCgiStep(l, rd, input) != l {
      var r := StreamFromCgi(l.c, input);
      if r.1.Err? {
        ConnErrOk(l, r.0, r.1.status);
      } else {
        var l2 := l.(c := r.0, W := l.W + {l.c.fd});
        if r.0.cgi.phase == CGI_DONE {
          CloseInputOk(l2);
        }
      }
    }
  }

  // ---------- serving ----------

  lemma DynStepOk(g: Grammar, l: Local, wr: set<int>, n: int)
    requires Inv(l) && Quiet(l)
    ensures GoodOutcome(l, DynStep(g, l, wr, n))
    ensures DynStep(g, l, wr, n).Kept? ==> Quiet(DynStep(g, l, wr, n).l)
  {
    if l.c.req.line.kind == REQ_DYNAMIC && l.c.fd in wr && l.c.cgi.bufPhase == BUF_SEND {
      EndOk(g, l, ServeDynamic(l.c, n));
    }
  }

  lemma ServeStaticOk(c: ConnVal, n: int, t: HdrText, msg: string)
    requires Sane(c) && Coupled(c) && c.resp.phase != RESP_DISABLED
    ensures var r := ServeStatic(c, n, t, msg);
            && Sane(r.0) && Coupled(r.0) && SameFds(c, r.0) && r.0.cgi == c.cgi && r.0.last == c.last
            && !r.1.Err?
  {
  }

  lemma StatStepOk(g: Grammar, l: Local, wr: set<int>, n: int, t: HdrText, msg: string)
    requires Inv(l) && Quiet(l)
    ensures GoodOutcome(l, StatStep(g, l, wr, n, t, msg))
    ensures StatStep(g, l, wr, n, t, msg).Kept? ==> Quiet(StatStep(g, l, wr, n, t, msg).l)
  {
    if l.c.fd in wr && l.c.resp.phase != RESP_DISABLED {
      ServeStaticOk(l.c, n, t, msg);
      var r := ServeStatic(l.c, n, t, msg);
      EndOk(g, l, r);
    }
  }

  // The callback after serving, on a connection that kept its descriptors.
  lemma EndOk(g: Grammar, l: Local, r: (ConnVal, Call))
    requires Inv(l) && Sane(r.0) && Coupled(r.0) && SameFds(l.c, r.0) && r.0.cgi.phase == l.c.cgi.phase && !r.1.Err?
    ensures GoodOutcome(l, After(g, l, r))
    ensures r.1.Succ? && After(g, l, r).Kept? ==> Quiet(After(g, l, r).l)
  {
    var l1 := l.(c := r.0);
    match r.1
    case Succ => ResetOrCloseOk(g, l1); GoodThen(l, l1, ResetOrClose(g, l1));
    case Fatal => DropOk(l1); GoodThen(l, l1, DropConn(l1));
    case _ =>
  }

  // ---------- one turn ----------

  lemma TransitionsOk(l: Local, rd: set<int>, env: Env)
    requires Inv(l)
    ensures var m := Transitions(l, rd, env); Inv(m) && Frame(l, m) && Quiet(m)
  {
    var l1 := PrepareStep(l, env.tries, env.header);
    PrepareStepOk(l, env.tries, env.header);
    var l2 := SpawnStep(l1, env.spawn);
    SpawnStepOk(l1, env.spawn);
    FrameTrans(l, l1, l2);
    var l3 := DoneStep(l2);
    DoneStepOk(l2);
    FrameTrans(l, l2, l3);
    var l4 := StreamStep(l3, env.writes);
    StreamStepOk(l3, env.writes);
    FrameTrans(l, l3, l4);
    FromCgiStepOk(l4, rd, env.read);
    FrameTrans(l, l4, FromCgiStep(l4, rd, env.read));
  }

  lemma RespondOk(g: Grammar, l: Local, wr: set<int>, env: Env)
    requires Inv(l) && Quiet(l)
    ensures GoodOutcome(l, Respond(g, l, wr, env))
    ensures Respond(g, l, wr, env).Kept? ==> Quiet(Respond(g, l, wr, env).l)
  {
    DynStepOk(g, l, wr, env.dynSend);
    var o := DynStep(g, l, wr, env.dynSend);
    if o.Kept? {
      StatStepOk(g, o.l, wr, env.statSend, env.page, env.msg);
      GoodThen(l, o.l, StatStep(g, o.l, wr, env.statSend, env.page, env.msg));
    }
  }

  // One turn keeps every connection consistent, touches no descriptor of
  // another one, and leaves no descriptor of a dropped one behind.
  lemma ServeOk(g: Grammar, l: Local, rd: set<int>, wr: set<int>, env: Env)
    requires Inv(l) && (l.c.req.phase == REQ_DONE ==> l.c.fd !in rd)
    ensures GoodOutcome(l, Serve(g, l, rd, wr, env))
    ensures Serve(g, l, rd, wr, env).Kept? ==> Quiet(Serve(g, l, rd, wr, env).l)
  {
    if l.c.fd in rd {
      LisoRecvOk(g, l, env.recv);
    }
    var o := if l.c.fd in rd then LisoRecv(g, l, env.recv) else Kept(l);
    if o.Kept? {
      var m := Transitions(o.l, rd, env);
      TransitionsOk(o.l, rd, env);
      RespondOk(g, m, wr, env);
      GoodThen(o.l, m, Respond(g, m, wr, env));
      GoodThen(l, o.l, Respond(g, m, wr, env));
    }
  }
}
