/** How a connection ends: exactly when a turn drops it, and with which status
    a request fails. */
module Endings {
  import opened Text
  import opened Buffers
  import opened RequestSpec
  import opened ConnSpec
  import opened ServerSpec
  import opened LoopInv
  import opened Watch

  // ---------- a client that goes away ----------

  // A receive drops the connection exactly at end of file or an error,
  // whatever the request is at.
  lemma RecvDrops(g: Grammar, l: Local, input: Input)
    requires Inv(l) && l.c.req.phase != REQ_DONE
    ensures LisoRecv(g, l, input).Dropped? <==> input == Failed || input == Got("")
  {
  }

  // A client that hung up is dropped in the turn that hears of it.
  lemma HangupDrops(g: Grammar, l: Local, rd: set<int>, wr: set<int>, env: Env)
    requires Inv(l) && l.c.req.phase != REQ_DONE && l.c.fd in rd
    requires env.recv == Failed || env.recv == Got("")
    ensures Serve(g, l, rd, wr, env).Dropped?
  {
    RecvDrops(g, l, env.recv);
  }

  // ---------- a client that is answered ----------

  // The success callback closes the connection exactly if the client asked
  // for that.
  lemma SuccessCloses(g: Grammar, l: Local, r: (ConnVal, Call))
    requires r.1 == Succ
    ensures After(g, l, r).Dropped? <==> !r.0.req.head.alive
  {
  }

  predicate Relays(l: Local, wr: set<int>) {
    l.c.req.line.kind == REQ_DYNAMIC && l.c.fd in wr && l.c.cgi.bufPhase == BUF_SEND
  }

  // A program's answer: the client is dropped if it takes nothing of what is
  // left, or if nothing is left and it asked to be closed.
  lemma DynDrops(g: Grammar, l: Local, wr: set<int>, n: int)
    requires Inv(l)
    ensures DynStep(g, l, wr, n).Dropped? <==>
              Relays(l, wr) && if l.c.buf.Window() == "" then !l.c.req.head.alive else n <= 0
    ensures Relays(l, wr) ==> (l.c.buf.Window() == "" <==> l.c.cgi.phase == CGI_DONE)
  {
  }

  predicate Answers(l: Local, wr: set<int>) {
    l.c.fd in wr && l.c.resp.phase in {RESP_HEADER, RESP_BODY, RESP_ABORT}
  }

  // What a send of n bytes offers: the rest of the header, a piece of the
  // file, or the error page.
  function Offered(c: ConnVal, t: HdrText, msg: string): string {
    match c.resp.phase
    case RESP_HEADER => c.buf.Window()
    case RESP_BODY => Prefix(Mmbuf(c).Rest(), BUFSZ)
    case _ => ErrorPage(t, msg)
  }

  // Nothing is left to send when the client has taken n bytes.  HEAD is over
  // after any send.
  predicate Finishes(c: ConnVal, n: int, t: HdrText, msg: string) {
    match c.resp.phase
    case RESP_HEADER => c.req.line.verb == HEAD || Mmbuf(c).Rest() == ""
    case RESP_BODY => n >= |Mmbuf(c).Rest()| && |Mmbuf(c).Rest()| <= BUFSZ
    case _ => n >= |ErrorPage(t, msg)|
  }

  // A file or an error page: the client is dropped if it takes nothing, or
  // has all and asked to be closed.
  lemma StatDrops(g: Grammar, l: Local, wr: set<int>, n: int, t: HdrText, msg: string)
    requires Inv(l)
    ensures StatStep(g, l, wr, n, t, msg).Dropped? <==>
              && Answers(l, wr)
              && (n <= 0 || Offered(l.c, t, msg) == "" || (Finishes(l.c, n, t, msg) && !l.c.req.head.alive))
  {
    if Answers(l, wr) {
      SendEnds(l.c, n, t, msg);
    }
  }

  lemma SendEnds(c: ConnVal, n: int, t: HdrText, msg: string)
    requires InBounds(c) && c.resp.phase in {RESP_HEADER, RESP_BODY, RESP_ABORT}
    ensures var r := ServeStatic(c, n, t, msg);
            && r.0.req == c.req
            && r.1 == (if n <= 0 || Offered(c, t, msg) == "" then Fatal else if Finishes(c, n, t, msg) then Succ else NoCall)
  {
    if c.resp.phase == RESP_BODY {
      var w := Mmbuf(c).Rest();
      assert |Prefix(w, BUFSZ)| == if BUFSZ < |w| then BUFSZ else |w|;
    }
  }

  // ---------- one turn ----------

  predicate HangsUp(l: Local, rd: set<int>, env: Env) {
    l.c.fd in rd && (env.recv == Failed || env.recv == Got(""))
  }

  // Serving the client ends the connection.
  predicate Leaves(l: Local, m: Local, wr: set<int>, env: Env) {
    || (Relays(l, wr) && if l.c.buf.Window() == "" then !l.c.req.head.alive else env.dynSend <= 0)
    || (Answers(m, wr)
        && (env.statSend <= 0 || Offered(m.c, env.page, env.msg) == ""
            || (Finishes(m.c, env.statSend, env.page, env.msg) && !m.c.req.head.alive)))
  }

  lemma RespondDrops(g: Grammar, l: Local, wr: set<int>, env: Env)
    requires Inv(l) && Quiet(l)
    ensures var o := DynStep(g, l, wr, env.dynSend);
            Respond(g, l, wr, env).Dropped? <==> Leaves(l, if o.Kept? then o.l else l, wr, env)
  {
    DynStepOk(g, l, wr, env.dynSend);
    DynDrops(g, l, wr, env.dynSend);
    var o := DynStep(g, l, wr, env.dynSend);
    if o.Kept? {
      StatDrops(g, o.l, wr, env.statSend, env.page, env.msg);
    }
  }

  // A turn drops its connection exactly if the client hung up, or serving it
  // ends the connection.
  lemma TurnDrops(g: Grammar, l: Local, rd: set<int>, wr: set<int>, env: Env)
    requires Inv(l) && (l.c.req.phase == REQ_DONE ==> l.c.fd !in rd)
    ensures Serve(g, l, rd, wr, env).Dropped? <==>
              || HangsUp(l, rd, env)
              || var m := BeforeServing(g, l, rd, env).value;
                 var o := DynStep(g, m, wr, env.dynSend);
                 Leaves(m, if o.Kept? then o.l else m, wr, env)
  {
    if l.c.fd in rd {
      RecvDrops(g, l, env.recv);
      LisoRecvOk(g, l, env.recv);
    }
    if !HangsUp(l, rd, env) {
      var l1 := (if l.c.fd in rd then LisoRecv(g, l, env.recv) else Kept(l)).l;
      TransitionsOk(l1, rd, env);
      RespondDrops(g, Transitions(l1, rd, env), wr, env);
    }
  }

  // ---------- a request that fails ----------

  // A request has failed with a status, and the client will be told.
  predicate FailedWith(l: Local, status: nat) {
    l.c.req.phase == REQ_ABORT && l.c.resp.phase == RESP_ABORT && l.c.resp.status == status && l.c.fd in l.W
  }

  // A receive into a full buffer is 400, whatever comes.
  lemma TooLargeFails(g: Grammar, l: Local, input: Input)
    requires Inv(l) && l.c.req.phase in {REQ_START, REQ_HEADER, REQ_BODY} && l.c.buf.sz == BUFSZ
    ensures LisoRecv(g, l, input).Kept? ==> FailedWith(LisoRecv(g, l, input).l, 400)
  {
  }

  // Bytes for a request that failed are thrown away: nothing of it changes
  // but the buffer's contents.
  lemma FailedIgnores(g: Grammar, l: Local, input: Input)
    requires Inv(l) && l.c.req.phase == REQ_ABORT && input.Got? && input.bytes != ""
    ensures var o := LisoRecv(g, l, input);
            o.Kept? && o.l == l.(c := l.c.(buf := o.l.c.buf)) && o.l.c.buf.sz == l.c.buf.sz
  {
  }

  // A file that is not found is 404.  One that is found has its header ready,
  // with its length and with what the client said about keeping the
  // connection; an empty one fails with the status of a success.
  lemma NotFoundFails(l: Local, tries: seq<Try>, t: HdrText)
    requires Inv(l) && Prepares(l.c)
    ensures var file, m := Lookup(l.open, tries, N_TRIES).file, PrepareStep(l, tries, t);
            && (file == None ==> FailedWith(m, 404))
            && (file.Some? && file.value != "" ==>
                  && m.c.req == l.c.req && m.c.resp.phase == RESP_HEADER && Mmbuf(m.c) == Mapped(file.value, 0)
                  && m.c.resp.clen == |file.value| && m.c.resp.status == l.c.resp.status
                  && m.c.buf.Window() == Prefix(Header(|file.value|, t), BUFSZ))
            && (file == Some("") ==> FailedWith(m, l.c.resp.status))
            && m.c.resp.alive == l.c.req.head.alive
  {
  }

  // A program that cannot be started is 500; one that can gets its pipes.
  lemma SpawnFails(l: Local, spawn: Spawn)
    requires Inv(l) && Spawns(l.c)
    ensures var p, m := Possible(l.open, spawn), SpawnStep(l, spawn);
            if p.Forked? then m.c.req == l.c.req && m.c.cgi.phase == CGI_SRV_TO_CGI && m.c.cgi.fds.srvErr in m.R
            else FailedWith(m, 500)
  {
  }

  // Pipes that were made for a program that is not started stay open, all six
  // of them recorded; a reset closes them.
  lemma PipesRecorded(l: Local, spawn: Spawn)
    requires Inv(l) && Spawns(l.c) && !spawn.NoPipes? && FreshFds(l.open, spawn.fds)
    ensures var m, f := SpawnStep(l, spawn), spawn.fds;
            var six: set<int> := {f.cgiIn, f.srvOut, f.srvIn, f.cgiOut, f.srvErr, f.cgiErr};
            var started := spawn.Forked? && f.srvIn < FD_SETSIZE && f.srvErr < FD_SETSIZE;
            && (m.c.cgi.phase == CGI_SRV_TO_CGI <==> started)
            && (!started ==> Own(m.c) == six + {l.c.fd as int} && m.open == l.open + six)
            && (started ==> Own(m.c) == {l.c.fd as int, f.srvIn, f.srvOut, f.srvErr} && m.open == l.open + {f.srvIn, f.srvOut, f.srvErr})
            && six !! ResetConn(m).open
  {
    var m := SpawnStep(l, spawn);
    SpawnStepOk(l, spawn);
  }

  // A write to the program that fails is 500, even behind others that did
  // not.
  lemma {:induction false} DeliverFails(w: string, left: nat, writes: seq<int>)
    requires left <= |w|
    ensures Deliver(w, left, writes).1 <==> exists n :: 0 <= n <= |writes| && Takes(writes[..n], left)
    decreases left
  {
    if left == 0 {
      assert Takes(writes[..0], left);
    } else if writes != [] && writes[0] > 0 {
      var k := Accepted(writes[0], left);
      DeliverFails(w, left - k, writes[1..]);
      if n :| 0 <= n <= |writes[1..]| && Takes(writes[1..][..n], left - k) {
        assert writes[..n + 1][1..] == writes[1..][..n];
        assert Takes(writes[..n + 1], left);
      }
      if n :| 0 <= n <= |writes| && Takes(writes[..n], left) {
        assert writes[..n][1..] == writes[1..][..n - 1];
      }
    }
  }

  // Writes that take all of `left` bytes between them, none of them failing.
  predicate Takes(writes: seq<int>, left: int)
    decreases |writes|
  {
    if left <= 0 then writes == [] else writes != [] && writes[0] > 0 && Takes(writes[1..], left - writes[0])
  }

  lemma StreamFails(l: Local, writes: seq<int>)
    requires Inv(l) && l.c.req.line.kind == REQ_DYNAMIC && l.c.cgi.phase == CGI_SRV_TO_CGI
    ensures var m, left := StreamStep(l, writes), |l.c.buf.Window()|;
            if exists n :: 0 <= n <= |writes| && Takes(writes[..n], left) then m.c.req == l.c.req && m.c.buf == EmptyBuf
            else FailedWith(m, 500)
  {
    DeliverFails(l.c.buf.Window(), |l.c.buf.Window()|, writes);
  }

  predicate Reads(l: Local, rd: set<int>) {
    l.c.req.line.kind == REQ_DYNAMIC && l.c.cgi.phase == CGI_CGI_TO_SRV && l.c.cgi.bufPhase == BUF_RECV
    && l.c.cgi.fds.srvIn in rd
  }

  // A program whose output cannot be read is 500; else what it wrote is ready
  // for the client, or its end is known.
  lemma ReadFails(l: Local, rd: set<int>, input: Input)
    requires Inv(l) && Reads(l, rd)
    ensures var m := FromCgiStep(l, rd, input);
            if input == Failed then FailedWith(m, 500)
            else
              && m.c.req == l.c.req && m.c.cgi.bufPhase == BUF_SEND && l.c.fd in m.W
              && m.c.buf.Window() == Prefix(input.bytes, BUFSZ)
              && (m.c.cgi.phase == CGI_DONE <==> input.bytes == "")
              && (input.bytes == "" ==> l.c.cgi.fds.srvIn !in m.R && l.c.cgi.fds.srvIn !in m.open)
  {
  }

  // Nothing is read that select has not reported.
  lemma OnlyReads(l: Local, rd: set<int>, input: Input)
    requires Inv(l) && !Reads(l, rd)
    ensures FromCgiStep(l, rd, input) == l
  {
  }
}
