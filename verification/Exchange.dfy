/** Whole answers, turn by turn: from a complete request to the client that has
    everything, however little it takes at a time. */
module Exchange {
  import opened Text
  import opened Buffers
  import opened RequestSpec
  import opened ConnSpec
  import opened ServerSpec
  import opened LoopInv
  import opened Relay
  import opened Endings

  // ---------- a file ----------

  // A request for a file, complete and not answered yet.
  ghost predicate AwaitsFile(l: Local) {
    && Inv(l) && Quiet(l) && l.c.req.phase == REQ_DONE && l.c.req.line.kind == REQ_STATIC && l.c.resp.phase == RESP_READY
    && l.c.log.sent == "" && l.c.log.fromCgi == ""
  }

  // Its answer is on the way; all of it together is the page.
  ghost predicate Promised(l: Local, page: string) {
    && Inv(l) && Quiet(l) && l.c.req.phase == REQ_DONE && l.c.req.line.kind == REQ_STATIC && l.c.req.line.verb != HEAD
    && l.c.resp.phase in {RESP_HEADER, RESP_BODY} && Answered(l.c) && l.c.log.page == page
  }

  // The turn in which a request is prepared: whatever its method, the page is
  // the header and the file that was found, and the client is waited for.
  lemma FilePrepared(g: Grammar, l: Local, env: Env, file: string)
    requires AwaitsFile(l) && l.c.req.line.verb != HEAD
    requires Lookup(l.open, env.tries, N_TRIES).file == Some(file) && file != ""
    requires |Header(|file|, env.header)| <= BUFSZ
    ensures var o := Serve(g, l, {}, {}, env);
            && o.Kept? && Promised(o.l, Header(|file|, env.header) + file) && o.l.c.log.sent == "" && o.l.c.fd in o.l.W
            && o.l.c.req == l.c.req && o.l.c.last == l.c.last
  {
    var m := PrepareStep(l, env.tries, env.header);
    PrepareStepOk(l, env.tries, env.header);
    NotFoundFails(l, env.tries, env.header);
    HeaderNotEmpty(|file|, env.header);
    DoneStepOk(m);
    OnlyPrepared(l, env);
    assert "" + m.c.buf.Window() == m.c.buf.Window();
  }

  // The other transitions leave a request for a file alone.
  lemma OnlyPrepared(l: Local, env: Env)
    requires l.c.req.line.kind == REQ_STATIC
    ensures Transitions(l, {}, env) == DoneStep(PrepareStep(l, env.tries, env.header))
  {
  }

  // What the client takes in a turn, and what comes of the connection.
  function SendTurn(g: Grammar, l: Local, env: Env): (string, Outcome) {
    (Prefix(Offered(l.c, env.page, env.msg), env.statSend), Serve(g, l, {}, {l.c.fd}, env))
  }

  // The answer is over: the connection is closed if the client asked for
  // that; else it waits for the next request, or has begun with the bytes of
  // it that came early.
  predicate Over(l: Local, o: Outcome) {
    match o
    case Dropped(_, _, _, _) => !l.c.req.head.alive
    case Kept(m) =>
      && l.c.req.head.alive && m.c.fd == l.c.fd && m.c.log.fed == l.c.last.bytes && m.c.log.sent == ""
      && (l.c.last.sz == 0 ==> m.c == FreshConn(l.c.fd).(last := l.c.last) && l.c.fd in m.R)
  }

  lemma RestartIsOver(g: Grammar, l: Local)
    requires FdsOk(l.c) && l.c.last.Sane() && l.c.last.sz >= 0
    ensures Over(l, ResetOrClose(g, l))
  {
    if l.c.last.sz != 0 {
      ParseTouches(g, TakeLast(FreshConn(l.c.fd).(last := l.c.last)));
    }
  }

  // One turn: what the client takes is the next piece of the page, and its
  // last piece ends the answer.
  lemma FileTurn(g: Grammar, l: Local, env: Env, page: string)
    requires Promised(l, page) && env.statSend > 0
    ensures var r := SendTurn(g, l, env);
            var got := l.c.log.sent + r.0;
            && r.0 != "" && got <= page
            && (got != page ==> r.1.Kept? && Promised(r.1.l, page) && r.1.l.c.log.sent == got && r.1.l.c.fd == l.c.fd
                                && r.1.l.c.req == l.c.req && r.1.l.c.last == l.c.last)
            && (got == page ==> Over(l, r.1))
  {
    var m := DoneStep(l);
    OnlyPrepared(l, env);
    DoneStepOk(l);
    var r := ServeStatic(l.c, env.statSend, env.page, env.msg);
    SendTakes(l.c, env.statSend, env.page, env.msg);
    StaticResponse(l.c, env.statSend, env.page, env.msg);
    RestartIsOver(g, m.(c := r.0));
    StatStepOk(g, m, {l.c.fd}, env.statSend, env.page, env.msg);
  }

  // A send takes the front of what is offered.
  lemma SendTakes(c: ConnVal, n: int, t: HdrText, msg: string)
    requires InBounds(c) && Answered(c) && c.req.phase == REQ_DONE && c.req.line.kind == REQ_STATIC && n > 0
    requires c.resp.phase in {RESP_HEADER, RESP_BODY}
    ensures var r := ServeStatic(c, n, t, msg);
            && r.1 != Fatal && r.0.log.sent == c.log.sent + Prefix(Offered(c, t, msg), n)
            && r.0.req == c.req && r.0.last == c.last && r.0.fd == c.fd
  {
    var w := Offered(c, t, msg);
    assert w[..|w|] == w;
    if c.resp.phase == RESP_BODY && |Mmbuf(c).Rest()| > BUFSZ {
      assert Mmbuf(c).Rest()[..BUFSZ][..Accepted(n, BUFSZ)] == Mmbuf(c).Rest()[..Accepted(n, BUFSZ)];
    }
  }

  // ---------- a whole answer ----------

  // What a client has taken in the turns that answer it, and what became of
  // the connection; the turns end with the answer.
  datatype Reply = Reply(got: string, out: Outcome, over: bool)

  function FileReply(g: Grammar, l: Local, envs: seq<Env>): Reply
    decreases |envs|
  {
    if envs == [] then Reply("", Kept(l), false)
    else
      var r := SendTurn(g, l, envs[0]);
      if r.1.Dropped? || Finishes(l.c, envs[0].statSend, envs[0].page, envs[0].msg) then Reply(r.0, r.1, true)
      else
        var rest := FileReply(g, r.1.l, envs[1..]);
        Reply(r.0 + rest.got, rest.out, rest.over)
  }

  predicate Takes(envs: seq<Env>) {
    forall i :: 0 <= i < |envs| ==> envs[i].statSend > 0
  }

  // However little the client takes in each turn, what it has is always a
  // prefix of header and file; the answer is over exactly when it has all;
  // that comes after at most as many turns as there are bytes; and then the
  // connection is closed or starts over, as the client asked.
  lemma {:induction false} FileAnswered(g: Grammar, l: Local, envs: seq<Env>, page: string)
    requires Promised(l, page) && Takes(envs)
    ensures var r := FileReply(g, l, envs);
            && l.c.log.sent + r.got <= page
            && (r.over <==> l.c.log.sent + r.got == page)
            && (|envs| >= |page| - |l.c.log.sent| ==> r.over)
            && (if r.over then Over(l, r.out) else r.out.Kept? && Promised(r.out.l, page))
    decreases |envs|
  {
    assert l.c.log.sent + "" == l.c.log.sent;
    if envs == [] {
      NotAllSent(l, page);
    } else {
      var r := SendTurn(g, l, envs[0]);
      FileTurn(g, l, envs[0], page);
      TurnFinishes(l, envs[0], page);
      if !Finishes(l.c, envs[0].statSend, envs[0].page, envs[0].msg) {
        var rest := FileReply(g, r.1.l, envs[1..]);
        FileAnswered(g, r.1.l, envs[1..], page);
        Regroup(l.c.log.sent, r.0, rest.got);
        SameEnd(l, r.1.l, rest.out);
      }
    }
  }

  // As long as the answer goes on, something of it is missing.
  lemma NotAllSent(l: Local, page: string)
    requires Promised(l, page)
    ensures l.c.log.sent <= page && l.c.log.sent != page
  {
    StaticResponse(l.c, 0, HdrText("", ""), "");
  }

  lemma TurnFinishes(l: Local, env: Env, page: string)
    requires Promised(l, page) && env.statSend > 0
    ensures Finishes(l.c, env.statSend, env.page, env.msg) <==>
              l.c.log.sent + Prefix(Offered(l.c, env.page, env.msg), env.statSend) == page
  {
    StaticResponse(l.c, env.statSend, env.page, env.msg);
    SendTakes(l.c, env.statSend, env.page, env.msg);
    SendEnds(l.c, env.statSend, env.page, env.msg);
  }

  lemma SameEnd(l: Local, m: Local, o: Outcome)
    requires m.c.fd == l.c.fd && m.c.req == l.c.req && m.c.last == l.c.last
    ensures Over(m, o) <==> Over(l, o)
  {
  }

  // ---------- a program ----------

  // A program has the whole body and is listened to.
  ghost predicate AwaitsOutput(l: Local) {
    && Inv(l) && Quiet(l) && l.c.req.phase == REQ_DONE && l.c.req.line.kind == REQ_DYNAMIC
    && l.c.cgi.phase == CGI_CGI_TO_SRV && l.c.cgi.bufPhase == BUF_RECV
  }

  // Its output waits for the client.
  ghost predicate HasOutput(l: Local) {
    && Inv(l) && Quiet(l) && l.c.req.phase == REQ_DONE && l.c.req.line.kind == REQ_DYNAMIC && l.c.cgi.bufPhase == BUF_SEND
  }

  // The program can be read, and then the client written; both take turns.
  function ReadTurn(g: Grammar, l: Local, s: string): Outcome {
    Serve(g, l, {l.c.cgi.fds.srvIn}, {}, Idle.(read := Got(s)))
  }

  function RelayTurn(g: Grammar, l: Local): Outcome {
    Serve(g, l, {}, {l.c.fd}, Idle.(dynSend := BUFSZ))
  }

  lemma OnlyRead(l: Local, rd: set<int>, env: Env)
    requires l.c.req.line.kind == REQ_DYNAMIC && l.c.cgi.phase in {CGI_CGI_TO_SRV, CGI_DONE}
    ensures Transitions(l, rd, env) == FromCgiStep(DoneStep(l), rd, env.read)
  {
  }

  lemma OutputRead(g: Grammar, l: Local, s: string)
    requires AwaitsOutput(l) && |s| <= BUFSZ
    ensures var o := ReadTurn(g, l, s);
            && o.Kept? && HasOutput(o.l) && o.l.c.buf.Window() == s && (o.l.c.cgi.phase == CGI_DONE <==> s == "")
            && o.l.c.fd == l.c.fd && o.l.c.req == l.c.req && o.l.c.last == l.c.last && o.l.c.resp == l.c.resp
  {
    var rd, env := {l.c.cgi.fds.srvIn}, Idle.(read := Got(s));
    OnlyRead(l, rd, env);
    DoneStepOk(l);
    assert DoneStep(l).c == l.c && Prefix(s, BUFSZ) == s;
    FromCgiStepOk(DoneStep(l), rd, Got(s));
    ReadFails(DoneStep(l), rd, Got(s));
  }

  // With no next request there yet, which would be served in the same turn.
  predicate OverAlone(l: Local, o: Outcome) {
    !l.c.req.head.alive || l.c.last.sz == 0 ==> Over(l, o)
  }

  lemma OutputSent(g: Grammar, l: Local)
    requires HasOutput(l)
    ensures var o := RelayTurn(g, l);
            if l.c.cgi.phase == CGI_DONE then OverAlone(l, o)
            else
              && o.Kept? && AwaitsOutput(o.l) && o.l.c.fd == l.c.fd && o.l.c.req == l.c.req && o.l.c.last == l.c.last
              && o.l.c.log.sent == l.c.log.sent + l.c.buf.Window()
  {
    var m, env := DoneStep(l), Idle.(dynSend := BUFSZ);
    OnlyRead(l, {}, env);
    DoneStepOk(l);
    assert m.c == l.c;
    OutputStep(g, m);
    DynStepOk(g, m, {l.c.fd}, BUFSZ);
    NoPage(g, DynStep(g, m, {l.c.fd}, BUFSZ), {l.c.fd}, env);
  }

  // A request without a page to send is left alone.
  lemma NoPage(g: Grammar, o: Outcome, wr: set<int>, env: Env)
    ensures o.Kept? && o.l.c.resp.phase in {RESP_READY, RESP_DISABLED} ==>
              StatStep(g, o.l, wr, env.statSend, env.page, env.msg) == o
  {
  }

  lemma OutputStep(g: Grammar, l: Local)
    requires HasOutput(l)
    ensures var o := DynStep(g, l, {l.c.fd}, BUFSZ);
            if l.c.cgi.phase == CGI_DONE then Over(l, o)
            else
              && o.Kept? && o.l.c == l.c.(log := o.l.c.log, cgi := l.c.cgi.(bufPhase := BUF_RECV))
              && o.l.c.log.sent == l.c.log.sent + l.c.buf.Window()
  {
    var w := l.c.buf.Window();
    assert w[..|w|] == w;
    RestartIsOver(g, l);
  }

  // A program writes these pieces and ends.
  function ProgramReply(g: Grammar, l: Local, pieces: seq<string>): Reply
    decreases |pieces|
  {
    var s := if pieces == [] then "" else pieces[0];
    match ReadTurn(g, l, s)
    case Dropped(R, W, open, lost) => Reply("", Dropped(R, W, open, lost), true)
    case Kept(m) =>
      var o := RelayTurn(g, m);
      if pieces == [] then Reply("", o, true)
      else if o.Dropped? then Reply(m.c.buf.Window(), o, true)
      else
        var rest := ProgramReply(g, o.l, pieces[1..]);
        Reply(m.c.buf.Window() + rest.got, rest.out, rest.over)
  }

  function Concat(pieces: seq<string>): string {
    if pieces == [] then "" else pieces[0] + Concat(pieces[1..])
  }

  predicate Pieces(pieces: seq<string>) {
    forall i :: 0 <= i < |pieces| ==> 0 < |pieces[i]| <= BUFSZ
  }

  // Whatever a program writes, in whatever pieces, the client gets exactly
  // that, if it takes what it is offered; then the connection is closed or
  // starts over, as the client asked.
  lemma {:induction false} ProgramAnswered(g: Grammar, l: Local, pieces: seq<string>)
    requires AwaitsOutput(l) && Pieces(pieces)
    ensures var r := ProgramReply(g, l, pieces); r.over && r.got == Concat(pieces) && OverAlone(l, r.out)
    decreases |pieces|
  {
    var s := if pieces == [] then "" else pieces[0];
    OutputRead(g, l, s);
    var m := ReadTurn(g, l, s).l;
    OutputSent(g, m);
    SameEnd(l, m, RelayTurn(g, m));
    if pieces != [] {
      var k := RelayTurn(g, m).l;
      ProgramAnswered(g, k, pieces[1..]);
      SameEnd(l, k, ProgramReply(g, k, pieces[1..]).out);
    }
  }
}
