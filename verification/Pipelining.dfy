/** Keep-alive requests sent back to back come out one by one: none is lost,
    none is duplicated, and at every moment every byte is accounted for. */
module Pipelining {
  import opened Text
  import opened Buffers
  import opened RequestSpec
  import opened ConnSpec
  import opened ConnInv
  import opened ServerSpec
  import opened Chunking

  // liso_reset_or_close on a connection that stays alive, as far as the
  // connection itself goes.
  function Restart(g: Grammar, c: ConnVal): ConnVal {
    if c.last.sz == 0 then FreshConn(c.fd).(last := c.last)
    else
      var r := ParseReq(g, TakeLast(FreshConn(c.fd).(last := c.last)));
      Rejected(r.0, if r.1.Err? then r.1.status else 0)
  }

  lemma RestartIsReset(g: Grammar, l: Local)
    requires l.c.req.head.alive && InBounds(l.c)
    ensures ResetOrClose(g, l).Kept? && ResetOrClose(g, l).l.c == Restart(g, l.c)
  {
    if l.c.last.sz != 0 {
      ParseReqOk(g, TakeLast(FreshConn(l.c.fd).(last := l.c.last)));
    }
  }

  // Draining is cn_stream_to_cgi with one write that takes everything.
  lemma DrainedIsStream(c: ConnVal)
    requires c.req.line.kind == REQ_DYNAMIC && (c.req.phase == REQ_BODY || c.req.phase == REQ_DONE)
    ensures StreamToCgi(c, [|c.buf.Window()|]) == (Drained(c), NoCall)
  {
    var w := c.buf.Window();
    assert c.log.toCgi + "" == c.log.toCgi;
    if w != "" {
      assert [|w|][1..] == [] && w[..|w|] + "" == w;
      assert Deliver(w, |w|, [|w|]) == (w, true);
    }
  }

  // ---------- a session ----------

  // The client's bytes arrive, or the server has answered and starts over.
  datatype Move = Chunk(bytes: string) | Next

  datatype Finished = Finished(line: ReqLine, head: ReqHead, bytes: string)

  datatype Session = Session(c: ConnVal, fed: string, done: seq<Finished>)

  function Play(g: Grammar, s: Session, m: Move): Session {
    match m
    case Chunk(t) =>
      if s.c.req.phase == REQ_DONE then s else Session(Receive(g, s.c, t), s.fed + t, s.done)
    case Next =>
      if s.c.req.phase != REQ_DONE then s
      else Session(Restart(g, s.c), s.fed, s.done + [Finished(s.c.req.line, s.c.req.head, TakenBytes(s.c))])
  }

  // The bytes of the current request, without those that came early.
  function TakenBytes(c: ConnVal): string {
    Prefix(c.log.fed, |c.log.fed| - |c.last.bytes|)
  }

  function PlayAll(g: Grammar, s: Session, moves: seq<Move>): Session
    decreases |moves|
  {
    if moves == [] then s else Play(g, PlayAll(g, s, moves[..|moves| - 1]), moves[|moves| - 1])
  }

  ghost predicate Playable(g: Grammar, s: Session, moves: seq<Move>)
    decreases |moves|
  {
    moves != [] ==>
      var m, t := moves[|moves| - 1], PlayAll(g, s, moves[..|moves| - 1]);
      && Playable(g, s, moves[..|moves| - 1])
      && (m.Chunk? && t.c.req.phase != REQ_DONE ==> 0 < |m.bytes| <= Room(t.c))
  }

  function Start(fd: nat): Session {
    Session(FreshConn(fd), "", [])
  }

  // ---------- well-formed keep-alive static requests ----------

  ghost predicate Whole(g: Grammar, r: string) {
    var o := OneShot(g, r);
    && o.0.phase == REQ_BODY && o.1 <= BUFSZ && |r| == o.1 + o.0.head.clen
    && o.0.line.kind == REQ_STATIC && o.0.head.alive
  }

  function AsFinished(g: Grammar, r: string): Finished {
    var o := OneShot(g, r);
    Finished(o.0.line, o.0.head, r)
  }

  // A whole request at the front of a stream decides the verdict.
  lemma WholeDecides(g: Grammar, r: string, rest: string)
    requires Whole(g, r)
    ensures OneShot(g, Prefix(r + rest, BUFSZ)) == OneShot(g, r) && 0 < OneShot(g, r).1 <= |r|
  {
    HeadAlone(g, Blank, r);
    var end := OneShot(g, r).1;
    var h := r[..end];
    assert h[..WholeLines(h)] == h;
    assert OneShot(g, h) == OneShot(g, r);
    assert Prefix(h, BUFSZ) == h;
    assert r + rest == h + (r[end..] + rest);
    VerdictStable(g, h, r[end..] + rest);
  }

  // Nor can anything else come of a part of the stream: it is not rejected,
  // and once r is there the request is complete.
  lemma PartOfStream(g: Grammar, c: ConnVal, x: string, r: string, rest: string)
    requires Whole(g, r) && Canon(g, c, x) && x <= r + rest
    ensures c.req.phase != REQ_ABORT && c.log.fed == x
    ensures |x| >= |r| ==> c.req.phase == REQ_DONE
    ensures c.req.phase == REQ_DONE ==>
              && |x| >= |r| && x == r + c.last.bytes && TakenBytes(c) == r
              && c.req.line == OneShot(g, r).0.line && c.req.head == OneShot(g, r).0.head
              && c.last == Filled(c.last.bytes) && |c.last.bytes| <= BUFSZ
    ensures c.req.phase != REQ_DONE ==> c.last == EmptyBuf
  {
    var o := OneShot(g, Prefix(x, BUFSZ));
    PartVerdict(g, x, r, rest);
    if o == OneShot(g, r) {
      var w := OneShot(g, r);
      BodyOfPart(c, x, r, rest, w.0, w.1);
    }
  }

  // What one-shot parsing says of a part of the stream.
  lemma PartVerdict(g: Grammar, x: string, r: string, rest: string)
    requires Whole(g, r) && x <= r + rest
    ensures var o := OneShot(g, Prefix(x, BUFSZ));
            o == OneShot(g, r) || (o.1 >= 0 && o.0.InHeader() && |x| < BUFSZ && |x| < |r|)
  {
    WholeDecides(g, r, rest);
    var y := (r + rest)[|x|..];
    assert r + rest == x + y;
    var o := OneShot(g, Prefix(x, BUFSZ));
    if o.1 < 0 || o.0.phase == REQ_BODY || |x| >= BUFSZ {
      VerdictStable(g, x, y);
    } else {
      HeaderNotThere(g, x, r, rest);
    }
  }

  lemma BodyOfPart(c: ConnVal, x: string, r: string, rest: string, v: ReqVal, end: int)
    requires InBodyOf(c, x, v, end) && x <= r + rest && 0 <= v.head.clen && end + v.head.clen == |r|
    ensures |x| >= |r| <==> c.req.phase == REQ_DONE
    ensures c.req.phase == REQ_DONE ==>
              && x == r + c.last.bytes && TakenBytes(c) == r && c.req.line == v.line && c.req.head == v.head
              && c.last == Filled(c.last.bytes) && |c.last.bytes| <= BUFSZ
    ensures c.req.phase != REQ_DONE ==> c.last == EmptyBuf
  {
    if |x| >= |r| {
      assert x[..|r|] == r;
      assert |x| > |r| ==> Suffix(x, |x| - |r|) == x[|r|..];
    }
  }

  // A stream whose header is still open is shorter than the request.
  lemma HeaderNotThere(g: Grammar, x: string, r: string, rest: string)
    requires Whole(g, r) && |x| < BUFSZ && x <= r + rest && OneShot(g, x).0.phase != REQ_BODY && OneShot(g, x).1 >= 0
    ensures |x| < |r|
  {
    if |x| >= |r| {
      assert x == r + x[|r|..];
      OneShotStable(g, r, x[|r|..]);
    }
  }

  // Starting over with bytes that came early is receiving them.
  lemma RestartReceives(g: Grammar, c: ConnVal)
    requires c.last == Filled(c.last.bytes) && 0 < |c.last.bytes| <= BUFSZ
    requires var d := Receive(g, FreshConn(c.fd), c.last.bytes);
             d.req.line.kind == REQ_STATIC || d.req.phase !in {REQ_BODY, REQ_DONE}
    ensures Restart(g, c) == Receive(g, FreshConn(c.fd), c.last.bytes)
  {
    var t := c.last.bytes;
    assert Prefix(t, BUFSZ) == t && "" + t == t;
    assert TakeLast(FreshConn(c.fd).(last := c.last)) == Fed(FreshConn(c.fd), t);
  }

  // Part of a static request is never taken for a dynamic one.
  lemma StaysStatic(g: Grammar, d: ConnVal, x: string, r: string, rest: string)
    requires Whole(g, r) && Canon(g, d, x) && x <= r + rest && d.req.phase in {REQ_BODY, REQ_DONE}
    ensures d.req.line.kind == REQ_STATIC
  {
    WholeDecides(g, r, rest);
    assert r + rest == x + (r + rest)[|x|..];
    VerdictStable(g, x, (r + rest)[|x|..]);
  }

  lemma RestartCanon(g: Grammar, c: ConnVal, r: string, rest: string)
    requires c.last == Filled(c.last.bytes) && |c.last.bytes| <= BUFSZ
    requires c.last.bytes != "" ==> Whole(g, r) && c.last.bytes <= r + rest
    ensures Canon(g, Restart(g, c), c.last.bytes)
  {
    var t := c.last.bytes;
    FreshIsCanon(g, c.fd);
    if t != "" {
      var d := Receive(g, FreshConn(c.fd), t);
      ReceiveCanon(g, FreshConn(c.fd), "", t);
      assert "" + t == t;
      if d.req.phase in {REQ_BODY, REQ_DONE} {
        StaysStatic(g, d, t, r, rest);
      }
      RestartReceives(g, c);
    }
  }

  // ---------- the theorem ----------

  lemma {:induction false} ConcatSplit(rs: seq<string>, k: nat)
    requires k <= |rs|
    ensures Concat(rs) == Concat(rs[..k]) + Concat(rs[k..])
  {
    if k == 0 {
      assert rs[0..] == rs;
    } else {
      ConcatSplit(rs[1..], k - 1);
      assert rs[..k][1..] == rs[1..][..k - 1];
      assert rs[k..] == rs[1..][k - 1..];
    }
  }

  function Expected(g: Grammar, rs: seq<string>): seq<Finished> {
    seq(|rs|, i requires 0 <= i < |rs| => AsFinished(g, rs[i]))
  }

  // The finished requests are the first ones of the stream, and x are the
  // bytes fed behind them.
  ghost predicate Books(done: seq<Finished>, fed: string, rs: seq<string>, all: seq<Finished>, x: string) {
    |all| == |rs| && done <= all && fed == Concat(rs[..|done|]) + x
  }

  ghost predicate PipeInv(g: Grammar, s: Session, rs: seq<string>, x: string) {
    Books(s.done, s.fed, rs, Expected(g, rs), x) && Canon(g, s.c, x)
  }

  ghost predicate AllWhole(g: Grammar, rs: seq<string>) {
    forall i :: 0 <= i < |rs| ==> Whole(g, rs[i])
  }

  lemma ChunkKeeps(g: Grammar, s: Session, rs: seq<string>, x: string, t: string)
    requires PipeInv(g, s, rs, x) && s.c.req.phase != REQ_DONE && 0 < |t| <= Room(s.c)
    ensures PipeInv(g, Play(g, s, Chunk(t)), rs, x + t)
  {
    ReceiveCanon(g, s.c, x, t);
    Regroup(Concat(rs[..|s.done|]), x, t);
  }

  // The stream behind the finished requests.
  lemma RestOfStream(done: seq<Finished>, fed: string, rs: seq<string>, all: seq<Finished>, x: string)
    requires Books(done, fed, rs, all, x) && fed <= Concat(rs)
    ensures x <= Concat(rs[|done|..]) && (fed == Concat(rs) ==> x == Concat(rs[|done|..]))
  {
    var k := |done|;
    ConcatSplit(rs, k);
    var a := Concat(rs[..k]);
    assert x == fed[|a|..] && Concat(rs[k..]) == Concat(rs)[|a|..];
  }

  lemma BooksNext(done: seq<Finished>, fed: string, rs: seq<string>, all: seq<Finished>, x: string, y: string)
    requires Books(done, fed, rs, all, x) && |done| < |rs| && x == rs[|done|] + y
    ensures Books(done + [all[|done|]], fed, rs, all, y)
  {
    OneMore(rs, |done|, y);
  }

  // Nothing can be complete when nothing came.
  lemma SomethingCame(g: Grammar, c: ConnVal, x: string)
    requires Canon(g, c, x) && c.req.phase == REQ_DONE
    ensures x != ""
  {
    assert Prefix("", BUFSZ) == "";
  }

  // The stream up to and with the next request.
  lemma OneMore(rs: seq<string>, k: nat, y: string)
    requires k < |rs|
    ensures Concat(rs[..k]) + (rs[k] + y) == Concat(rs[..k + 1]) + y
    ensures Concat(rs[k..]) == rs[k] + Concat(rs[k + 1..])
  {
    assert rs[..k + 1] == rs[..k] + [rs[k]];
    ConcatSnoc(rs[..k], rs[k]);
    Regroup(Concat(rs[..k]), rs[k], y);
    assert rs[k..][1..] == rs[k + 1..];
  }

  // A complete request is the first of those that are left.
  lemma FinishFirst(g: Grammar, c: ConnVal, x: string, left: seq<string>)
    requires AllWhole(g, left) && Canon(g, c, x) && x <= Concat(left) && c.req.phase == REQ_DONE
    ensures left != [] && x == left[0] + c.last.bytes
    ensures Finished(c.req.line, c.req.head, TakenBytes(c)) == AsFinished(g, left[0])
    ensures Canon(g, Restart(g, c), c.last.bytes)
  {
    SomethingCame(g, c, x);
    PartOfStream(g, c, x, left[0], Concat(left[1..]));
    CutFront(left[0], c.last.bytes, Concat(left[1..]));
    RestartNext(g, c, left[1..]);
  }

  lemma NextKeeps(g: Grammar, s: Session, rs: seq<string>, x: string)
    requires PipeInv(g, s, rs, x) && AllWhole(g, rs) && s.fed <= Concat(rs) && s.c.req.phase == REQ_DONE
    ensures PipeInv(g, Play(g, s, Next), rs, s.c.last.bytes)
  {
    var k := |s.done|;
    RestOfStream(s.done, s.fed, rs, Expected(g, rs), x);
    FinishFirst(g, s.c, x, rs[k..]);
    BooksNext(s.done, s.fed, rs, Expected(g, rs), x, s.c.last.bytes);
    PlayedNext(g, s, Expected(g, rs)[k]);
  }

  lemma PlayedNext(g: Grammar, s: Session, f: Finished)
    requires s.c.req.phase == REQ_DONE && Finished(s.c.req.line, s.c.req.head, TakenBytes(s.c)) == f
    ensures var t := Play(g, s, Next); t.done == s.done + [f] && t.fed == s.fed && t.c == Restart(g, s.c)
  {
  }

  lemma CutFront(r: string, y: string, rest: string)
    requires r + y <= r + rest
    ensures y <= rest
  {
    assert y == (r + y)[|r|..] && rest == (r + rest)[|r|..];
  }

  lemma {:induction false} ConcatSnoc(rs: seq<string>, r: string)
    ensures Concat(rs + [r]) == Concat(rs) + r
  {
    if rs == [] {
      assert rs + [r] == [r] && Concat([r]) == r + Concat([]);
    } else {
      assert (rs + [r])[1..] == rs[1..] + [r];
      ConcatSnoc(rs[1..], r);
    }
  }

  lemma RestartNext(g: Grammar, c: ConnVal, rs: seq<string>)
    requires AllWhole(g, rs) && c.last == Filled(c.last.bytes) && |c.last.bytes| <= BUFSZ && c.last.bytes <= Concat(rs)
    ensures Canon(g, Restart(g, c), c.last.bytes)
  {
    if rs == [] {
      RestartCanon(g, c, "", "");
    } else {
      RestartCanon(g, c, rs[0], Concat(rs[1..]));
    }
  }

  lemma {:induction false} PlayKeeps(g: Grammar, fd: nat, rs: seq<string>, moves: seq<Move>) returns (x: string)
    requires AllWhole(g, rs) && Playable(g, Start(fd), moves) && PlayAll(g, Start(fd), moves).fed <= Concat(rs)
    ensures PipeInv(g, PlayAll(g, Start(fd), moves), rs, x)
    decreases |moves|
  {
    if moves == [] {
      FreshIsCanon(g, fd);
      assert rs[..0] == [] && Concat([]) == "" && "" == "" + "";
      x := "";
    } else {
      var m, t := moves[|moves| - 1], PlayAll(g, Start(fd), moves[..|moves| - 1]);
      x := PlayKeeps(g, fd, rs, moves[..|moves| - 1]);
      if m.Chunk? && t.c.req.phase != REQ_DONE {
        ChunkKeeps(g, t, rs, x, m.bytes);
        x := x + m.bytes;
      } else if m.Next? && t.c.req.phase == REQ_DONE {
        NextKeeps(g, t, rs, x);
        x := t.c.last.bytes;
      }
    }
  }

  // For every cutting of the stream into receives, and however receives and
  // answers alternate: the finished requests are the first ones of the
  // stream, in order and unchanged; nothing is rejected; every byte fed
  // belongs to a finished request, to the current one or to last_buf; and
  // when all was fed and answered, all requests are finished.
  lemma Pipelined(g: Grammar, fd: nat, rs: seq<string>, moves: seq<Move>)
    requires AllWhole(g, rs) && Playable(g, Start(fd), moves) && PlayAll(g, Start(fd), moves).fed <= Concat(rs)
    ensures var s := PlayAll(g, Start(fd), moves);
            && s.done <= Expected(g, rs)
            && s.c.req.phase != REQ_ABORT
            && s.fed == Concat(rs[..|s.done|]) + (TakenBytes(s.c) + s.c.last.bytes)
            && (s.fed == Concat(rs) && s.c.req.phase != REQ_DONE ==> s.done == Expected(g, rs))
  {
    var x := PlayKeeps(g, fd, rs, moves);
    var s := PlayAll(g, Start(fd), moves);
    RestOfStream(s.done, s.fed, rs, Expected(g, rs), x);
    CurrentRequest(g, s.c, x, rs[|s.done|..]);
  }

  lemma CurrentRequest(g: Grammar, c: ConnVal, x: string, rs: seq<string>)
    requires AllWhole(g, rs) && Canon(g, c, x) && x <= Concat(rs)
    ensures c.req.phase != REQ_ABORT && TakenBytes(c) + c.last.bytes == x
    ensures x == Concat(rs) && c.req.phase != REQ_DONE ==> rs == []
  {
    if rs == [] {
      assert x == "" && Prefix("", BUFSZ) == "";
    } else {
      PartOfStream(g, c, x, rs[0], Concat(rs[1..]));
    }
  }
}
