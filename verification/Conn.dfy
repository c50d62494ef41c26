/** The connection object and its parts: the functions of conn.c as methods
    that update fields in place, each proved against its specification. */
module Conns {
  import opened Text
  import opened Buffers
  import opened RequestSpec
  import opened Requests
  import opened ConnSpec
  import opened ServerSpec

  class Response {
    var phase: RespPhase
    var status: nat
    var clen: int
    var alive: bool
    var mmbuf: Option<Mapped>

    ghost function Val(): RespVal
      reads this
    {
      RespVal(phase, status, clen, alive, mmbuf)
    }

    constructor ()
      ensures Val() == FreshResp
    {
      phase, status, clen, alive, mmbuf := RESP_READY, 200, 0, true, None;
    }

    // resp_reset
    method Reset()
      modifies this
      ensures Val() == FreshResp
    {
      phase, status, clen, alive, mmbuf := RESP_READY, 200, 0, true, None;
    }
  }

  // The kernel's table of open descriptors; `lost` are those the server has
  // opened without recording them anywhere.
  class Kernel {
    var open: set<int>
    ghost var lost: set<int>

    constructor (fds: set<int>)
      ensures open == fds && lost == {}
    {
      open, lost := fds, {};
    }

    method Close(fd: int)
      modifies `open
      ensures open == old(open) - {fd}
    {
      open := open - {fd};
    }

    method Lose(fds: set<int>)
      modifies this
      ensures open == old(open) + fds && lost == old(lost) + fds
    {
      open, lost := open + fds, lost + fds;
    }
  }

  class Cgi {
    var phase: CgiPhase
    var bufPhase: BufPhase
    var srvIn: int
    var srvOut: int
    var srvErr: int
    var cgiIn: int
    var cgiOut: int
    var cgiErr: int

    ghost function Fds(): CgiFds
      reads this
    {
      CgiFds(srvIn, srvOut, srvErr, cgiIn, cgiOut, cgiErr)
    }

    ghost function Val(): CgiVal
      reads this
    {
      CgiVal(phase, bufPhase, Fds())
    }

    // cgi_new
    constructor ()
      ensures Val() == FreshCgi
    {
      srvIn, srvOut, srvErr, cgiIn, cgiOut, cgiErr := -1, -1, -1, -1, -1, -1;
      phase, bufPhase := CGI_IDLE, BUF_RECV;
    }

    // close_pipe; the result replaces the field that held fd.
    static method ClosePipe(k: Kernel, fd: int) returns (r: int)
      modifies k`open
      ensures k.open == Without(old(k.open), fd) && r == Shut(fd)
    {
      r := fd;
      if fd >= 0 {
        k.Close(fd);
        r := -1;
      }
    }

    // cgi_reset
    method Reset(k: Kernel)
      requires srvIn >= -1 && srvOut >= -1 && srvErr >= -1 && cgiIn >= -1 && cgiOut >= -1 && cgiErr >= -1
      modifies this, k`open
      ensures Val() == FreshCgi && k.open == AllShut(old(k.open), old(Fds()))
    {
      phase := CGI_IDLE;
      srvOut := ClosePipe(k, srvOut);
      srvIn := ClosePipe(k, srvIn);
      cgiIn := ClosePipe(k, cgiIn);
      cgiOut := ClosePipe(k, cgiOut);
      srvErr := ClosePipe(k, srvErr);
      cgiErr := ClosePipe(k, cgiErr);
      bufPhase := BUF_RECV;
    }

    // cgi_init in the parent, for an answer the kernel can give.
    method Init(k: Kernel, p: Spawn) returns (ok: bool)
      requires Given(k.open, p) == p
      modifies this, k
      ensures k.open == Opened(old(k.open), Watchable(p)) && k.lost == old(k.lost) + Stray(p)
      ensures ok == Watchable(p).Forked? && bufPhase == old(bufPhase)
      ensures match Watchable(p)
              case NoPipes(_) => Val() == old(Val())
              case NotForked(f) =>
                phase == old(phase) && Fds() == CgiFds(f.srvIn, f.srvOut, f.srvErr, f.cgiIn, f.cgiOut, f.cgiErr)
              case Forked(f) =>
                phase == CGI_SRV_TO_CGI && Fds() == CgiFds(f.srvIn, f.srvOut, f.srvErr, -1, -1, -1)
    {
      if p.NoPipes? {
        k.Lose(p.made);
        return false;
      }
      var f := p.fds;
      k.open := k.open + {f.cgiIn, f.srvOut, f.srvIn, f.cgiOut, f.srvErr, f.cgiErr};
      cgiIn, srvOut, cgiOut, srvIn, cgiErr, srvErr := f.cgiIn, f.srvOut, f.cgiOut, f.srvIn, f.cgiErr, f.srvErr;
      if srvIn >= FD_SETSIZE || srvErr >= FD_SETSIZE || p.NotForked? {
        return false;
      }
      ShutChildsEnds(k, f, old(k.open));
      phase := CGI_SRV_TO_CGI;
      return true;
    }

    // The parent closes the ends that the child uses.
    method ShutChildsEnds(k: Kernel, f: PipeFds, ghost open: set<int>)
      requires FreshFds(open, f) && cgiIn == f.cgiIn && cgiOut == f.cgiOut && cgiErr == f.cgiErr
      requires k.open == open + {f.cgiIn, f.srvOut, f.srvIn, f.cgiOut, f.srvErr, f.cgiErr}
      modifies this`cgiIn, this`cgiOut, this`cgiErr, k`open
      ensures k.open == Opened(open, Forked(f)) && cgiIn == cgiOut == cgiErr == -1
    {
      cgiIn := ClosePipe(k, cgiIn);
      cgiOut := ClosePipe(k, cgiOut);
      cgiErr := ClosePipe(k, cgiErr);
      ParentsEnds(open, f, k.open);
    }
  }

  function Shut(fd: int): int {
    if fd >= 0 then -1 else fd
  }

  // The descriptors cgi_reset closes, in its order.
  function AllShut(open: set<int>, f: CgiFds): set<int> {
    Without(Without(Without(Without(Without(Without(open, f.srvOut), f.srvIn), f.cgiIn), f.cgiOut), f.srvErr), f.cgiErr)
  }

  // Only the parent's ends of the pipes stay open.
  lemma ParentsEnds(open: set<int>, f: PipeFds, after: set<int>)
    requires FreshFds(open, f)
    requires after == open + {f.cgiIn, f.srvOut, f.srvIn, f.cgiOut, f.srvErr, f.cgiErr} - {f.cgiIn} - {f.cgiOut} - {f.cgiErr}
    ensures after == Opened(open, Forked(f))
  {
  }

  class Conn {
    const fd: nat
    var idx: nat
    const req: Request
    const resp: Response
    const cgi: Cgi
    const buf: Buf
    ghost var log: Log

    // The two buffers share nothing, and never will.
    ghost predicate Shape() {
      buf != req.lastBuf && buf.data != req.lastBuf.data
    }

    ghost function Parts(): set<object> {
      {req, resp, cgi, buf, buf.data, req.lastBuf, req.lastBuf.data}
    }

    ghost predicate Valid()
      reads buf, req.lastBuf
    {
      buf.Valid() && req.lastBuf.Valid()
    }

    ghost function Val(): ConnVal
      requires Valid()
      reads `log, req, resp, cgi, buf, buf.data, req.lastBuf, req.lastBuf.data
    {
      ConnVal(fd, req.Val(), buf.Val(), req.lastBuf.Val(), resp.Val(), cgi.Val(), log)
    }

    // cn_new
    constructor (fd: nat, idx: nat)
      ensures Shape() && Valid() && fresh(Parts()) && Val() == FreshConn(fd) && this.idx == idx
    {
      this.fd, this.idx := fd, idx;
      var q := new Request();
      var b := new Buf();
      var r := new Response();
      var k := new Cgi();
      req, buf, resp, cgi := q, b, r, k;
      log := EmptyLog;
    }

    // ---------- cn_parse_req ----------

    // The position behind the last newline at or behind lastRecvEnd, or a
    // position in front of data_p.
    method LastLineEnd(lastRecvEnd: nat) returns (q: int)
      requires buf.Valid() && buf.sz >= 0 && buf.data_p <= lastRecvEnd <= buf.sz
      requires forall k :: buf.data_p <= k < lastRecvEnd ==> buf.data[k] != '\n'
      ensures q <= buf.sz
      ensures q > buf.data_p ==> buf.data[q - 1] == '\n'
      ensures WholeLines(buf.Val().Window()) == if q > buf.data_p then q - buf.data_p else 0
    {
      var p := lastRecvEnd;
      q := buf.data_p - 1;
      while p < buf.sz
        invariant lastRecvEnd <= p <= buf.sz && q <= p
        invariant q > buf.data_p ==> buf.data[q - 1] == '\n'
        invariant forall k :: buf.data_p <= k < p && k >= q ==> buf.data[k] != '\n'
      {
        if buf.data[p] == '\n' {
          q := p + 1;
        }
        p := p + 1;
      }
      LinesEndAt(buf, buf.Val().Window(), q);
    }

    method Copied(lo: nat, hi: nat) returns (lines: Buf)
      requires buf.Valid() && buf.sz >= 0 && lo <= hi <= buf.sz
      ensures fresh(lines) && fresh(lines.data)
      ensures lines.Valid() && lines.sz == hi - lo && lines.data_p == 0
      ensures Request.Rest(lines) == buf.data[lo..hi]
    {
      lines := new Buf();
      lines.Append(buf.data[lo..hi]);
      assert lines.Val().bytes == "" + buf.data[lo..hi];
    }

    // The lines s = [data_p, q) are copied out and parsed; data_p follows the
    // parser, or stays behind the lines when one of them is bad.
    method ParseLines(q: nat, ghost s: string, ghost g: Grammar) returns (call: Call)
      requires buf.Valid() && buf.sz >= 0 && buf.data_p < q <= buf.sz && buf.data[buf.data_p..q] == s
      requires IsLiso(g) && req.Val().InHeader() && IsBlock(s)
      modifies req, buf`data_p
      ensures buf.Valid()
      ensures var r := ParseBlock(g, old(req.Val()), s);
              && req.Val() == r.0 && call == (if r.1 < 0 then Err(-r.1) else NoCall)
              && buf.data_p == if r.1 < 0 then q else old(buf.data_p) + r.1
    {
      var start := buf.data_p;
      var lines := Copied(start, q);
      buf.data_p := q;
      var rc := req.Parse(lines, g);
      if rc < 0 {
        return Err(-rc);
      }
      buf.data_p := start + rc;
      return NoCall;
    }

    // The part of cn_parse_req for the header.
    method ParseHeader(lastRecvEnd: nat, ghost g: Grammar) returns (call: Call)
      requires Shape() && Valid() && buf.sz >= 0 && IsLiso(g) && req.Val().InHeader()
      requires buf.data_p <= lastRecvEnd <= buf.sz
      requires forall k :: buf.data_p <= k < lastRecvEnd ==> buf.data[k] != '\n'
      modifies req, buf`data_p
      ensures Valid()
      ensures HeaderParsed(g, old(req.Val()), old(buf.data_p), old(buf.Val()).Window(), req.Val(), buf.data_p, call)
    {
      var q := LastLineEnd(lastRecvEnd);
      ghost var w := buf.Val().Window();
      if q > buf.data_p {
        call := ParseWhole(q, w, g);
      } else {
        call := NoCall;
      }
    }

    // The whole lines of the window end at q.
    method ParseWhole(q: nat, ghost w: string, ghost g: Grammar) returns (call: Call)
      requires buf.Valid() && buf.sz >= 0 && IsLiso(g) && req.Val().InHeader()
      requires w == buf.Val().Window() && WholeLines(w) == q - buf.data_p > 0
      modifies req, buf`data_p
      ensures buf.Valid()
      ensures HeaderParsed(g, old(req.Val()), old(buf.data_p), w, req.Val(), buf.data_p, call)
    {
      ghost var n := q - buf.data_p;
      WindowFront(buf, w, n);
      call := ParseLines(q, w[..n], g);
    }

    // cn_parse_req.  Only the bytes behind lastRecvEnd are searched for a
    // newline; all bytes in front of it are known to hold none.
    method ParseReq(lastRecvEnd: nat, ghost g: Grammar) returns (call: Call)
      requires Shape() && Valid() && buf.sz >= 0 && IsLiso(g)
      requires req.phase == REQ_BODY ==> req.rsize >= 0
      requires req.Val().InHeader() ==> buf.data_p <= lastRecvEnd <= buf.sz
      requires req.Val().InHeader() ==> forall k :: buf.data_p <= k < lastRecvEnd ==> buf.data[k] != '\n'
      modifies `log, req, resp, cgi, buf, buf.data, req.lastBuf, req.lastBuf.data
      ensures Valid() && (Val(), call) == ConnSpec.ParseReq(g, old(Val()))
      ensures cgi.Fds() == old(cgi.Fds())
    {
      ghost var c := Val();
      call := NoCall;
      if req.phase == REQ_START || req.phase == REQ_HEADER {
        call := ParseHeader(lastRecvEnd, g);
        ParsedInParts(g, c, req.Val(), buf.data_p, call);
        assert Val() == c.(req := req.Val(), buf := c.buf.(dp := buf.data_p));
        if call != NoCall {
          return;
        }
      }
      if req.phase == REQ_BODY {
        TakeBody();
      }
    }

    method TakeBody()
      requires Shape() && Valid() && buf.sz >= 0 && req.phase == REQ_BODY && req.rsize >= 0
      modifies `log, req, resp, cgi, buf, buf.data, req.lastBuf, req.lastBuf.data
      ensures Valid() && Val() == ConnSpec.TakeBody(old(Val()))
      ensures cgi.Fds() == old(cgi.Fds())
    {
      SetServer();
      Count();
      if req.kind == REQ_STATIC {
        buf.Reset();
      }
    }

    // Either the program or the static response is out of the picture.
    method SetServer()
      requires Shape() && Valid()
      modifies resp, cgi
      ensures Val() == ConnSpec.SetServer(old(Val())) && cgi.Fds() == old(cgi.Fds())
    {
      if req.kind == REQ_STATIC {
        cgi.phase := CGI_DISABLED;
      } else {
        resp.phase := RESP_DISABLED;
        if cgi.phase == CGI_IDLE {
          cgi.phase := CGI_READY;
        }
      }
    }

    method Count()
      requires Shape() && Valid() && buf.sz >= 0 && req.phase == REQ_BODY && req.rsize >= 0
      modifies req, buf, req.lastBuf, req.lastBuf.data
      ensures Valid() && buf.sz >= 0
      ensures Val() == Counted(old(Val()), old(req.rsize) - |old(buf.Val()).Window()|)
    {
      ghost var c := Val();
      var size := buf.sz - buf.data_p;
      req.rsize := req.rsize - size;
      if req.rsize == 0 {
        req.phase := REQ_DONE;
      } else if req.rsize < 0 {
        req.phase := REQ_DONE;
        Stash(-req.rsize);
        assert buf.Val().sz == c.buf.sz + req.rsize && req.lastBuf.Val() == Filled(Suffix(c.buf.bytes, -req.rsize));
      }
    }

    // The last `rest` bytes belong to the next request.
    method Stash(rest: nat)
      requires Shape() && Valid() && rest <= buf.sz - buf.data_p
      modifies buf`sz, req.lastBuf, req.lastBuf.data
      ensures Valid() && buf.sz == old(buf.sz) - rest
      ensures buf.Val() == old(buf.Val()).(sz := buf.sz, bytes := Prefix(old(buf.Val()).bytes, buf.sz))
      ensures req.lastBuf.Val() == Filled(Suffix(old(buf.Val()).bytes, rest))
    {
      ghost var bytes := buf.Val().bytes;
      assert buf.data[buf.sz - rest..buf.sz] == Suffix(bytes, rest);
      req.lastBuf.Reset();
      req.lastBuf.Append(buf.data[buf.sz - rest..buf.sz]);
      assert "" + Suffix(bytes, rest) == Suffix(bytes, rest);
      buf.sz := buf.sz - rest;
      assert buf.data[..buf.sz] == Prefix(bytes, buf.sz);
    }

    // ---------- cn_recv ----------

    method RecvIgnore(input: Input, ghost err: nat) returns (fatal: bool)
      requires Shape() && Valid()
      modifies buf.data
      ensures Valid() && RecvOut(Val(), err, fatal) == Ignore(old(Val()), err, input)
    {
      if input == Failed || input.bytes == "" {
        return true;
      }
      buf.Scribble(Prefix(input.bytes, BUFSZ));
      return false;
    }

    // cn_recv without the TLS handshake.  The header bytes that are already
    // there hold no newline, so the new ones are enough to look at.
    method Recv(input: Input, ghost g: Grammar) returns (err: nat, fatal: bool)
      requires Shape() && Valid() && IsLiso(g) && Scanned(Val())
      requires req.phase != REQ_ABORT ==> buf.sz >= 0
      requires req.phase == REQ_BODY ==> req.rsize >= 0
      modifies `log, req, resp, cgi, buf, buf.data, req.lastBuf, req.lastBuf.data
      ensures Valid() && RecvOut(Val(), err, fatal) == ConnSpec.Recv(g, old(Val()), input)
      ensures cgi.Fds() == old(cgi.Fds())
    {
      if req.phase == REQ_ABORT || BUFSZ - buf.sz <= 0 {
        err := if req.phase == REQ_ABORT then 0 else 400;
        fatal := RecvIgnore(input, err);
        return;
      }
      var room := BUFSZ - buf.sz;
      err, fatal := 0, false;
      if input == Failed || input.bytes == "" {
        req.phase := REQ_ABORT;
        return err, true;
      }
      err := RecvMore(Prefix(input.bytes, room), g);
    }

    // Some bytes arrived.
    method RecvMore(s: string, ghost g: Grammar) returns (err: nat)
      requires Shape() && Valid() && IsLiso(g) && Scanned(Val())
      requires buf.sz >= 0 && |s| <= BUFSZ - buf.sz && (req.phase == REQ_BODY ==> req.rsize >= 0)
      modifies `log, req, resp, cgi, buf, buf.data, req.lastBuf, req.lastBuf.data
      ensures Valid() && cgi.Fds() == old(cgi.Fds())
      ensures var r := ConnSpec.ParseReq(g, Fed(old(Val()), s));
              Val() == r.0 && err == if r.1.Err? then r.1.status else 0
    {
      ScannedBytes(buf, buf.Val().Window(), req.Val().InHeader());
      var lastRecvEnd := Feed(s);
      var call := ParseReq(lastRecvEnd, g);
      err := if call.Err? then call.status else 0;
    }

    // The bytes the kernel puts behind the end of the buffer.
    method Feed(s: string) returns (lastRecvEnd: nat)
      requires Shape() && Valid() && buf.sz >= 0 && |s| <= BUFSZ - buf.sz
      requires req.Val().InHeader() ==> '\n' !in buf.data[buf.data_p..buf.sz]
      modifies `log, buf`sz, buf.data
      ensures Valid() && Val() == Fed(old(Val()), s)
      ensures buf.data_p <= lastRecvEnd == old(buf.sz) <= buf.sz
      ensures req.Val().InHeader() ==> forall k :: buf.data_p <= k < lastRecvEnd ==> buf.data[k] != '\n'
    {
      lastRecvEnd := buf.sz;
      ghost var c, seen, was := Val(), buf.data[buf.data_p..buf.sz], buf.data[..buf.sz];
      buf.Append(s);
      log := log.(fed := log.fed + s, lossy := log.lossy || Undrained(c));
      assert was[buf.data_p..] == seen;
      StillThere(buf, was, s, seen);
    }

    // ---------- static responses ----------

    // cn_prepare_static_header with resp_build; the paths are tried in turn.
    method PrepareStaticHeader(k: Kernel, tries: seq<Try>, t: HdrText) returns (call: Call)
      requires Shape() && Valid()
      modifies k, `log, resp, buf, buf.data
      ensures var r := Lookup(old(k.open), tries, N_TRIES);
              && Valid() && (Val(), call) == Prepare(old(Val()), r.file, t)
              && k.open == old(k.open) + r.lost && k.lost == old(k.lost) + r.lost
    {
      var file := FindFile(k, tries);
      call := PrepareFile(file, t);
    }

    // A file that opens but cannot be mapped is left open (resp_mmap).
    static method FindFile(k: Kernel, tries: seq<Try>) returns (file: Option<string>)
      modifies k
      ensures var r := Lookup(old(k.open), tries, N_TRIES);
              file == r.file && k.open == old(k.open) + r.lost && k.lost == old(k.lost) + r.lost
    {
      var i := 0;
      ghost var all, lost: set<int> := Lookup(k.open, tries, N_TRIES), {};
      assert tries[0..] == tries;
      while i < N_TRIES && i < |tries|
        invariant 0 <= i <= N_TRIES && i <= |tries|
        invariant k.open == old(k.open) + lost && k.lost == old(k.lost) + lost
        invariant Finds(all, lost, Lookup(k.open, tries[i..], N_TRIES - i))
      {
        ghost var was := lost;
        assert tries[i..][1..] == tries[i + 1..];
        match tries[i] {
          case MappedAs(fd, s) =>
            if fd !in k.open {
              OpenAndClose(k, fd);
              return Some(s);
            }
          case Unmapped(fd) =>
            if fd !in k.open {
              FindsOne(all, lost, k.open, tries[i..], N_TRIES - i, fd);
              k.Lose({fd});
              lost := lost + {fd};
            }
          case Missing =>
        }
        i := i + 1;
      }
      file := None;
    }

    // A mapped file does not need its descriptor any more.
    static method OpenAndClose(k: Kernel, fd: int)
      requires fd !in k.open
      modifies k`open
      ensures k.open == old(k.open)
    {
      k.open := k.open + {fd};
      k.Close(fd);
    }

    // The response for the file that was found, or for none.
    method PrepareFile(file: Option<string>, t: HdrText) returns (call: Call)
      requires Shape() && Valid()
      modifies `log, resp, buf, buf.data
      ensures Valid() && (Val(), call) == Prepare(old(Val()), file, t)
    {
      resp.alive := req.alive;
      if file.None? {
        resp.status := 404;
        return Err(404);
      }
      resp.clen := |file.value|;
      resp.mmbuf := Some(Mapped(file.value, 0));
      if file.value == "" {
        return Err(resp.status);
      }
      resp.phase := RESP_HEADER;
      var header := Header(resp.clen, t);
      Load(Prefix(header, BUFSZ));
      log := log.(page := header + file.value, lossy := log.lossy || |header| > BUFSZ);
      return NoCall;
    }

    // buf_reset, and then s is put into the buffer.
    method Load(s: string)
      requires buf.data.Length == BUFSZ + 1 && |s| <= BUFSZ
      modifies buf, buf.data
      ensures buf.Valid() && buf.Val() == Filled(s)
    {
      buf.Reset();
      buf.Append(s);
      assert "" + s == s;
    }

    // cn_serve_static; n is what the socket answers to the one send.
    method ServeStatic(n: int, t: HdrText, msg: string) returns (call: Call)
      requires Shape() && Valid()
      requires resp.phase == RESP_HEADER || resp.phase == RESP_BODY ==> resp.mmbuf.Some?
      requires resp.phase == RESP_HEADER ==> buf.sz >= 0
      modifies `log, resp, buf, buf.data
      ensures Valid() && (Val(), call) == ConnSpec.ServeStatic(old(Val()), n, t, msg)
    {
      if resp.phase == RESP_ABORT {
        call := SendErrorPage(n, t, msg);
      } else if resp.phase == RESP_HEADER {
        call := SendHeader(n);
      } else if resp.phase == RESP_BODY {
        call := SendBody(n);
      } else {
        call := NoCall;
      }
    }

    method SendErrorPage(n: int, t: HdrText, msg: string) returns (call: Call)
      requires Shape() && Valid()
      modifies `log, resp, buf, buf.data
      ensures Valid() && (Val(), call) == ConnSpec.SendErrorPage(old(Val()), n, t, msg)
    {
      resp.alive := req.alive;
      resp.clen := |msg|;
      var page := Prefix(Header(resp.clen, t) + msg, BUFSZ);
      Load(page);
      var rc := Accepted(n, buf.sz - buf.data_p);
      if rc <= 0 {
        return Fatal;
      }
      buf.data_p := buf.data_p + rc;
      log := log.(sent := log.sent + page[..rc]);
      return if buf.data_p >= buf.sz then Succ else NoCall;
    }

    method SendHeader(n: int) returns (call: Call)
      requires Shape() && Valid() && buf.sz >= 0 && resp.phase == RESP_HEADER && resp.mmbuf.Some?
      modifies `log, resp, buf`data_p
      ensures Valid() && (Val(), call) == ConnSpec.SendHeader(old(Val()), n)
    {
      var rsize := buf.sz - buf.data_p;
      var rc := Accepted(n, rsize);
      if rc <= 0 {
        return Fatal;
      }
      log := log.(sent := log.sent + buf.Val().Window()[..rc]);
      buf.data_p := buf.data_p + rc;
      if rc == rsize {
        resp.phase := RESP_BODY;
      }
      var m := resp.mmbuf.value;
      return if req.verb == HEAD || m.dp >= |m.bytes| then Succ else NoCall;
    }

    method SendBody(n: int) returns (call: Call)
      requires Shape() && Valid() && resp.mmbuf.Some?
      modifies `log, resp
      ensures Valid() && (Val(), call) == ConnSpec.SendBody(old(Val()), n)
    {
      var m := resp.mmbuf.value;
      var w := m.Rest();
      var rc := Accepted(n, if BUFSZ < |w| then BUFSZ else |w|);
      if rc <= 0 {
        return Fatal;
      }
      resp.mmbuf := Some(Mapped(m.bytes, m.dp + rc));
      log := log.(sent := log.sent + w[..rc]);
      return if rc == |w| then Succ else NoCall;
    }

    // ---------- dynamic responses ----------

    // cn_init_cgi
    method InitCgi(k: Kernel, p: Spawn) returns (call: Call)
      requires Shape() && Valid() && Given(k.open, p) == p
      modifies cgi, resp, k
      ensures (Val(), call) == ConnSpec.InitCgi(old(Val()), Watchable(p))
      ensures k.open == Opened(old(k.open), Watchable(p)) && k.lost == old(k.lost) + Stray(Watchable(p))
    {
      var ok := cgi.Init(k, p);
      if !ok {
        FailSpawn();
        return Err(500);
      }
      cgi.phase := CGI_SRV_TO_CGI;
      return Succ;
    }

    method FailSpawn()
      requires Shape() && Valid()
      modifies cgi`phase, resp`phase
      ensures Val() == SpawnFailed(old(Val()), old(cgi.Fds()))
    {
      cgi.phase := CGI_ABORT;
      resp.phase := RESP_ABORT;
    }

    // cn_stream_to_cgi
    method StreamToCgi(writes: seq<int>) returns (call: Call)
      requires Shape() && Valid() && buf.sz >= 0
      modifies `log, buf
      ensures Valid() && (Val(), call) == ConnSpec.StreamToCgi(old(Val()), writes)
    {
      ghost var given;
      var ok;
      ok, given := WriteAll(writes);
      log := log.(toCgi := log.toCgi + given, lossy := log.lossy || given != buf.Val().Window());
      if !ok {
        return Err(500);
      }
      buf.Reset();
      return NoCall;
    }

    // The write loop: data_p does not move between the writes, the i-th of
    // which is answered by writes[i].
    method WriteAll(writes: seq<int>) returns (ok: bool, ghost given: string)
      requires buf.Valid() && buf.sz >= 0
      ensures var w := buf.Val().Window(); (given, ok) == Deliver(w, |w|, writes)
    {
      var rsize, i := buf.sz - buf.data_p, 0;
      ghost var w := buf.Val().Window();
      given := "";
      assert writes[0..] == writes;
      while rsize > 0
        invariant 0 <= rsize <= |w| && 0 <= i <= |writes|
        invariant Gave(given, Deliver(w, rsize, writes[i..]), Deliver(w, |w|, writes))
      {
        if i == |writes| || writes[i] <= 0 {
          assert given + "" == given;
          return false, given;
        }
        var sz := Accepted(writes[i], rsize);
        assert writes[i..][1..] == writes[i + 1..];
        GaveOne(w, rsize, writes[i..], given, Deliver(w, |w|, writes));
        given := given + w[..sz];
        rsize := rsize - sz;
        i := i + 1;
      }
      assert given + "" == given;
      return true, given;
    }

    // cn_stream_from_cgi
    method StreamFromCgi(input: Input) returns (call: Call)
      requires Shape() && Valid() && (input.Got? ==> buf.data_p == 0)
      modifies `log, buf, buf.data, cgi
      ensures Valid() && (Val(), call) == ConnSpec.StreamFromCgi(old(Val()), input)
    {
      if input == Failed {
        buf.sz := -1;
        cgi.phase := CGI_ABORT;
        return Err(500);
      }
      var s := Prefix(input.bytes, BUFSZ);
      buf.sz := 0;
      buf.Append(s);
      assert "" + s == s;
      log := log.(fromCgi := log.fromCgi + s);
      if buf.sz == 0 {
        cgi.phase := CGI_DONE;
      }
      cgi.bufPhase := BUF_SEND;
      return NoCall;
    }

    // cn_serve_dynamic
    method ServeDynamic(n: int) returns (call: Call)
      requires Shape() && Valid() && buf.sz >= 0
      modifies `log, cgi
      ensures Valid() && (Val(), call) == ConnSpec.ServeDynamic(old(Val()), n)
    {
      var rsize := buf.sz - buf.data_p;
      if rsize == 0 && cgi.phase == CGI_DONE {
        return Succ;
      }
      var rc := Accepted(n, rsize);
      if rc <= 0 {
        return Fatal;
      }
      log := log.(sent := log.sent + buf.Val().Window()[..rc], lossy := log.lossy || rc < rsize);
      if rsize - rc == 0 {
        cgi.bufPhase := BUF_RECV;
      }
      return NoCall;
    }
  }

  lemma ScannedBytes(buf: Buf, w: string, open: bool)
    requires buf.Valid() && buf.sz >= 0 && w == buf.Val().Window() && (open ==> '\n' !in w)
    ensures open ==> '\n' !in buf.data[buf.data_p..buf.sz]
  {
    assert w == buf.data[buf.data_p..buf.sz];
  }

  // Where the last newline of the window is.
  lemma LinesEndAt(buf: Buf, w: string, q: int)
    requires buf.Valid() && buf.sz >= 0 && w == buf.Val().Window() && q <= buf.sz
    requires q > buf.data_p ==> buf.data[q - 1] == '\n'
    requires forall k :: buf.data_p <= k < buf.sz && k >= q ==> buf.data[k] != '\n'
    ensures WholeLines(w) == if q > buf.data_p then q - buf.data_p else 0
  {
    var n := if q > buf.data_p then q - buf.data_p else 0;
    assert forall k :: 0 <= k < |w| ==> w[k] == buf.data[buf.data_p + k];
    WholeLinesIs(w, n);
  }

  lemma WindowFront(buf: Buf, w: string, n: nat)
    requires buf.Valid() && buf.sz >= 0 && w == buf.Val().Window() && n <= |w|
    ensures w[..n] == buf.data[buf.data_p..buf.data_p + n]
  {
  }

  // Appending s left the bytes in front as they were.
  lemma StillThere(buf: Buf, was: string, s: string, seen: string)
    requires buf.Valid() && buf.sz >= 0 && buf.Val().bytes == was + s
    requires buf.data_p <= |was| && was[buf.data_p..] == seen
    ensures '\n' !in seen ==> forall k :: buf.data_p <= k < |was| ==> buf.data[k] != '\n'
  {
    forall k | buf.data_p <= k < |was|
      ensures buf.data[k] == seen[k - buf.data_p]
    {
      assert buf.data[..buf.sz][k] == was[k];
    }
  }

  // The descriptors lost so far, and what is still to be found, make up all.
  ghost predicate Finds(all: Found, lost: set<int>, r: Found) {
    all.file == r.file && all.lost == lost + r.lost
  }

  lemma FindsOne(all: Found, lost: set<int>, open: set<int>, tries: seq<Try>, n: nat, fd: nat)
    requires n > 0 && tries != [] && tries[0] == Unmapped(fd) && fd !in open
    requires Finds(all, lost, Lookup(open, tries, n))
    ensures Finds(all, lost + {fd}, Lookup(open + {fd}, tries[1..], n - 1))
  {
  }

  // What was given, followed by what r still gives, is all.
  ghost predicate Gave(given: string, r: (string, bool), all: (string, bool)) {
    given + r.0 == all.0 && r.1 == all.1
  }

  lemma GaveOne(w: string, left: nat, writes: seq<int>, given: string, all: (string, bool))
    requires 0 < left <= |w| && writes != [] && writes[0] > 0 && Gave(given, Deliver(w, left, writes), all)
    ensures var n := Accepted(writes[0], left);
            Gave(given + w[..n], Deliver(w, left - n, writes[1..]), all)
  {
    var n := Accepted(writes[0], left);
    assert given + (w[..n] + Deliver(w, left - n, writes[1..]).0) == given + w[..n] + Deliver(w, left - n, writes[1..]).0;
  }

  // What the header part of cn_parse_req makes of the window w at dp.
  ghost predicate HeaderParsed(g: Grammar, v: ReqVal, dp: nat, w: string, u: ReqVal, dp1: nat, call: Call)
    requires v.InHeader()
  {
    var n := WholeLines(w);
    var r := ParseBlock(g, v, w[..n]);
    if n == 0 then u == v && dp1 == dp && call == NoCall
    else if r.1 < 0 then u == r.0 && dp1 == dp + n && call == Err(-r.1)
    else u == r.0 && dp1 == dp + r.1 && call == NoCall
  }

  // cn_parse_req is its header part and then, unless that failed, its body
  // part.
  lemma ParsedInParts(g: Grammar, c: ConnVal, u: ReqVal, dp: nat, call: Call)
    requires c.req.InHeader() && HeaderParsed(g, c.req, c.buf.dp, c.buf.Window(), u, dp, call)
    ensures var d := c.(req := u, buf := c.buf.(dp := dp));
            ConnSpec.ParseReq(g, c) == (if call != NoCall then d else TakeBody(d), call)
    ensures call == NoCall ==> u.InHeader() || (u.phase == REQ_BODY && u.rsize >= 0)
  {
  }
}
