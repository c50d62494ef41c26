/** One connection as a value, and what each function of conn.c makes of it.
    Callbacks are always tail calls there, so a function returns which one it
    makes; answers of the operating system are arguments. */
module ConnSpec {
  import opened Text
  import opened Buffers
  import opened RequestSpec

  datatype RespPhase = RESP_READY | RESP_HEADER | RESP_BODY | RESP_ABORT | RESP_DISABLED
  datatype CgiPhase =
    CGI_IDLE | CGI_READY | CGI_SRV_TO_CGI | CGI_CGI_TO_SRV | CGI_DONE | CGI_ABORT | CGI_DISABLED
  datatype BufPhase = BUF_RECV | BUF_SEND

  // mmbuf: the mapped file and the cursor into it.
  datatype Mapped = Mapped(bytes: string, dp: nat)
  {
    function Rest(): string {
      if dp <= |bytes| then bytes[dp..] else ""
    }
  }

  datatype RespVal = RespVal(phase: RespPhase, status: nat, clen: int, alive: bool, mmbuf: Option<Mapped>)

  // The parent's ends of the three pipes and the child's; -1 is "not open".
  datatype CgiFds = CgiFds(srvIn: int, srvOut: int, srvErr: int, cgiIn: int, cgiOut: int, cgiErr: int)
  datatype CgiVal = CgiVal(phase: CgiPhase, bufPhase: BufPhase, fds: CgiFds)

  // History of the current request: bytes taken from the client, passed to
  // the program, read from it, accepted by the client, and the page (header
  // and file) that a static response promises.  `lossy` is set where bytes
  // are lost, repeated or counted twice: a write or relayed send that is
  // short, a receive into a body that was not drained, a header that does not
  // fit into the buffer.
  datatype Log = Log(fed: string, toCgi: string, fromCgi: string, sent: string, page: string, lossy: bool)

  datatype ConnVal = ConnVal(
    fd: nat, req: ReqVal, buf: BufVal, last: BufVal, resp: RespVal, cgi: CgiVal, log: Log)

  const FreshResp := RespVal(RESP_READY, 200, 0, true, None)
  const NoFds := CgiFds(-1, -1, -1, -1, -1, -1)
  const FreshCgi := CgiVal(CGI_IDLE, BUF_RECV, NoFds)
  const EmptyLog := Log("", "", "", "", "", false)

  function FreshConn(fd: nat): ConnVal {
    ConnVal(fd, Blank, EmptyBuf, EmptyBuf, FreshResp, FreshCgi, EmptyLog)
  }

  // ---------- answers of the environment ----------

  // recv and read: an error or some bytes; no bytes means end of file.
  datatype Input = Failed | Got(bytes: string)

  // The response header around its Content-Length value.
  datatype HdrText = HdrText(pre: string, post: string)

  datatype PipeFds = PipeFds(cgiIn: nat, srvOut: nat, srvIn: nat, cgiOut: nat, srvErr: nat, cgiErr: nat)
  // NoPipes: a pipe() failed when `made` were open already; nobody records them.
  datatype Spawn = NoPipes(made: set<int>) | NotForked(fds: PipeFds) | Forked(fds: PipeFds)

  // Trying one path: no regular file there, a file that opens but cannot be
  // mapped (an empty one never can), or a mapped file.
  datatype Try = Missing | Unmapped(fd: nat) | MappedAs(fd: nat, bytes: string)

  // Which callback a function ends with.
  datatype Call = NoCall | Succ | Fatal | Err(status: nat)

  function Prefix(s: string, n: int): string {
    if n < 0 then "" else if n <= |s| then s[..n] else s
  }

  function Suffix(s: string, n: nat): string {
    if n <= |s| then s[|s| - n..] else s
  }

  // The bytes accepted by send or write: never more than offered.
  function Accepted(n: int, offered: nat): int {
    if n > offered then offered else n
  }

  // ---------- receiving ----------

  // cn_parse_req.  The last newline is searched in all unparsed bytes.
  function ParseReq(g: Grammar, c: ConnVal): (ConnVal, Call) {
    if c.req.InHeader() then
      var w := c.buf.Window();
      var n := WholeLines(w);
      if n == 0 then (c, NoCall)
      else AfterParse(c, n, ParseBlock(g, c.req, w[..n]))
    else (TakeBody(c), NoCall)
  }

  // n bytes of whole lines were handed to the parser, which came to r.
  function AfterParse(c: ConnVal, n: nat, r: (ReqVal, int)): (ConnVal, Call) {
    if r.1 < 0 then (c.(req := r.0, buf := c.buf.(dp := c.buf.dp + n)), Err(-r.1))
    else (TakeBody(c.(req := r.0, buf := c.buf.(dp := c.buf.dp + r.1))), NoCall)
  }

  // The part of cn_parse_req for phase REQ_BODY: everything from data_p on is
  // body; what is too much goes to last_buf.
  function TakeBody(c: ConnVal): ConnVal {
    if c.req.phase != REQ_BODY then c
    else
      var c1 := SetServer(c);
      var left := c.req.rsize - |c.buf.Window()|;
      if c.req.line.kind == REQ_STATIC then Counted(c1, left).(buf := EmptyBuf)
      else Counted(c1, left)
  }

  function SetServer(c: ConnVal): ConnVal {
    if c.req.line.kind == REQ_STATIC then c.(cgi := c.cgi.(phase := CGI_DISABLED))
    else
      c.(resp := c.resp.(phase := RESP_DISABLED),
         cgi := c.cgi.(phase := if c.cgi.phase == CGI_IDLE then CGI_READY else c.cgi.phase))
  }

  function Counted(c: ConnVal, left: int): ConnVal {
    if left > 0 then c.(req := c.req.(rsize := left))
    else if left == 0 then c.(req := c.req.(rsize := 0, phase := REQ_DONE))
    else
      c.(req := c.req.(rsize := left, phase := REQ_DONE),
         last := Filled(Suffix(c.buf.bytes, -left)),
         buf := c.buf.(sz := c.buf.sz + left, bytes := Prefix(c.buf.bytes, |c.buf.bytes| + left)))
  }

  // Result of cn_recv: the error callback (0 for none) and whether the fatal
  // one follows.
  datatype RecvOut = RecvOut(c: ConnVal, err: nat, fatal: bool)

  function Recv(g: Grammar, c: ConnVal, input: Input): RecvOut {
    if c.req.phase == REQ_ABORT then Ignore(c, 0, input)
    else if BUFSZ - c.buf.sz <= 0 then Ignore(c, 400, input)
    else if input == Failed || input.bytes == "" then
      RecvOut(c.(req := Aborted(c.req)), 0, true)
    else
      var r := ParseReq(g, Fed(c, Prefix(input.bytes, BUFSZ - c.buf.sz)));
      RecvOut(r.0, if r.1.Err? then r.1.status else 0, false)
  }

  function Fed(c: ConnVal, s: string): ConnVal {
    c.(buf := BufVal(c.buf.sz + |s|, c.buf.bytes + s, c.buf.dp),
       log := c.log.(fed := c.log.fed + s, lossy := c.log.lossy || Undrained(c)))
  }

  // Body bytes that are still buffered will be counted once more.
  predicate Undrained(c: ConnVal) {
    c.req.phase == REQ_BODY && c.req.line.kind == REQ_DYNAMIC && c.buf.Window() != ""
  }

  // recv_ignore
  function Ignore(c: ConnVal, err: nat, input: Input): RecvOut {
    if input == Failed || input.bytes == "" then RecvOut(c, err, true)
    else RecvOut(c.(buf := Scribbled(c.buf, Prefix(input.bytes, BUFSZ))), err, false)
  }

  // ---------- static responses ----------

  function Header(clen: int, t: HdrText): string {
    t.pre + "Content-Length: " + Dec(clen) + "\r\n" + t.post
  }

  // The paths resp_build tries: the one asked for and the default pages.
  const N_TRIES: nat := 3

  // What resp_build finds: a file, and the descriptors of files that were
  // opened in vain, which resp_mmap does not close.
  datatype Found = Found(file: Option<string>, lost: set<int>)

  // The first n tries.  A descriptor that is open already cannot be given.
  function Lookup(open: set<int>, tries: seq<Try>, n: nat): Found
    decreases n
  {
    if n == 0 || tries == [] then Found(None, {})
    else
      match tries[0]
      case MappedAs(fd, s) =>
        if fd in open then Lookup(open, tries[1..], n - 1) else Found(Some(s), {})
      case Unmapped(fd) =>
        if fd in open then Lookup(open, tries[1..], n - 1)
        else
          var r := Lookup(open + {fd}, tries[1..], n - 1);
          Found(r.file, r.lost + {fd})
      case Missing => Lookup(open, tries[1..], n - 1)
  }

  // cn_prepare_static_header; the environment says which file was mapped.
  // An empty file makes resp_build return 0, that is false.
  function Prepare(c: ConnVal, file: Option<string>, t: HdrText): (ConnVal, Call) {
    var resp := c.resp.(alive := c.req.head.alive);
    if file.None? then (c.(resp := resp.(status := 404)), Err(404))
    else
      var resp1 := resp.(clen := |file.value|, mmbuf := Some(Mapped(file.value, 0)));
      if file.value == "" then (c.(resp := resp1), Err(c.resp.status))
      else
        var header := Header(|file.value|, t);
        (c.(resp := resp1.(phase := RESP_HEADER), buf := Filled(Prefix(header, BUFSZ)),
            log := c.log.(page := header + file.value, lossy := c.log.lossy || |header| > BUFSZ)), NoCall)
  }

  function Mmbuf(c: ConnVal): Mapped {
    if c.resp.mmbuf.Some? then c.resp.mmbuf.value else Mapped("", 0)
  }

  function Sent(c: ConnVal, s: string): Log {
    c.log.(sent := c.log.sent + s)
  }

  // cn_serve_static; n is what smart_send returns.
  function ServeStatic(c: ConnVal, n: int, t: HdrText, msg: string): (ConnVal, Call) {
    match c.resp.phase
    case RESP_ABORT => SendErrorPage(c, n, t, msg)
    case RESP_HEADER => SendHeader(c, n)
    case RESP_BODY => SendBody(c, n)
    case _ => (c, NoCall)
  }

  // cn_send_error_page rebuilds the page on every call.
  function SendErrorPage(c: ConnVal, n: int, t: HdrText, msg: string): (ConnVal, Call) {
    var page := Prefix(Header(|msg|, t) + msg, BUFSZ);
    var rc := Accepted(n, |page|);
    var c1 := c.(resp := c.resp.(alive := c.req.head.alive, clen := |msg|), buf := Filled(page));
    if rc <= 0 then (c1, Fatal)
    else (c1.(buf := c1.buf.(dp := rc), log := Sent(c, page[..rc])), if rc == |page| then Succ else NoCall)
  }

  function SendHeader(c: ConnVal, n: int): (ConnVal, Call) {
    var w := c.buf.Window();
    var rc := Accepted(n, |w|);
    if rc <= 0 then (c, Fatal)
    else
      (c.(buf := c.buf.(dp := c.buf.dp + rc), log := Sent(c, w[..rc]),
          resp := c.resp.(phase := if rc == |w| then RESP_BODY else RESP_HEADER)),
       if c.req.line.verb == HEAD || Mmbuf(c).Rest() == "" then Succ else NoCall)
  }

  function SendBody(c: ConnVal, n: int): (ConnVal, Call) {
    var w := Mmbuf(c).Rest();
    var rc := Accepted(n, if BUFSZ < |w| then BUFSZ else |w|);
    if rc <= 0 then (c, Fatal)
    else
      (c.(resp := c.resp.(mmbuf := Some(Mapped(Mmbuf(c).bytes, Mmbuf(c).dp + rc))), log := Sent(c, w[..rc])),
       if rc == |w| then Succ else NoCall)
  }

  // ---------- dynamic responses ----------

  // cn_init_cgi: cgi_init and the transition behind it.
  function InitCgi(c: ConnVal, p: Spawn): (ConnVal, Call) {
    match p
    case NoPipes(_) => (SpawnFailed(c, c.cgi.fds), Err(500))
    case NotForked(f) =>
      (SpawnFailed(c, CgiFds(f.srvIn, f.srvOut, f.srvErr, f.cgiIn, f.cgiOut, f.cgiErr)), Err(500))
    case Forked(f) =>
      (c.(cgi := c.cgi.(phase := CGI_SRV_TO_CGI, fds := CgiFds(f.srvIn, f.srvOut, f.srvErr, -1, -1, -1))), Succ)
  }

  function SpawnFailed(c: ConnVal, fds: CgiFds): ConnVal {
    c.(cgi := c.cgi.(phase := CGI_ABORT, fds := fds), resp := c.resp.(phase := RESP_ABORT))
  }

  // The write loop of cn_stream_to_cgi: data_p does not move, so every write
  // offers the bytes at the front of the window.
  function Deliver(w: string, left: nat, writes: seq<int>): (r: (string, bool))
    requires left <= |w|
    decreases left
  {
    if left == 0 then ("", true)
    else if writes == [] || writes[0] <= 0 then ("", false)
    else
      var n := Accepted(writes[0], left);
      var r := Deliver(w, left - n, writes[1..]);
      (w[..n] + r.0, r.1)
  }

  function StreamToCgi(c: ConnVal, writes: seq<int>): (ConnVal, Call) {
    var w := c.buf.Window();
    var r := Deliver(w, |w|, writes);
    var c1 := c.(log := c.log.(toCgi := c.log.toCgi + r.0, lossy := c.log.lossy || r.0 != w));
    if r.1 then (c1.(buf := EmptyBuf), NoCall) else (c1, Err(500))
  }

  // cn_stream_from_cgi: data_p stays where it is.
  function StreamFromCgi(c: ConnVal, input: Input): (ConnVal, Call) {
    if input == Failed then
      (c.(buf := BufVal(-1, "", c.buf.dp), cgi := c.cgi.(phase := CGI_ABORT)), Err(500))
    else
      var s := Prefix(input.bytes, BUFSZ);
      (c.(buf := BufVal(|s|, s, c.buf.dp), log := c.log.(fromCgi := c.log.fromCgi + s),
          cgi := c.cgi.(phase := if s == "" then CGI_DONE else c.cgi.phase, bufPhase := BUF_SEND)), NoCall)
  }

  // cn_serve_dynamic: data_p does not move here either.
  function ServeDynamic(c: ConnVal, n: int): (ConnVal, Call) {
    var w := c.buf.Window();
    var rc := Accepted(n, |w|);
    if w == "" && c.cgi.phase == CGI_DONE then (c, Succ)
    else if rc <= 0 then (c, Fatal)
    else
      (c.(log := Sent(c, w[..rc]).(lossy := c.log.lossy || rc < |w|),
          cgi := c.cgi.(bufPhase := if rc == |w| then BUF_RECV else c.cgi.bufPhase)), NoCall)
  }

  // ---------- what every function relies on and keeps ----------

  // Buffer discipline: cursors and sizes are in range before every receive, a
  // body is still missing bytes, and the buffer is rewound before a program's
  // output goes into it.
  ghost predicate InBounds(c: ConnVal) {
    && c.buf.Sane() && c.last.Sane() && c.last.sz >= 0 && c.last.dp == 0
    && (c.buf.sz < 0 ==> c.cgi.phase == CGI_ABORT)
    && (c.req.phase == REQ_BODY ==> c.req.rsize > 0)
    && (c.cgi.phase == CGI_CGI_TO_SRV || c.cgi.phase == CGI_DONE ==> c.buf.dp == 0)
    && (c.cgi.phase == CGI_DONE ==> c.buf.sz == 0 && c.cgi.bufPhase == BUF_SEND)
    && (c.cgi.bufPhase == BUF_SEND ==> c.cgi.phase == CGI_DONE || (c.cgi.phase == CGI_CGI_TO_SRV && c.buf.bytes != ""))
    && (c.resp.phase == RESP_HEADER || c.resp.phase == RESP_BODY ==>
          c.resp.mmbuf.Some? && c.resp.mmbuf.value.dp <= |c.resp.mmbuf.value.bytes|)
  }

  // Header bytes that were received but not parsed hold no newline, so it is
  // enough to look for one in the bytes of the next receive.
  ghost predicate Scanned(c: ConnVal) {
    c.req.InHeader() ==> '\n' !in c.buf.Window()
  }

  // The body of a static request is not kept.
  ghost predicate Emptied(c: ConnVal) {
    c.req.phase == REQ_BODY && c.req.line.kind == REQ_STATIC ==> c.buf == EmptyBuf
  }

  ghost predicate Sane(c: ConnVal) {
    InBounds(c) && Scanned(c) && Emptied(c)
  }

  // The three phase machines advance together.
  ghost predicate Coupled(c: ConnVal) {
    && (c.req.phase == REQ_ABORT <==> c.resp.phase == RESP_ABORT)
    && (c.req.InHeader() ==> c.resp.phase == RESP_READY && c.cgi.phase == CGI_IDLE)
    && (c.req.phase == REQ_BODY || c.req.phase == REQ_DONE ==>
          if c.req.line.kind == REQ_STATIC then c.cgi.phase == CGI_DISABLED && c.resp.phase != RESP_DISABLED
          else
            && c.resp.phase == RESP_DISABLED
            && c.cgi.phase in {CGI_READY, CGI_SRV_TO_CGI, CGI_CGI_TO_SRV, CGI_DONE})
    && (c.req.phase == REQ_BODY && c.req.line.kind == REQ_STATIC ==> c.resp.phase == RESP_READY)
    && (c.cgi.phase == CGI_CGI_TO_SRV || c.cgi.phase == CGI_DONE ==> c.req.phase == REQ_DONE)
    && (c.req.phase == REQ_DONE ==> c.req.rsize <= 0)
    && (c.cgi.phase == CGI_ABORT ==> c.req.phase == REQ_ABORT)
    && (c.req.InHeader() ==> c.last.sz == 0)
    && (c.req.phase == REQ_BODY ==> c.last.sz == 0)
  }
}
