/** The pool of connections (pool.c) and the server loop over it (lisod.c). */
module Pools {
  import opened ConnSpec
  import opened Conns
  import opened ServerSpec

  // The last element takes the place of the i-th.
  function Swapped<T>(s: seq<T>, i: nat): seq<T>
    requires i < |s|
  {
    s[i := s[|s| - 1]][..|s| - 1]
  }

  // Different connections with no part in common.
  ghost predicate Apart(a: Conn, b: Conn) {
    && a != b && a.req != b.req && a.resp != b.resp && a.cgi != b.cgi
    && a.buf != b.buf && a.buf != b.req.lastBuf && a.req.lastBuf != b.buf && a.req.lastBuf != b.req.lastBuf
    && a.buf.data != b.buf.data && a.buf.data != b.req.lastBuf.data
    && a.req.lastBuf.data != b.buf.data && a.req.lastBuf.data != b.req.lastBuf.data
  }

  class Pool {
    const sock: int
    const sslSock: int
    const kernel: Kernel
    const minMaxFd: int
    const conns: array<Conn?>
    var nConns: nat
    var maxFd: int
    var readSet: set<int>
    var writeSet: set<int>
    var readReady: set<int>
    var writeReady: set<int>

    // Array representation: the first nConns slots hold different connections
    // that know their place and share no part.
    ghost predicate Slots()
      reads this`nConns, conns, conns[..]`idx
    {
      && conns.Length == MAX_CONNS + 1 && nConns <= MAX_CONNS
      && (forall k :: 0 <= k < nConns ==> conns[k] != null && conns[k].idx == k && conns[k].Shape())
      && (forall j, k {:trigger Apart(conns[j], conns[k])} ::
            0 <= j < nConns && 0 <= k < nConns && j != k ==> Apart(conns[j], conns[k]))
    }

    ghost predicate Holds(conn: Conn)
      reads this`nConns, conns, conn`idx
    {
      conn.idx < nConns <= conns.Length && conns[conn.idx] == conn
    }

    // One connection with what it shares.
    ghost function L(conn: Conn): Local
      requires conn.Valid()
      reads this`readSet, this`writeSet, kernel
      reads conn`log, conn.req, conn.resp, conn.cgi, conn.buf, conn.buf.data, conn.req.lastBuf, conn.req.lastBuf.data
    {
      Local(conn.Val(), readSet, writeSet, kernel.open, kernel.lost)
    }

    // The pool as a value.  repr holds every object of its connections.
    ghost predicate Shows(p: PoolVal, repr: set<object>)
      reads this, kernel, conns, conns[..], repr
    {
      && Slots() && |p.conns| == nConns
      && p.sock == sock && p.sslSock == sslSock && MinMaxFd(p) == minMaxFd && p.maxFd == maxFd
      && p.R == readSet && p.W == writeSet && p.open == kernel.open && p.lost == kernel.lost
      && forall k :: 0 <= k < nConns ==>
           conns[k] in repr && conns[k].Parts() <= repr && conns[k].Valid() && conns[k].Val() == p.conns[k]
    }

    // pl_new, for two listeners that are open.
    constructor (sock: nat, sslSock: nat)
      ensures Slots() && fresh(conns) && fresh(kernel) && nConns == 0
      ensures readSet == {sock, sslSock} && writeSet == {} && kernel.open == {sock, sslSock} && kernel.lost == {}
      ensures maxFd == minMaxFd == Max(sock, sslSock) && this.sock == sock && this.sslSock == sslSock
    {
      this.sock, this.sslSock := sock, sslSock;
      nConns := 0;
      conns := new Conn?[MAX_CONNS + 1];
      minMaxFd := Max(sock, sslSock);
      maxFd := Max(sock, sslSock);
      readReady, writeReady := {}, {};
      readSet, writeSet := {sock, sslSock}, {};
      kernel := new Kernel({sock, sslSock});
    }

    // pl_ready, and what select leaves of the two sets.
    method Ready(rd: set<int>, wr: set<int>)
      modifies this`readReady, this`writeReady
      ensures readReady == rd * readSet && writeReady == wr * writeSet
    {
      readReady, writeReady := readSet, writeSet;
      readReady, writeReady := rd * readReady, wr * writeReady;
    }

    // pl_add_conn
    method AddConn(conn: Conn) returns (ok: bool)
      requires Slots() && conn.Shape()
      requires forall k :: 0 <= k < nConns ==> Apart(conns[k], conn)
      modifies this`nConns, this`readSet, conns, conn`idx
      ensures Slots() && ok == (old(nConns) < MAX_CONNS)
      ensures conns[..nConns] == old(conns[..nConns]) + if ok then [conn] else []
      ensures readSet == old(readSet) + if ok then {conn.fd} else {}
    {
      if nConns >= MAX_CONNS {
        return false;
      }
      readSet := readSet + {conn.fd};
      conn.idx := nConns;
      conns[nConns] := conn;
      nConns := nConns + 1;
      return true;
    }

    // pl_reset_conn
    method ResetConn(conn: Conn)
      requires conn.Shape() && conn.Valid() && Recorded(conn.cgi.Fds())
      modifies this`readSet, this`writeSet, kernel`open, conn`log, conn.req, conn.resp, conn.cgi, conn.buf
      ensures conn.Valid() && L(conn) == ServerSpec.ResetConn(old(L(conn)))
    {
      readSet := readSet + {conn.fd};
      writeSet := writeSet - {conn.fd};
      CloseWatched(conn.cgi);
      conn.buf.Reset();
      conn.req.Reset();
      conn.resp.Reset();
      conn.cgi.Reset(kernel);
      conn.log := EmptyLog;
    }

    // srv_in and srv_err leave read_set and are closed.
    method CloseWatched(cgi: Cgi)
      modifies this`readSet, kernel`open, cgi
      ensures readSet == Without(Without(old(readSet), old(cgi.srvIn)), old(cgi.srvErr))
      ensures kernel.open == Without(Without(old(kernel.open), old(cgi.srvIn)), old(cgi.srvErr))
      ensures cgi.Fds() == old(cgi.Fds()).(srvIn := Shut(old(cgi.srvIn)), srvErr := Shut(old(cgi.srvErr)))
    {
      if cgi.srvIn >= 0 {
        readSet := readSet - {cgi.srvIn};
        cgi.srvIn := Cgi.ClosePipe(kernel, cgi.srvIn);
      }
      if cgi.srvErr >= 0 {
        readSet := readSet - {cgi.srvErr};
        cgi.srvErr := Cgi.ClosePipe(kernel, cgi.srvErr);
      }
    }

    // pl_del_conn
    method DelConn(conn: Conn)
      requires Slots() && Holds(conn) && conn.Valid() && Recorded(conn.cgi.Fds())
      modifies this`nConns, this`readSet, this`writeSet, kernel`open, conns, conns[..nConns]`idx
      modifies conn`log, conn.req, conn.resp, conn.cgi, conn.buf
      ensures Slots() && conns[..nConns] == Swapped(old(conns[..nConns]), old(conn.idx))
      ensures Dropped(readSet, writeSet, kernel.open, kernel.lost) == DropConn(old(L(conn)))
    {
      ResetConn(conn);
      readSet := readSet - {conn.fd};
      kernel.Close(conn.fd);
      Unlist(conn);
    }

    method Unlist(conn: Conn)
      requires Slots() && Holds(conn)
      modifies this`nConns, conns, conns[..nConns]`idx
      ensures Slots() && conns[..nConns] == Swapped(old(conns[..nConns]), old(conn.idx))
    {
      var i := conn.idx;
      nConns := nConns - 1;
      conns[i] := conns[nConns];
      conns[i].idx := i;
      conns[nConns] := null;
    }
  }

  // Every descriptor field holds a descriptor or -1.
  ghost predicate Recorded(f: CgiFds) {
    f.srvIn >= -1 && f.srvOut >= -1 && f.srvErr >= -1 && f.cgiIn >= -1 && f.cgiOut >= -1 && f.cgiErr >= -1
  }
}
