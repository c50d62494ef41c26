/** Where the relays lose or repeat bytes, and exactly when they do not. */
module Limits {
  import opened Buffers
  import opened RequestSpec
  import opened ConnSpec

  // ---------- short writes to a program (conn.c:431-442) ----------

  // Answers of write for a window of n bytes, each taking what it says, until
  // all bytes are counted.
  predicate WritePattern(ks: seq<int>, n: nat)
    decreases |ks|
  {
    if n == 0 then ks == []
    else ks != [] && 0 < ks[0] <= n && WritePattern(ks[1..], n - ks[0])
  }

  lemma {:induction false} DeliverLength(w: string, left: nat, ks: seq<int>)
    requires left <= |w| && WritePattern(ks, left)
    ensures Deliver(w, left, ks).1 && |Deliver(w, left, ks).0| == left
    ensures left > 0 ==> Deliver(w, left, ks).0[0] == w[0]
    decreases |ks|
  {
    if left > 0 {
      DeliverLength(w, left - ks[0], ks[1..]);
    }
  }

  // A window that shows the mistake: the first byte differs from all others.
  function Marked(n: nat): string
    requires n > 0
  {
    ['a'] + seq(n - 1, _ => 'b')
  }

  // The program receives the window whatever its bytes are, if and only if
  // no write is short: a second write starts again at the front.
  lemma ShortWritesRepeat(n: nat, ks: seq<int>)
    requires n > 0 && WritePattern(ks, n)
    ensures (forall w: string {:trigger Deliver(w, n, ks)} :: |w| == n ==> Deliver(w, n, ks) == (w, true)) <==> ks[0] == n
  {
    if ks[0] == n {
      forall w: string | |w| == n
        ensures Deliver(w, n, ks) == (w, true)
      {
        assert w[..n] + "" == w;
      }
    } else {
      var w := Marked(n);
      DeliverLength(w, n - ks[0], ks[1..]);
      var rest := Deliver(w, n - ks[0], ks[1..]).0;
      assert Deliver(w, n, ks).0 == w[..ks[0]] + rest;
      assert Deliver(w, n, ks).0[ks[0]] == rest[0] == 'a';
      assert w[ks[0]] == 'b';
      assert |w| == n && Deliver(w, n, ks) != (w, true);
    }
  }

  // ---------- short sends of a program's answer (conn.c:475-482) ----------

  // The sends for one filled buffer: the server serves it until it is free to
  // read from the program again.
  function ServeAll(c: ConnVal, ns: seq<int>): ConnVal
    decreases |ns|
  {
    if ns == [] || c.cgi.bufPhase != BUF_SEND then c else ServeAll(ServeDynamic(c, ns[0]).0, ns[1..])
  }

  // What goes out for the window w: every send that takes less than all of it
  // is followed by one that starts over.
  function Relayed(w: string, ns: seq<int>): string
    decreases |ns|
  {
    if ns == [] then ""
    else if ns[0] >= |w| then w
    else Prefix(w, ns[0]) + Relayed(w, ns[1..])
  }

  predicate AllPositive(ns: seq<int>) {
    forall i :: 0 <= i < |ns| ==> ns[i] > 0
  }

  // One filled buffer, under any sends that are no errors.
  lemma {:induction false} ServedIsRelayed(c: ConnVal, ns: seq<int>)
    requires c.buf.Window() != "" && c.cgi.bufPhase == BUF_SEND && AllPositive(ns)
    ensures var d := ServeAll(c, ns);
            && d.log.sent == c.log.sent + Relayed(c.buf.Window(), ns) && d.buf == c.buf && d.cgi.phase == c.cgi.phase
            && (d.cgi.bufPhase == BUF_RECV <==> exists i :: 0 <= i < |ns| && ns[i] >= |c.buf.Window()|)
    decreases |ns|
  {
    var w := c.buf.Window();
    assert c.log.sent + "" == c.log.sent;
    if ns != [] {
      var d := ServeDynamic(c, ns[0]).0;
      assert w[..|w|] == w;
      if ns[0] < |w| {
        ServedIsRelayed(d, ns[1..]);
        Regrouped(c.log.sent, w[..ns[0]], Relayed(w, ns[1..]));
        if i :| 0 <= i < |ns| && ns[i] >= |w| {
          assert ns[1..][i - 1] >= |w|;
        }
      }
    }
  }

  lemma Regrouped(a: string, b: string, c: string)
    ensures a + b + c == a + (b + c)
  {
  }

  // When the buffer is free again the client has got its bytes once, if and
  // only if the first send took all of them.
  lemma ShortSendsRepeat(c: ConnVal, ns: seq<int>)
    requires c.buf.Window() != "" && c.cgi.bufPhase == BUF_SEND && AllPositive(ns)
    requires ServeAll(c, ns).cgi.bufPhase == BUF_RECV
    ensures ServeAll(c, ns).log.sent == c.log.sent + c.buf.Window() <==> ns[0] >= |c.buf.Window()|
    ensures |ServeAll(c, ns).log.sent| >= |c.log.sent| + |c.buf.Window()|
  {
    var w := c.buf.Window();
    ServedIsRelayed(c, ns);
    RelayedEndsWhole(w, ns);
    if ns[0] < |w| {
      RelayedEndsWhole(w, ns[1..]);
    }
  }

  lemma {:induction false} RelayedEndsWhole(w: string, ns: seq<int>)
    requires AllPositive(ns)
    ensures (exists i :: 0 <= i < |ns| && ns[i] >= |w|) ==> |Relayed(w, ns)| >= |w|
    decreases |ns|
  {
    if ns != [] {
      RelayedEndsWhole(w, ns[1..]);
      if i :| 0 < i < |ns| && ns[i] >= |w| {
        assert ns[1..][i - 1] >= |w|;
      }
    }
  }

  // ---------- receiving into a buffer that was not drained ----------

  // A receive in the body of a dynamic request counts the bytes that were in
  // the buffer already once more (conn.c:164).  The count stays right if and
  // only if there were none; and when the missing bytes arrive, as many bytes
  // of the body as were waiting are kept as a next request and cut off the
  // body.
  lemma UndrainedCountsTwice(g: Grammar, c: ConnVal, t: string)
    requires InBounds(c) && c.req.phase == REQ_BODY && c.req.line.kind == REQ_DYNAMIC
    requires t != "" && |t| <= BUFSZ - c.buf.sz && c.buf.sz >= 0
    ensures var w, d := c.buf.Window(), Recv(g, c, Got(t)).c;
            && d.log == c.log.(fed := c.log.fed + t, lossy := c.log.lossy || w != "")
            && (d.req.rsize == c.req.rsize - |t| <==> w == "")
            && (d.req.phase == REQ_DONE <==> |w| + |t| >= c.req.rsize)
            && (|t| == c.req.rsize ==>
                  && d.buf.Window() == (w + t)[..|t|] && |d.last.bytes| == d.last.sz
                  && (w != "" ==> d.last.bytes == (w + t)[|t|..])
                  && (w == "" ==> d.last == c.last && d.buf.Window() == t))
  {
    var e := Fed(c, t);
    BodyTaken(g, c, t);
    WindowGrows(c.buf, t);
    if |t| == c.req.rsize {
      CutBehind(e.buf, |c.buf.Window()|);
    }
  }

  lemma BodyTaken(g: Grammar, c: ConnVal, t: string)
    requires c.req.phase == REQ_BODY && t != "" && |t| <= BUFSZ - c.buf.sz
    ensures Recv(g, c, Got(t)).c == TakeBody(Fed(c, t))
  {
    assert Prefix(t, BUFSZ - c.buf.sz) == t;
  }

  lemma WindowGrows(b: BufVal, t: string)
    requires b.Sane() && b.sz >= 0
    ensures BufVal(b.sz + |t|, b.bytes + t, b.dp).Window() == b.Window() + t
  {
  }

  // Taking the last n bytes of the window off the buffer.
  lemma CutBehind(b: BufVal, n: nat)
    requires b.dp <= |b.bytes| && b.sz == |b.bytes| && n <= |b.Window()|
    ensures Suffix(b.bytes, n) == b.Window()[|b.Window()| - n..]
    ensures BufVal(b.sz - n, Prefix(b.bytes, |b.bytes| - n), b.dp).Window() == b.Window()[..|b.Window()| - n]
  {
    var m := |b.bytes| - n;
    assert b.bytes[m..] == b.bytes[b.dp..][m - b.dp..];
    assert b.bytes[..m][b.dp..] == b.bytes[b.dp..][..m - b.dp];
  }
}
