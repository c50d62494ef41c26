/** What a client gets for a request that failed. */
module ErrorPages {
  import opened Text
  import opened Buffers
  import opened ConnSpec
  import opened Watch
  import opened Relay
  import opened Limits

  // ---------- the page as a client reads it ----------

  // A client that has `got` reads these header texts around the length of the
  // body, and the body behind them.
  predicate ReadsAs(got: string, t: HdrText, msg: string) {
    && t.pre <= got && LengthAt(got, |t.pre|) == Some(|msg|)
    && |t.post| + |msg| <= |got| && got[|got| - |msg|..] == msg
    && got[|got| - |msg| - |t.post|..|got| - |msg|] == t.post
  }

  // The page is cut at the end of the buffer: if and only if it fits, the
  // body is as long as the header says.
  lemma PageReads(t: HdrText, msg: string)
    ensures |Header(|msg|, t)| + |msg| <= BUFSZ ==> ReadsAs(ErrorPage(t, msg), t, msg)
    ensures ErrorPage(t, msg) <= Header(|msg|, t) + msg
    ensures |ErrorPage(t, msg)| == |Header(|msg|, t)| + |msg| <==> |Header(|msg|, t)| + |msg| <= BUFSZ
  {
    var page := Header(|msg|, t) + msg;
    if |page| <= BUFSZ {
      WholePrefix(page, BUFSZ);
      WholeReads(t, msg);
    }
  }

  lemma WholePrefix(s: string, n: nat)
    requires |s| <= n
    ensures Prefix(s, n) == s
  {
  }

  lemma WholeReads(t: HdrText, msg: string)
    ensures ReadsAs(Header(|msg|, t) + msg, t, msg)
  {
    var front := t.pre + LENGTH_FIELD + Dec(|msg|) + "\r\n";
    LengthReadBack(t.pre, |msg|, "\r\n" + t.post + msg);
    HeaderParts(|msg|, t, msg);
    TailParts(front, t.post, msg);
    assert Header(|msg|, t) == front + t.post;
  }

  lemma TailParts(front: string, post: string, msg: string)
    ensures var page := front + post + msg;
            page[|page| - |msg| - |post|..|page| - |msg|] == post && page[|page| - |msg|..] == msg
  {
  }

  // ---------- sending it ----------

  // The turns of a failed request while its page goes out: it is built and
  // offered anew in each.
  function ServeErrors(c: ConnVal, ns: seq<int>, t: HdrText, msg: string): (ConnVal, Call)
    decreases |ns|
  {
    if ns == [] then (c, NoCall)
    else
      var r := ServeStatic(c, ns[0], t, msg);
      if r.1 == NoCall then ServeErrors(r.0, ns[1..], t, msg) else r
  }

  // The client gets the front of the page again after every short send, and
  // the sends end with the first that takes all of it.
  lemma {:induction false} PagesSent(c: ConnVal, ns: seq<int>, t: HdrText, msg: string)
    requires c.resp.phase == RESP_ABORT && AllPositive(ns)
    ensures var r, page := ServeErrors(c, ns, t, msg), ErrorPage(t, msg);
            && r.0.log.sent == c.log.sent + Relayed(page, ns) && r.0.req == c.req
            && (ns != [] ==> r.0.resp.alive == c.req.head.alive && r.0.resp.clen == |msg|)
            && (r.1 == NoCall || r.1 == Succ)
            && (r.1 == Succ <==> exists i :: 0 <= i < |ns| && ns[i] >= |page|)
    decreases |ns|
  {
    var page := ErrorPage(t, msg);
    assert c.log.sent + "" == c.log.sent;
    if ns != [] {
      var r := SendErrorPage(c, ns[0], t, msg);
      assert page[..|page|] == page;
      PageNotEmpty(t, msg);
      if ns[0] < |page| {
        PagesSent(r.0, ns[1..], t, msg);
        Regrouped(c.log.sent, page[..ns[0]], Relayed(page, ns[1..]));
        if i :| 0 <= i < |ns| && ns[i] >= |page| {
          assert ns[1..][i - 1] >= |page|;
        }
      }
    }
  }

  lemma PageNotEmpty(t: HdrText, msg: string)
    ensures ErrorPage(t, msg) != ""
  {
    HeaderNotEmpty(|msg|, t);
  }

  // When the sends are over, the client has the page and nothing else, if and
  // only if the first send took all of it; and then it can read it, if the
  // page fits into the buffer.
  lemma ErrorPageGot(c: ConnVal, ns: seq<int>, t: HdrText, msg: string)
    requires c.resp.phase == RESP_ABORT && c.log.sent == "" && AllPositive(ns) && ServeErrors(c, ns, t, msg).1 == Succ
    ensures var got := ServeErrors(c, ns, t, msg).0.log.sent;
            && (got == ErrorPage(t, msg) <==> ns[0] >= |ErrorPage(t, msg)|)
            && (got == ErrorPage(t, msg) && |Header(|msg|, t)| + |msg| <= BUFSZ ==> ReadsAs(got, t, msg))
            && |got| >= |ErrorPage(t, msg)|
  {
    var page := ErrorPage(t, msg);
    PagesSent(c, ns, t, msg);
    PageReads(t, msg);
    RelayedEndsWhole(page, ns);
    assert "" + Relayed(page, ns) == Relayed(page, ns);
    if ns[0] < |page| {
      RelayedEndsWhole(page, ns[1..]);
    }
  }
}
