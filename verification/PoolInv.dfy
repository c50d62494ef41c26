/** The pool over whole passes and whole runs: ownership of descriptors,
    exactly-once service, the bound given to select. */
module PoolInv {
  import opened Text
  import opened RequestSpec
  import opened ConnSpec
  import opened ServerSpec
  import opened LoopInv

  ghost predicate Disjoint(conns: seq<ConnVal>) {
    forall i, j :: 0 <= i < j < |conns| ==> Own(conns[i]) !! Own(conns[j])
  }

  // Open descriptors are the listeners', lost ones, and those recorded in
  // connections.
  ghost predicate Accounted(p: PoolVal) {
    forall x :: x in p.open ==>
      x == p.sock || x == p.sslSock || x in p.lost || exists i :: 0 <= i < |p.conns| && x in Own(p.conns[i])
  }

  ghost predicate Listening(p: PoolVal) {
    && p.sock != p.sslSock && p.sock in p.R && p.sslSock in p.R
    && p.sock !in p.W && p.sslSock !in p.W
    && SetsOk(p.R, p.W, p.open, p.lost)
    && forall i :: 0 <= i < |p.conns| ==> p.sock !in Own(p.conns[i]) && p.sslSock !in Own(p.conns[i])
  }

  ghost predicate Members(p: PoolVal) {
    forall i :: 0 <= i < |p.conns| ==> Inv(At(p, i)) && Quiet(At(p, i))
  }

  ghost predicate PoolOk(p: PoolVal) {
    Disjoint(p.conns) && Accounted(p) && Listening(p) && Members(p) && |p.conns| <= MAX_CONNS
  }

  // ---------- the other connections ----------

  // The same connection, with its own descriptors in the same sets.
  ghost predicate Alike(l: Local, m: Local) {
    l.c == m.c && forall x :: x in Own(l.c) ==> (x in l.R <==> x in m.R) && (x in l.W <==> x in m.W)
  }

  // A step of one connection does not disturb another one.
  lemma BystanderKept(a: Local, b: Local, c: ConnVal)
    requires Frame(a, b) && Tidy(b)
    requires Inv(a.(c := c)) && Own(c) !! Own(a.c)
    ensures Inv(b.(c := c)) && Own(c) !! Own(b.c) && Alike(a.(c := c), b.(c := c))
  {
    var l, m := a.(c := c), b.(c := c);
    forall x | x in Own(c)
      ensures x !in Own(a.c) && x !in Own(b.c) && x !in b.lost
    {
      assert x in l.open;
    }
    assert m.R * Own(c) == l.R * Own(c) && m.W * Own(c) == l.W * Own(c);
  }

  lemma BystanderDropped(a: Local, R: set<int>, W: set<int>, open: set<int>, lost: set<int>, c: ConnVal)
    requires Released(a, R, W, open, lost)
    requires Inv(a.(c := c)) && Own(c) !! Own(a.c)
    ensures Inv(Local(c, R, W, open, lost)) && Alike(a.(c := c), Local(c, R, W, open, lost))
  {
    var l, m := a.(c := c), Local(c, R, W, open, lost);
    forall x | x in Own(c)
      ensures x !in Own(a.c) && x !in lost
    {
      assert x in l.open;
    }
    assert m.R * Own(c) == l.R * Own(c) && m.W * Own(c) == l.W * Own(c);
  }

  lemma AlikeQuiet(l: Local, m: Local)
    requires Alike(l, m) && FdsOk(l.c)
    ensures Quiet(l) <==> Quiet(m)
  {
    assert l.c.fd in Own(l.c);
  }

  // ---------- one turn ----------

  lemma KeptOk(p: PoolVal, i: nat, b: Local)
    requires PoolOk(p) && i < |p.conns| && Inv(b) && Quiet(b) && Frame(At(p, i), b)
    ensures PoolOk(Put(p, i, b))
  {
    KeptMembers(p, i, b);
    KeptAccounted(p, i, b);
    KeptListening(p, i, b);
  }

  lemma KeptMembers(p: PoolVal, i: nat, b: Local)
    requires PoolOk(p) && i < |p.conns| && Inv(b) && Quiet(b) && Frame(At(p, i), b)
    ensures Members(Put(p, i, b)) && Disjoint(Put(p, i, b).conns)
  {
    var q := Put(p, i, b);
    assert At(q, i) == b;
    forall j | 0 <= j < |q.conns| && j != i
      ensures Inv(At(q, j)) && Quiet(At(q, j)) && Own(q.conns[j]) !! Own(b.c)
    {
      assert Inv(At(p, j)) && Quiet(At(p, j));
      BystanderKept(At(p, i), b, p.conns[j]);
      assert At(q, j) == b.(c := p.conns[j]) && At(p, j) == At(p, i).(c := p.conns[j]);
      AlikeQuiet(At(p, j), At(q, j));
    }
  }

  lemma KeptListening(p: PoolVal, i: nat, b: Local)
    requires Listening(p) && i < |p.conns| && Inv(b) && Frame(At(p, i), b)
    ensures Listening(Put(p, i, b))
  {
    assert p.sock !in Own(p.conns[i]) && p.sslSock !in Own(p.conns[i]);
    assert p.sock !in Own(b.c) && p.sslSock !in Own(b.c);
  }

  lemma KeptAccounted(p: PoolVal, i: nat, b: Local)
    requires PoolOk(p) && i < |p.conns| && Frame(At(p, i), b)
    ensures Accounted(Put(p, i, b))
  {
    var q := Put(p, i, b);
    forall x | x in q.open && x != p.sock && x != p.sslSock && x !in q.lost
      ensures exists j :: 0 <= j < |q.conns| && x in Own(q.conns[j])
    {
      if x in Own(b.c) {
        assert x in Own(q.conns[i]);
      } else {
        assert x in p.open;
        var j :| 0 <= j < |p.conns| && x in Own(p.conns[j]);
        assert j != i;
        assert q.conns[j] == p.conns[j];
      }
    }
  }

  lemma SwapRemoveAt(conns: seq<ConnVal>, i: nat)
    requires i < |conns|
    ensures var r := SwapRemove(conns, i);
            && |r| == |conns| - 1
            && forall k :: 0 <= k < |r| ==> r[k] == if k == i then conns[|conns| - 1] else conns[k]
  {
  }

  lemma DroppedOk(p: PoolVal, i: nat, R: set<int>, W: set<int>, open: set<int>, lost: set<int>)
    requires PoolOk(p) && i < |p.conns| && Released(At(p, i), R, W, open, lost)
    ensures PoolOk(Remove(p, i, R, W, open, lost))
  {
    SwapRemoveAt(p.conns, i);
    DroppedMembers(p, i, R, W, open, lost);
    DroppedAccounted(p, i, R, W, open, lost);
    DroppedListening(p, i, R, W, open, lost);
  }

  lemma DroppedMembers(p: PoolVal, i: nat, R: set<int>, W: set<int>, open: set<int>, lost: set<int>)
    requires PoolOk(p) && i < |p.conns| && Released(At(p, i), R, W, open, lost)
    ensures Members(Remove(p, i, R, W, open, lost))
  {
    var q := Remove(p, i, R, W, open, lost);
    SwapRemoveAt(p.conns, i);
    forall k | 0 <= k < |q.conns|
      ensures Inv(At(q, k)) && Quiet(At(q, k))
    {
      var j := if k == i then |p.conns| - 1 else k;
      OtherStays(p, i, R, W, open, lost, j);
      assert At(q, k) == Local(p.conns[j], R, W, open, lost);
    }
  }

  lemma OtherStays(p: PoolVal, i: nat, R: set<int>, W: set<int>, open: set<int>, lost: set<int>, j: nat)
    requires PoolOk(p) && i < |p.conns| && j < |p.conns| && i != j && Released(At(p, i), R, W, open, lost)
    ensures var l := Local(p.conns[j], R, W, open, lost);
            Inv(l) && Quiet(l) && Alike(At(p, j), l)
  {
    assert Inv(At(p, j)) && Quiet(At(p, j));
    BystanderDropped(At(p, i), R, W, open, lost, p.conns[j]);
    AlikeQuiet(At(p, j), Local(p.conns[j], R, W, open, lost));
  }

  lemma DroppedListening(p: PoolVal, i: nat, R: set<int>, W: set<int>, open: set<int>, lost: set<int>)
    requires Listening(p) && i < |p.conns| && Released(At(p, i), R, W, open, lost)
    ensures Listening(Remove(p, i, R, W, open, lost))
  {
    SwapRemoveAt(p.conns, i);
  }

  lemma DroppedAccounted(p: PoolVal, i: nat, R: set<int>, W: set<int>, open: set<int>, lost: set<int>)
    requires PoolOk(p) && i < |p.conns| && Released(At(p, i), R, W, open, lost)
    ensures Accounted(Remove(p, i, R, W, open, lost))
  {
    var q := Remove(p, i, R, W, open, lost);
    SwapRemoveAt(p.conns, i);
    forall x | x in q.open && x != p.sock && x != p.sslSock && x !in q.lost
      ensures exists k :: 0 <= k < |q.conns| && x in Own(q.conns[k])
    {
      assert x in p.open && x !in Own(p.conns[i]);
      var j :| 0 <= j < |p.conns| && x in Own(p.conns[j]);
      var k := if j == |p.conns| - 1 then i else j;
      assert q.conns[k] == p.conns[j];
    }
  }

  // Connections not served yet are not ready to be read once complete.
  ghost predicate NotYetRead(s: Pass, rd: set<int>) {
    forall j :: s.i <= j < |s.p.conns| && s.p.conns[j].req.phase == REQ_DONE ==> s.p.conns[j].fd !in rd
  }

  lemma TurnOk(g: Grammar, s: Pass, rd: set<int>, wr: set<int>, env: Env)
    requires s.i < |s.p.conns| && PoolOk(s.p) && NotYetRead(s, rd)
    ensures var t := Turn(g, s, rd, wr, env); PoolOk(t.p) && NotYetRead(t, rd)
  {
    var a := At(s.p, s.i);
    assert Inv(a);
    ServeOk(g, a, rd, wr, env);
    match Serve(g, a, rd, wr, env)
    case Kept(b) => KeptOk(s.p, s.i, b);
    case Dropped(R, W, open, lost) =>
      DroppedOk(s.p, s.i, R, W, open, lost);
      SlotRefilled(s, rd);
  }

  // The connection that refills a slot was not read yet either.
  lemma SlotRefilled(s: Pass, rd: set<int>)
    requires s.i < |s.p.conns| && NotYetRead(s, rd)
    ensures var conns := SwapRemove(s.p.conns, s.i);
            forall j :: s.i <= j < |conns| && conns[j].req.phase == REQ_DONE ==> conns[j].fd !in rd
  {
    SwapRemoveAt(s.p.conns, s.i);
  }

  lemma {:induction false} TurnsOk(g: Grammar, s: Pass, rd: set<int>, wr: set<int>, envs: seq<Env>)
    requires s.i <= |s.p.conns| && |envs| == |s.p.conns| - s.i
    requires PoolOk(s.p) && NotYetRead(s, rd)
    ensures PoolOk(Turns(g, s, rd, wr, envs).p)
    decreases |envs|
  {
    if envs != [] {
      TurnOk(g, s, rd, wr, envs[0]);
      TurnsOk(g, Turn(g, s, rd, wr, envs[0]), rd, wr, envs[1..]);
    }
  }

  // ---------- exactly-once service ----------

  function Fds(conns: seq<ConnVal>): seq<int> {
    seq(|conns|, i requires 0 <= i < |conns| => conns[i].fd)
  }

  lemma SwapRemoveKeepsOthers(conns: seq<ConnVal>, i: nat, k: nat)
    requires k <= i < |conns|
    ensures multiset(SwapRemove(conns, i)[k..]) + multiset{conns[i]} == multiset(conns[k..])
  {
    var last := |conns| - 1;
    assert conns[k..] == conns[k..last] + [conns[last]];
    if i == last {
      assert SwapRemove(conns, i)[k..] == conns[k..last];
    } else {
      assert conns[k..last] == conns[k..i] + [conns[i]] + conns[i + 1..last];
      assert SwapRemove(conns, i)[k..] == conns[k..i] + [conns[last]] + conns[i + 1..last];
    }
  }

  // Every connection of the pool is served exactly once in a pass, and from
  // the state in which the pass found it, although drops move the last entry
  // into the current slot.
  lemma {:induction false} ServedOnce(g: Grammar, s: Pass, rd: set<int>, wr: set<int>, envs: seq<Env>)
    requires s.i <= |s.p.conns| && |envs| == |s.p.conns| - s.i
    ensures multiset(Turns(g, s, rd, wr, envs).served) == multiset(s.served) + multiset(s.p.conns[s.i..])
    decreases |envs|
  {
    if envs != [] {
      ServedTurn(g, s, rd, wr, envs[0]);
      ServedOnce(g, Turn(g, s, rd, wr, envs[0]), rd, wr, envs[1..]);
    } else {
      assert s.p.conns[s.i..] == [];
    }
  }

  // Served and still to be served, in one turn.
  lemma ServedTurn(g: Grammar, s: Pass, rd: set<int>, wr: set<int>, env: Env)
    requires s.i < |s.p.conns|
    ensures var t := Turn(g, s, rd, wr, env);
            multiset(t.served) + multiset(t.p.conns[t.i..]) == multiset(s.served) + multiset(s.p.conns[s.i..])
  {
    match Serve(g, At(s.p, s.i), rd, wr, env)
    case Kept(l) => OneServed(s.p.conns, s.p.conns[s.i := l.c], s.i);
    case Dropped(_, _, _, _) => SwapRemoveKeepsOthers(s.p.conns, s.i, s.i);
  }

  lemma OneServed(conns: seq<ConnVal>, now: seq<ConnVal>, i: nat)
    requires i < |conns| && |now| == |conns| && now[i + 1..] == conns[i + 1..]
    ensures multiset(now[i + 1..]) + multiset{conns[i]} == multiset(conns[i..])
  {
    assert conns[i..] == [conns[i]] + conns[i + 1..];
  }

  lemma SwapRemoveFds(conns: seq<ConnVal>, i: nat)
    requires i < |conns|
    ensures multiset(Fds(SwapRemove(conns, i))) + multiset{conns[i].fd} == multiset(Fds(conns))
  {
    var last, f := |conns| - 1, Fds(conns);
    SwapRemoveAt(conns, i);
    assert f == f[..last] + [f[last]];
    if i == last {
      assert Fds(SwapRemove(conns, i)) == f[..last];
    } else {
      assert f[..last] == f[..i] + [f[i]] + f[i + 1..last];
      assert Fds(SwapRemove(conns, i)) == f[..i] + [f[last]] + f[i + 1..last];
    }
  }

  // Descriptors of the pool together with those dropped so far.
  ghost function Ever(s: Pass): multiset<int> {
    multiset(Fds(s.p.conns)) + multiset(Fds(s.dropped))
  }

  lemma SurvivorsTurn(g: Grammar, s: Pass, rd: set<int>, wr: set<int>, env: Env)
    requires s.i < |s.p.conns| && PoolOk(s.p) && NotYetRead(s, rd)
    ensures Ever(Turn(g, s, rd, wr, env)) == Ever(s)
  {
    var a := At(s.p, s.i);
    assert Inv(a);
    ServeOk(g, a, rd, wr, env);
    var o := Serve(g, a, rd, wr, env);
    if o.Kept? {
      FdsKept(s.p.conns, s.i, o.l.c);
    } else {
      SwapRemoveFds(s.p.conns, s.i);
      FdsAdded(s.dropped, a.c);
    }
  }

  lemma FdsKept(conns: seq<ConnVal>, i: nat, c: ConnVal)
    requires i < |conns| && c.fd == conns[i].fd
    ensures Fds(conns[i := c]) == Fds(conns)
  {
  }

  lemma FdsAdded(conns: seq<ConnVal>, c: ConnVal)
    ensures Fds(conns + [c]) == Fds(conns) + [c.fd]
  {
  }

  // The survivors of a pass are precisely those not dropped.
  lemma {:induction false} Survivors(g: Grammar, s: Pass, rd: set<int>, wr: set<int>, envs: seq<Env>)
    requires s.i <= |s.p.conns| && |envs| == |s.p.conns| - s.i
    requires PoolOk(s.p) && NotYetRead(s, rd)
    ensures Ever(Turns(g, s, rd, wr, envs)) == Ever(s)
    decreases |envs|
  {
    if envs != [] {
      TurnOk(g, s, rd, wr, envs[0]);
      SurvivorsTurn(g, s, rd, wr, envs[0]);
      Survivors(g, Turn(g, s, rd, wr, envs[0]), rd, wr, envs[1..]);
    }
  }

  // ---------- the bound given to select ----------

  ghost predicate Covered(s: Pass) {
    && s.max >= MinMaxFd(s.p)
    && forall j :: 0 <= j < s.i && j < |s.p.conns| ==> MaxWith(s.max, s.p.conns[j]) == s.max
  }

  lemma {:induction false} TurnsCovered(g: Grammar, s: Pass, rd: set<int>, wr: set<int>, envs: seq<Env>)
    requires s.i <= |s.p.conns| && |envs| == |s.p.conns| - s.i && Covered(s)
    ensures Covered(Turns(g, s, rd, wr, envs))
    decreases |envs|
  {
    if envs != [] {
      var t := Turn(g, s, rd, wr, envs[0]);
      if Serve(g, At(s.p, s.i), rd, wr, envs[0]).Dropped? {
        SwapRemoveAt(s.p.conns, s.i);
      }
      TurnsCovered(g, t, rd, wr, envs[1..]);
    }
  }

  ghost predicate Bounded(p: PoolVal) {
    forall x :: x in p.R || x in p.W ==> x <= p.maxFd
  }

  lemma CoveredIsBounded(t: Pass)
    requires Covered(t) && t.i == |t.p.conns| && PoolOk(t.p)
    ensures Bounded(t.p.(maxFd := t.max))
  {
    forall x | x in t.p.R || x in t.p.W
      ensures x <= t.max
    {
      assert x in t.p.open;
      if x != t.p.sock && x != t.p.sslSock {
        var i :| 0 <= i < |t.p.conns| && x in Own(t.p.conns[i]);
        assert Inv(At(t.p, i));
        assert x in t.p.R ==> x in t.p.R * Own(t.p.conns[i]);
        assert x in t.p.W ==> x in t.p.W * Own(t.p.conns[i]);
      }
    }
  }

  // ---------- runs ----------

  lemma FreshConnOk(l: Local)
    requires l.c == FreshConn(l.c.fd) && l.c.fd > 0 && l.c.fd in l.R && l.c.fd !in l.W && l.c.fd in l.open
    requires SetsOk(l.R, l.W, l.open, l.lost) && l.c.fd !in l.lost
    ensures Inv(l) && Quiet(l) && Own(l.c) == {l.c.fd}
  {
  }

  lemma AcceptOk(p: PoolVal, answer: Option<nat>, usable: bool, rd: set<int>)
    requires PoolOk(p)
    ensures PoolOk(Accept(p, answer, usable))
    ensures NotYetRead(StartPass(p), rd) ==> NotYetRead(StartPass(Accept(p, answer, usable)), rd)
  {
    var q := Accept(p, answer, usable);
    if q != p {
      NewMember(p, answer.value);
      AcceptAccounted(p, answer.value);
    }
  }

  lemma NewMember(p: PoolVal, fd: nat)
    requires PoolOk(p) && fd > 0 && fd !in p.open
    ensures var q := p.(conns := p.conns + [FreshConn(fd)], R := p.R + {fd}, open := p.open + {fd});
            Members(q) && Disjoint(q.conns)
  {
    var q, n := p.(conns := p.conns + [FreshConn(fd)], R := p.R + {fd}, open := p.open + {fd}), |p.conns|;
    FreshConnOk(At(q, n));
    forall j | 0 <= j < n
      ensures Inv(At(q, j)) && Quiet(At(q, j)) && Own(q.conns[j]) !! Own(q.conns[n])
    {
      assert Inv(At(p, j)) && Quiet(At(p, j));
      BystanderNew(At(p, j), fd);
      assert At(q, j) == At(p, j).(R := q.R, open := q.open);
    }
  }

  // A new descriptor does not disturb a connection.
  lemma BystanderNew(l: Local, fd: nat)
    requires Inv(l) && Quiet(l) && fd > 0 && fd !in l.open
    ensures var m := l.(R := l.R + {fd}, open := l.open + {fd});
            Inv(m) && Quiet(m) && Own(l.c) !! Own(FreshConn(fd)) && Alike(l, m)
  {
    assert fd !in Own(l.c);
    assert (l.R + {fd}) * Own(l.c) == l.R * Own(l.c);
  }

  lemma AcceptAccounted(p: PoolVal, fd: nat)
    requires Accounted(p) && fd > 0
    ensures Accounted(p.(conns := p.conns + [FreshConn(fd)], open := p.open + {fd}))
  {
    var q := p.(conns := p.conns + [FreshConn(fd)], open := p.open + {fd});
    forall x | x in q.open && x != q.sock && x != q.sslSock && x !in q.lost
      ensures exists i :: 0 <= i < |q.conns| && x in Own(q.conns[i])
    {
      if x == fd {
        assert x in Own(q.conns[|p.conns|]);
      } else {
        var i :| 0 <= i < |p.conns| && x in Own(p.conns[i]);
        assert q.conns[i] == p.conns[i];
      }
    }
  }

  lemma AcceptsOk(p: PoolVal, rd: set<int>, x: PassIn)
    requires PoolOk(p) && rd <= p.R
    ensures PoolOk(Accepts(p, rd, x)) && NotYetRead(StartPass(Accepts(p, rd, x)), rd)
  {
    forall j | 0 <= j < |p.conns| && p.conns[j].req.phase == REQ_DONE
      ensures p.conns[j].fd !in rd
    {
      assert Quiet(At(p, j));
    }
    var p1 := if p.sock in rd then Accept(p, x.first, x.firstUsable) else p;
    AcceptOk(p, x.first, x.firstUsable, rd);
    AcceptOk(p1, x.second, x.secondUsable, rd);
  }

  lemma PassOk(g: Grammar, p: PoolVal, x: PassIn)
    requires PoolOk(p)
    ensures PoolOk(EndOfPass(g, p, x).p) && Covered(EndOfPass(g, p, x))
  {
    var rd, wr := x.rd * p.R, x.wr * p.W;
    var p1 := Accepts(p, rd, x);
    AcceptsOk(p, rd, x);
    TurnsOk(g, StartPass(p1), rd, wr, Padded(x.envs, |p1.conns|));
    TurnsCovered(g, StartPass(p1), rd, wr, Padded(x.envs, |p1.conns|));
  }

  lemma RoundOk(g: Grammar, p: PoolVal, x: PassIn)
    requires PoolOk(p) && Bounded(p)
    ensures PoolOk(Round(g, p, x)) && Bounded(Round(g, p, x))
  {
    if x.selected {
      PassOk(g, p, x);
      var t := EndOfPass(g, p, x);
      CoveredIsBounded(t);
      SamePool(t.p, t.max);
    }
  }

  lemma SamePool(p: PoolVal, max: int)
    requires PoolOk(p)
    ensures PoolOk(p.(maxFd := max))
  {
    var q := p.(maxFd := max);
    forall j | 0 <= j < |p.conns|
      ensures Inv(At(q, j)) && Quiet(At(q, j))
    {
      assert At(q, j) == At(p, j) && Inv(At(p, j)) && Quiet(At(p, j));
    }
  }

  // In every state a run can reach, connections are consistent and own their
  // descriptors, and select is given a large enough bound.
  lemma {:induction false} EveryRun(g: Grammar, sock: nat, sslSock: nat, xs: seq<PassIn>)
    requires sock != sslSock
    ensures var p := Run(g, NewPool(sock, sslSock), xs); PoolOk(p) && Bounded(p)
    decreases |xs|
  {
    if xs != [] {
      EveryRun(g, sock, sslSock, xs[..|xs| - 1]);
      RoundOk(g, Run(g, NewPool(sock, sslSock), xs[..|xs| - 1]), xs[|xs| - 1]);
    }
  }

  ghost function AllOwned(conns: seq<ConnVal>): set<int> {
    set i, x | 0 <= i < |conns| && x in Own(conns[i]) :: x
  }

  lemma OpenFds(p: PoolVal)
    requires PoolOk(p)
    ensures p.open == {p.sock, p.sslSock} + AllOwned(p.conns) + p.lost
    ensures {p.sock, p.sslSock} !! AllOwned(p.conns) !! p.lost
  {
    forall x | x in AllOwned(p.conns)
      ensures x in p.open && x !in p.lost
    {
      var i :| 0 <= i < |p.conns| && x in Own(p.conns[i]);
      assert Inv(At(p, i));
    }
    forall x | x in p.open
      ensures x in {p.sock, p.sslSock} + AllOwned(p.conns) + p.lost
    {
    }
  }

  // What the invariant says about descriptors: the open ones are the two
  // listeners, those recorded in live connections, each in one of them, and
  // the lost ones; the sets for select hold only what the server waits for.
  lemma Ownership(p: PoolVal)
    requires PoolOk(p)
    ensures p.open == {p.sock, p.sslSock} + AllOwned(p.conns) + p.lost
    ensures {p.sock, p.sslSock} !! AllOwned(p.conns) !! p.lost
    ensures forall i, j :: 0 <= i < j < |p.conns| ==> Own(p.conns[i]) !! Own(p.conns[j])
    ensures forall x :: x in p.R && x != p.sock && x != p.sslSock ==>
              exists i :: 0 <= i < |p.conns| && x in {p.conns[i].fd, p.conns[i].cgi.fds.srvIn, p.conns[i].cgi.fds.srvErr}
    ensures forall x :: x in p.W ==> exists i :: 0 <= i < |p.conns| && x == p.conns[i].fd
  {
    forall i | 0 <= i < |p.conns|
      ensures p.R * Own(p.conns[i]) <= {p.conns[i].fd, p.conns[i].cgi.fds.srvIn, p.conns[i].cgi.fds.srvErr}
      ensures p.W * Own(p.conns[i]) <= {p.conns[i].fd}
    {
      assert Inv(At(p, i));
    }
    OpenFds(p);
    forall x | (x in p.R || x in p.W) && x != p.sock && x != p.sslSock
      ensures exists i :: 0 <= i < |p.conns| && x in Own(p.conns[i])
    {
      assert x in p.open;
    }
    forall x | x in p.R && x != p.sock && x != p.sslSock
      ensures exists i :: 0 <= i < |p.conns| && x in {p.conns[i].fd, p.conns[i].cgi.fds.srvIn, p.conns[i].cgi.fds.srvErr}
    {
      var i :| 0 <= i < |p.conns| && x in Own(p.conns[i]);
      assert x in p.R * Own(p.conns[i]);
    }
    forall x | x in p.W
      ensures exists i :: 0 <= i < |p.conns| && x == p.conns[i].fd
    {
      var i :| 0 <= i < |p.conns| && x in Own(p.conns[i]);
      assert x in p.W * Own(p.conns[i]);
    }
  }
}
