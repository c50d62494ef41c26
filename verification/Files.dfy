/** Which file answers a request: the first path that opens and maps. */
module Files {
  import opened Text
  import opened ConnSpec

  // What is open before the i-th path is tried.
  function OpenBefore(open: set<int>, tries: seq<Try>, i: nat): set<int>
    requires i <= |tries|
  {
    open + set k | 0 <= k < i && tries[k].Unmapped? :: tries[k].fd as int
  }

  // The i-th path opens with a descriptor that was free, and maps.
  predicate Maps(open: set<int>, tries: seq<Try>, i: nat)
    requires i < |tries|
  {
    tries[i].MappedAs? && tries[i].fd !in OpenBefore(open, tries, i)
  }

  // All of the first i paths fail.
  predicate NoneMaps(open: set<int>, tries: seq<Try>, i: nat)
    requires i <= |tries|
  {
    forall k :: 0 <= k < i ==> !Maps(open, tries, k)
  }

  lemma OpenAfter(open: set<int>, tries: seq<Try>, i: nat)
    requires tries != [] && i <= |tries[1..]|
    ensures var next := if tries[0].Unmapped? then open + {tries[0].fd as int} else open;
            OpenBefore(next, tries[1..], i) == OpenBefore(open, tries, i + 1)
  {
    var next := if tries[0].Unmapped? then open + {tries[0].fd as int} else open;
    var a, b := OpenBefore(next, tries[1..], i), OpenBefore(open, tries, i + 1);
    forall x | x in a
      ensures x in b
    {
      if x !in open && !(tries[0].Unmapped? && x == tries[0].fd) {
        var k :| 0 <= k < i && tries[1..][k].Unmapped? && tries[1..][k].fd == x;
        assert tries[k + 1] == tries[1..][k];
      }
    }
    forall x | x in b
      ensures x in a
    {
      if x !in open {
        var k :| 0 <= k < i + 1 && tries[k].Unmapped? && tries[k].fd == x;
        assert k > 0 ==> tries[1..][k - 1] == tries[k];
      }
    }
  }

  lemma MapsAfter(open: set<int>, tries: seq<Try>, i: nat)
    requires tries != [] && i < |tries[1..]|
    ensures var next := if tries[0].Unmapped? then open + {tries[0].fd as int} else open;
            Maps(next, tries[1..], i) <==> Maps(open, tries, i + 1)
  {
    OpenAfter(open, tries, i);
  }

  // The search tries the paths in turn, up to n of them.  It stops at the
  // first that maps, and has lost what it opened before.
  lemma {:induction false} FirstMapped(open: set<int>, tries: seq<Try>, n: nat) returns (i: nat)
    ensures i <= n && i <= |tries| && NoneMaps(open, tries, i)
    ensures var r := Lookup(open, tries, n);
            && (if i < n && i < |tries| then Maps(open, tries, i) && r.file == Some(tries[i].bytes) else r.file == None)
            && r.lost == OpenBefore(open, tries, i) - open
    decreases n
  {
    i := 0;
    if n > 0 && tries != [] && !Maps(open, tries, 0) {
      var next := if tries[0].Unmapped? then open + {tries[0].fd as int} else open;
      var j := FirstMapped(next, tries[1..], n - 1);
      i := j + 1;
      FirstFails(open, tries, n, next);
      OpenAfter(open, tries, j);
      forall k | 0 <= k < i
        ensures !Maps(open, tries, k)
      {
        if k > 0 {
          MapsAfter(open, tries, k - 1);
        }
      }
      if j < n - 1 && j < |tries[1..]| {
        MapsAfter(open, tries, j);
      }
    }
  }

  lemma FirstFails(open: set<int>, tries: seq<Try>, n: nat, next: set<int>)
    requires n > 0 && tries != [] && !Maps(open, tries, 0)
    requires next == if tries[0].Unmapped? then open + {tries[0].fd as int} else open
    ensures var r, q := Lookup(open, tries, n), Lookup(next, tries[1..], n - 1);
            r.file == q.file && r.lost == q.lost + (next - open)
  {
    assert OpenBefore(open, tries, 0) == open;
    if tries[0].Unmapped? && tries[0].fd in open {
      assert next == open;
    }
  }

  // The path asked for and both default pages are tried, and no more.
  lemma ThreeTries(a: Try, b: Try, fd: nat, file: string, open: set<int>)
    requires a == Missing && b == Missing && fd !in open
    ensures Lookup(open, [a, b, MappedAs(fd, file)], N_TRIES) == Found(Some(file), {})
    ensures Lookup(open, [a, b, Missing, MappedAs(fd, file)], N_TRIES) == Found(None, {})
  {
    assert [a, b, MappedAs(fd, file)][1..] == [b, MappedAs(fd, file)];
    assert [b, MappedAs(fd, file)][1..] == [MappedAs(fd, file)];
    var four := [a, b, Missing, MappedAs(fd, file)];
    assert four[1..][1..][1..] == [MappedAs(fd, file)];
    assert four[1..] == [b, Missing, MappedAs(fd, file)] && four[1..][1..] == [Missing, MappedAs(fd, file)];
  }
}
