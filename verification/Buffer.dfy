/** The connection buffer: a fixed array, a cursor and a size (buffer.c). */
module Buffers {
  const BUFSZ: nat := 8192

  // sz is -1 after a failed read from a CGI program (conn.c:452).
  datatype BufVal = BufVal(sz: int, bytes: string, dp: nat)
  {
    predicate Sane() {
      && -1 <= sz <= BUFSZ && |bytes| == (if sz < 0 then 0 else sz)
      && dp <= BUFSZ && (sz >= 0 ==> dp <= sz)
    }

    // The bytes in [data_p, data + sz).
    function Window(): string {
      if dp <= |bytes| then bytes[dp..] else ""
    }
  }

  function Filled(s: string): BufVal {
    BufVal(|s|, s, 0)
  }

  const EmptyBuf := Filled("")

  class Buf {
    const data: array<char>
    var data_p: nat
    var sz: int

    ghost predicate Valid()
      reads this
    {
      && data.Length == BUFSZ + 1
      && -1 <= sz <= BUFSZ && data_p <= BUFSZ && (sz >= 0 ==> data_p <= sz)
    }

    ghost function Val(): (b: BufVal)
      requires Valid()
      reads this, data
      ensures b.Sane()
    {
      BufVal(sz, if sz < 0 then "" else data[..sz], data_p)
    }

    constructor ()
      ensures Valid() && fresh(data) && Val() == EmptyBuf
    {
      data := new char[BUFSZ + 1];
      data_p, sz := 0, 0;
    }

    method Reset()
      modifies this`data_p, this`sz
      ensures data_p == 0 && sz == 0
    {
      data_p, sz := 0, 0;
    }

    // memcpy(data + at, s, |s|) followed by an update of the size: the bytes
    // in front stay, and `at` is the old end.
    method Append(s: string)
      requires Valid() && sz >= 0 && sz + |s| <= BUFSZ
      modifies this`sz, data
      ensures Valid() && data_p == old(data_p)
      ensures Val() == BufVal(old(sz) + |s|, old(Val()).bytes + s, old(data_p))
    {
      var at := sz;
      var i := 0;
      while i < |s|
        invariant 0 <= i <= |s|
        invariant data[..at + i] == old(data[..at]) + s[..i]
        modifies data
      {
        data[at + i] := s[i];
        i := i + 1;
        assert data[..at + i] == data[..at + i - 1] + [data[at + i - 1]];
      }
      sz := at + |s|;
      assert s[..|s|] == s;
    }

    // Overwrites the front of the buffer without touching cursor or size, as
    // a receive whose bytes are thrown away does (conn.c:97).
    method Scribble(s: string)
      requires Valid() && |s| <= BUFSZ
      modifies data
      ensures Val() == Scribbled(old(Val()), s)
    {
      var i := 0;
      while i < |s|
        invariant 0 <= i <= |s|
        invariant forall k :: 0 <= k < i ==> data[k] == s[k]
        invariant forall k :: i <= k < data.Length ==> data[k] == old(data[k])
      {
        data[i] := s[i];
        i := i + 1;
      }
      if sz >= 0 {
        assert data[..sz] == Scribbled(old(Val()), s).bytes;
      }
    }
  }

  function Scribbled(b: BufVal, s: string): BufVal {
    b.(bytes := if |s| <= |b.bytes| then s + b.bytes[|s|..] else s[..|b.bytes|])
  }
}
