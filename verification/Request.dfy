/** The request object: the line parser and the printer as index loops over
    a buffer (request.c). */
module Requests {
  import opened Text
  import opened Buffers
  import opened RequestSpec
  import opened PackSpec

  class Request {
    var verb: Method
    var uri: string
    var params: Option<string>
    var version: string
    var host: string
    var clen: int
    var alive: bool
    var hdrs: seq<Hdr>
    var rsize: int
    var phase: ReqPhase
    var kind: ReqType
    const lastBuf: Buf

    ghost function Val(): ReqVal
      reads this
    {
      ReqVal(ReqLine(verb, uri, params, version, kind), Head(), rsize, phase)
    }

    ghost function Head(): ReqHead
      reads this
    {
      ReqHead(host, clen, alive, hdrs)
    }

    constructor ()
      ensures Val() == Blank && fresh(lastBuf) && fresh(lastBuf.data)
      ensures lastBuf.Valid() && lastBuf.Val() == EmptyBuf
    {
      lastBuf := new Buf();
      new;
      Reset();
    }

    method Reset()
      modifies this
      ensures Val() == Blank
    {
      verb, uri, params, version, host := OTHER, "", None, "", "";
      clen, rsize, alive, hdrs := -1, 0, true, [];
      phase, kind := REQ_START, REQ_STATIC;
    }

    // The bytes w = [lo, hi) of the buffer as a C string of at most cap bytes.
    static method CString(buf: Buf, lo: nat, hi: nat, cap: nat, ghost w: string) returns (s: string)
      requires lo <= hi <= buf.data.Length && buf.data[lo..hi] == w
      ensures s == StrNCpy0(w, cap)
    {
      var tmp := ToArray(buf, lo, hi, cap, w);
      var n := StrLen(tmp);
      s := tmp[..n];
    }

    static method ToArray(buf: Buf, lo: nat, hi: nat, cap: nat, ghost w: string) returns (str: array<char>)
      requires lo <= hi <= buf.data.Length && buf.data[lo..hi] == w
      ensures fresh(str) && '\0' in str[..]
      ensures CutNul(str[..]) == StrNCpy0(w, cap)
    {
      str := new char[cap + 1];
      var n := if hi - lo < cap then hi - lo else cap;
      assert buf.data[lo..hi][..n] == buf.data[lo..lo + n];
      StrNCpy(str, buf.data, lo, n, w[..n]);
    }

    // The same, stripped in place.
    static method Stripped(buf: Buf, lo: nat, hi: nat, cap: nat, ghost w: string) returns (s: string)
      requires lo <= hi <= buf.data.Length && buf.data[lo..hi] == w
      ensures s == Trim(StrNCpy0(w, cap))
    {
      var str := ToArray(buf, lo, hi, cap, w);
      StrStrip(str);
      var n := StrLen(str);
      s := str[..n];
    }

    // ---------- req_parse ----------

    // The line that starts at `base` is in the buffer.
    static ghost predicate Holds(buf: Buf, base: nat, line: string)
      reads buf, buf.data
    {
      && buf.Valid() && buf.sz >= 0 && base + |line| <= buf.sz
      && IsLine(line)
      && forall k :: base <= k < base + |line| ==> buf.data[k] == line[k - base]
    }

    static lemma SliceHeld(buf: Buf, base: nat, line: string, lo: nat, hi: nat)
      requires Holds(buf, base, line) && lo <= hi <= |line|
      ensures buf.data[base + lo..base + hi] == line[lo..hi]
    {
    }

    // The macro proceed_inline: [p, data_p) becomes the next word.
    static method ProceedInline(buf: Buf, ghost base: nat, ghost line: string) returns (p: nat)
      requires Holds(buf, base, line) && base <= buf.data_p < base + |line|
      modifies buf`data_p
      ensures Holds(buf, base, line) && base <= p <= buf.data_p < base + |line|
      ensures NextWord(line, old(buf.data_p) - base) == Word(p - base, buf.data_p - base)
    {
      PassBlanks(buf, base, line);
      p := buf.data_p;
      while buf.data_p < buf.sz && !IsSpace(buf.data[buf.data_p])
        invariant p <= buf.data_p < base + |line|
        invariant SkipWord(line, p - base) == SkipWord(line, buf.data_p - base)
      {
        At(buf, base, line, buf.data_p);
        buf.data_p := buf.data_p + 1;
      }
      At(buf, base, line, buf.data_p);
    }

    // The first loop of both macros.
    static method PassBlanks(buf: Buf, ghost base: nat, ghost line: string)
      requires Holds(buf, base, line) && base <= buf.data_p < base + |line|
      modifies buf`data_p
      ensures buf.data_p == base + SkipBlanks(line, old(buf.data_p) - base) < base + |line|
    {
      ghost var i := buf.data_p - base;
      while buf.data_p < buf.sz && IsBlank(buf.data[buf.data_p])
        invariant base <= buf.data_p < base + |line|
        invariant SkipBlanks(line, i) == SkipBlanks(line, buf.data_p - base)
      {
        At(buf, base, line, buf.data_p);
        buf.data_p := buf.data_p + 1;
      }
      At(buf, base, line, buf.data_p);
    }

    // The macro proceed_line: [p, data_p) becomes the line without its
    // leading blanks and its '\n'.
    static method ProceedLine(buf: Buf, ghost base: nat, ghost line: string) returns (p: nat)
      requires Holds(buf, base, line) && buf.data_p == base
      modifies buf`data_p
      ensures Holds(buf, base, line)
      ensures p == base + SkipBlanks(line, 0) && buf.data_p == base + |line| - 1 && p <= buf.data_p
      ensures p < buf.data_p ==> line[p - base] != '\n'
    {
      PassBlanks(buf, base, line);
      p := buf.data_p;
      IndexFromFirst(line, '\n', 0);
      while buf.data_p < buf.sz && buf.data[buf.data_p] != '\n'
        invariant p <= buf.data_p < base + |line|
      {
        At(buf, base, line, buf.data_p);
        buf.data_p := buf.data_p + 1;
      }
      At(buf, base, line, buf.data_p);
    }

    static lemma At(buf: Buf, base: nat, line: string, k: nat)
      requires Holds(buf, base, line) && base <= k < base + |line|
      ensures buf.data[k] == line[k - base]
    {
    }

    // The macro eol.  p[-1] in front of the buffer is read as "not '\r'".
    static method Eol(buf: Buf, ghost base: nat, ghost line: string, p: nat) returns (b: bool)
      requires Holds(buf, base, line) && base <= p <= buf.data_p < base + |line|
      requires p > base || base == 0 || buf.data[base - 1] != '\r'
      requires p < buf.data_p ==> line[p - base] != '\n'
      ensures b <==> AtLineEnd(line, p - base)
      ensures b ==> p == buf.data_p == base + |line| - 1
    {
      b := p == buf.data_p && p < buf.sz && p > 0 && buf.data[p - 1] == '\r' && buf.data[p] == '\n';
      At(buf, base, line, p);
      if p > base {
        At(buf, base, line, p - 1);
      }
      IndexFromFirst(line, '\n', 0);
    }

    // A word of the request line, copied out.
    static method TakeWord(buf: Buf, ghost base: nat, ghost line: string, cap: nat) returns (p: nat, s: string)
      requires Holds(buf, base, line) && base <= buf.data_p < base + |line|
      modifies buf`data_p
      ensures Holds(buf, base, line) && base <= p <= buf.data_p < base + |line|
      ensures var w := NextWord(line, old(buf.data_p) - base);
              w == Word(p - base, buf.data_p - base) && s == WordText(line, w, cap)
    {
      p := ProceedInline(buf, base, line);
      SliceHeld(buf, base, line, p - base, buf.data_p - base);
      s := CString(buf, p, buf.data_p, cap, line[p - base..buf.data_p - base]);
    }

    // Phase REQ_START of req_parse: method, uri, version, end of line.
    method ParseRequestLine(buf: Buf, ghost line: string, ghost g: Grammar) returns (rc: int)
      requires Holds(buf, buf.data_p, line) && phase == REQ_START && IsLiso(g)
      modifies this, buf`data_p
      ensures buf.Valid()
      ensures (Val(), -rc) == g(old(Val()), line)
      ensures rc == 0 ==> buf.data_p == old(buf.data_p) + |line|
    {
      ghost var base, v, w := buf.data_p, Val(), NextWord(line, 0);
      var p, name := TakeWord(buf, base, line, 8);
      if name == "" {
        NoMethod(g, v, line);
        phase := REQ_ABORT;
        return -400;
      }
      var got := VerbAt(buf, p, name);
      VerbAtIs(buf, base, line, w, name);
      if got == OTHER {
        BadMethod(g, v, line);
        phase := REQ_ABORT;
        return -501;
      }
      verb := got;
      rc := ParseTarget(buf, base, line, g, v);
    }

    // The rest of the request line, behind the method.
    method ParseTarget(buf: Buf, ghost base: nat, ghost line: string, ghost g: Grammar, ghost v: ReqVal)
      returns (rc: int)
      requires Holds(buf, base, line) && v.phase == REQ_START && IsLiso(g)
      requires var w := NextWord(line, 0);
               && WordText(line, w, 8) != "" && buf.data_p == base + w.end
               && verb == VerbOf(line, w) != OTHER
      requires Val() == v.(line := v.line.(verb := verb))
      modifies this, buf`data_p
      ensures buf.Valid()
      ensures (Val(), -rc) == g(v, line)
      ensures rc == 0 ==> buf.data_p == base + |line|
    {
      ghost var w, t, n := NextWord(line, 0), Word(0, 0), Word(0, 0);
      assert |WordText(line, w, 8)| <= |line[w.start..w.end]|;
      rc, t, n := ParseWords(buf, base, line);
      TargetTaken(g, v, line, t, n, Val().line, rc);
    }

    method ParseWords(buf: Buf, ghost base: nat, ghost line: string) returns (rc: int, ghost t: Word, ghost n: Word)
      requires Holds(buf, base, line) && base < buf.data_p < base + |line|
      modifies this`uri, this`params, this`version, this`kind, this`phase, buf`data_p
      ensures buf.Valid() && t == NextWord(line, old(buf.data_p) - base) && n == NextWord(line, t.end)
      ensures rc == if AtLineEnd(line, NextWord(line, n.end).start) then 0 else -400
      ensures rc == 0 ==> buf.data_p == base + |line|
      ensures var l := Stored(old(Val()).line, verb, WordText(line, t, REQ_URISZ), WordText(line, n, REQ_VERSZ));
              Val() == old(Val()).(line := l, phase := if rc == 0 then REQ_HEADER else REQ_ABORT)
    {
      t, n := StoreWords(buf, base, line);
      rc := EndRequestLine(buf, base, line);
    }

    // Nothing but the end of the line may follow the version.
    method EndRequestLine(buf: Buf, ghost base: nat, ghost line: string) returns (rc: int)
      requires Holds(buf, base, line) && base <= buf.data_p < base + |line|
      requires base == 0 || buf.data_p > base
      modifies this`phase, buf`data_p
      ensures buf.Valid()
      ensures AtLineEnd(line, NextWord(line, old(buf.data_p) - base).start) ==>
                rc == 0 && phase == REQ_HEADER && buf.data_p == base + |line|
      ensures !AtLineEnd(line, NextWord(line, old(buf.data_p) - base).start) ==> rc == -400 && phase == REQ_ABORT
    {
      var p := ProceedInline(buf, base, line);
      var eol := Eol(buf, base, line, p);
      if !eol {
        phase := REQ_ABORT;
        return -400;
      }
      buf.data_p := buf.data_p + 1;
      phase := REQ_HEADER;
      return 0;
    }

    // The uri with its query, and the version.
    method StoreWords(buf: Buf, ghost base: nat, ghost line: string) returns (ghost t: Word, ghost n: Word)
      requires Holds(buf, base, line) && base <= buf.data_p < base + |line|
      modifies this`uri, this`params, this`version, this`kind, buf`data_p
      ensures Holds(buf, base, line) && base <= buf.data_p < base + |line|
      ensures t == NextWord(line, old(buf.data_p) - base) && n == NextWord(line, t.end) && buf.data_p == base + n.end
      ensures ReqLine(verb, uri, params, version, kind)
           == Stored(old(Val()).line, verb, WordText(line, t, REQ_URISZ), WordText(line, n, REQ_VERSZ))
    {
      var p, target := TakeWord(buf, base, line, REQ_URISZ);
      t := Word(p - base, buf.data_p - base);
      StoreTarget(target);
      p, version := TakeWord(buf, base, line, REQ_VERSZ);
      n := Word(p - base, buf.data_p - base);
    }

    // Sets the type and separates uri and params.
    method StoreTarget(target: string)
      modifies this`uri, this`params, this`kind
      ensures ReqLine(verb, uri, params, version, kind) == Stored(old(Val()).line, verb, target, version)
    {
      if StartsWith(target, "/cgi/") {
        kind := REQ_DYNAMIC;
      }
      var q := IndexOf(target, '?');
      uri := target[..q];
      params := if q < |target| then Some(target[q + 1..]) else None;
    }

    static function VerbAt(buf: Buf, p: nat, name: string): Method
      reads buf.data
      requires p + |name| < buf.data.Length
    {
      if |name| >= 3 && CaseEq(name[..3], "GET") && IsBlank(buf.data[p + 3]) then GET
      else if |name| >= 4 && CaseEq(name[..4], "HEAD") && IsBlank(buf.data[p + 4]) then HEAD
      else if |name| >= 4 && CaseEq(name[..4], "POST") && IsBlank(buf.data[p + 4]) then POST
      else OTHER
    }

    static lemma VerbAtIs(buf: Buf, base: nat, line: string, w: Word, name: string)
      requires Holds(buf, base, line) && w.start <= w.end < |line|
      requires name == StrNCpy0(line[w.start..w.end], 8)
      ensures VerbAt(buf, base + w.start, name) == VerbOf(line, w)
    {
      assert forall i :: 0 <= i < |line| ==> buf.data[base + i] == line[i];
    }

    // One turn of the loop of phase REQ_HEADER.
    method ParseHeaderLine(buf: Buf, ghost line: string, ghost g: Grammar) returns (rc: int)
      requires Holds(buf, buf.data_p, line) && phase == REQ_HEADER && IsLiso(g)
      requires buf.data_p == 0 || buf.data[buf.data_p - 1] != '\r'
      modifies this, buf`data_p
      ensures buf.Valid()
      ensures (Val(), -rc) == g(old(Val()), line)
      ensures rc == 0 ==> buf.data_p == old(buf.data_p) + |line|
    {
      ghost var base, v, k := buf.data_p, Val(), SkipBlanks(line, 0);
      var p := ProceedLine(buf, base, line);
      var eol := Eol(buf, base, line, p);
      if eol {
        BlankLine(g, v, line);
        buf.data_p := buf.data_p + 1;
        rc := FinishHeader();
        return;
      }
      SliceHeld(buf, base, line, k, |line| - 1);
      rc := ParseKeyed(buf, p, line, line[k..|line| - 1], g);
    }

    // The part of it for a line that is not blank.
    method ParseKeyed(buf: Buf, p: nat, ghost line: string, ghost body: string, ghost g: Grammar) returns (rc: int)
      requires buf.Valid() && p <= buf.data_p < buf.sz && buf.data[buf.data_p] == '\n'
      requires buf.data[p..buf.data_p] == body && IsLiso(g) && phase == REQ_HEADER
      requires IsLine(line) && !AtLineEnd(line, SkipBlanks(line, 0)) && body == line[SkipBlanks(line, 0)..|line| - 1]
      modifies this, buf`data_p
      ensures buf.Valid() && (rc == 0 ==> buf.data_p == old(buf.data_p) + 1)
      ensures (Val(), -rc) == g(old(Val()), line)
    {
      ghost var v := Val();
      var q := FindColon(buf, p, body);
      if q == p || buf.data[q] != ':' {
        NoColon(g, v, line, body);
        phase := REQ_ABORT;
        return -400;
      }
      rc := ParseField(buf, p, q, body);
      KeyAndValue(g, v, line, body, q - p);
    }

    // The end of the header: the body length becomes known.
    method FinishHeader() returns (rc: int)
      modifies this
      ensures (Val(), -rc) == EndOfHeader(old(Val()))
    {
      phase := REQ_BODY;
      if clen < 0 {
        if verb == POST {
          phase := REQ_ABORT;
          return -411;
        } else {
          clen := 0;
        }
      }
      rsize := clen;
      return 0;
    }

    // Key and value are cut, stripped in place and stored.
    method ParseField(buf: Buf, p: nat, q: nat, ghost body: string) returns (rc: int)
      requires buf.Valid() && p < q < buf.data_p < buf.sz && buf.data[p..buf.data_p] == body
      modifies this, buf`data_p
      ensures buf.Valid() && (rc == 0 ==> buf.data_p == old(buf.data_p) + 1)
      ensures (Val(), -rc) == FieldLine(old(Val()), body, q - p)
    {
      assert buf.data[p..q] == body[..q - p];
      assert buf.data[q + 1..buf.data_p] == body[q - p + 1..];
      var key := Stripped(buf, p, q, HDR_KEYSZ, body[..q - p]);
      var val := Stripped(buf, q + 1, buf.data_p, HDR_VALSZ, body[q - p + 1..]);
      var ok := SetField(key, val);
      if !ok {
        phase := REQ_ABORT;
        return -400;
      }
      buf.data_p := buf.data_p + 1;
      return 0;
    }

    static method FindColon(buf: Buf, p: nat, ghost body: string) returns (q: nat)
      requires p <= buf.data_p < buf.data.Length && buf.data[buf.data_p] != ':'
      requires buf.data[p..buf.data_p] == body
      ensures p <= q <= buf.data_p && q - p == IndexOf(body, ':')
      ensures buf.data[q] == ':' <==> q < buf.data_p
    {
      q := p;
      while q < buf.data_p && buf.data[q] != ':'
        invariant p <= q <= buf.data_p
        invariant IndexOf(body, ':') == IndexFrom(body, ':', q - p)
      {
        assert buf.data[p..buf.data_p][q - p] == buf.data[q];
        q := q + 1;
      }
      if q < buf.data_p {
        assert buf.data[p..buf.data_p][q - p] == buf.data[q];
      }
    }

    method SetField(key: string, val: string) returns (ok: bool)
      modifies this`host, this`clen, this`alive, this`hdrs
      ensures Field(old(Head()), key, val) == if ok then Some(Head()) else None
      ensures !ok ==> Head() == old(Head())
    {
      ok := true;
      if CaseEq(key, "Host") {
        host := val;
      } else if CaseEq(key, "Content-Length") {
        if AllDigits(val) {
          clen := Atoi(val);
        } else {
          ok := false;
        }
      } else if CaseEq(key, "Connection") {
        if CaseEq(val, "close") {
          alive := false;
        }
      } else {
        hdrs := [Hdr(key, val)] + hdrs;
      }
    }

    static ghost function Rest(buf: Buf): string
      requires buf.Valid() && buf.sz >= 0
      reads buf, buf.data
    {
      buf.data[buf.data_p..buf.sz]
    }

    // The bytes still to be parsed are s.
    static ghost predicate Carries(buf: Buf, s: string)
      reads buf, buf.data
    {
      && buf.Valid() && buf.sz >= 0 && buf.data_p + |s| == buf.sz
      && forall k :: buf.data_p <= k < buf.sz ==> buf.data[k] == s[k - buf.data_p]
    }

    static lemma FirstLineHeld(buf: Buf, s: string)
      requires s != "" && IsBlock(s) && Carries(buf, s)
      ensures Holds(buf, buf.data_p, FirstLine(s))
    {
    }

    // Takes the first line of s; `all` is what the whole parse, which began at
    // start, comes to.
    method ParseOneLine(buf: Buf, ghost g: Grammar, ghost start: nat, ghost s: string, ghost all: (ReqVal, int))
      returns (rc: int)
      requires Carries(buf, s) && IsLiso(g) && start <= buf.data_p
      requires Val().InHeader() && IsBlock(s) && s != ""
      requires buf.data_p == 0 || buf.data[buf.data_p - 1] != '\r'
      requires all == AddSize(buf.data_p - start, ParseBlock(g, Val(), s))
      modifies this, buf`data_p
      ensures buf.Valid()
      ensures rc != 0 ==> rc < 0 && all == (Val(), rc)
      ensures rc == 0 ==> start <= buf.data_p && (phase == REQ_HEADER || phase == REQ_BODY)
      ensures rc == 0 && phase == REQ_BODY ==> all == (Val(), buf.data_p - start)
      ensures rc == 0 && phase == REQ_HEADER ==> Pending(buf, g, start, OtherLines(s), all)
    {
      FirstLineHeld(buf, s);
      ghost var line, r, m := FirstLine(s), g(Val(), FirstLine(s)), buf.data_p - start;
      OneLine(g, Val(), s, m, all, r);
      rc := ParseAnyLine(buf, line, g);
      if rc == 0 {
        assert buf.data_p - start == m + |line|;
        assert phase == REQ_HEADER ==> Carries(buf, OtherLines(s));
      }
    }

    method ParseAnyLine(buf: Buf, ghost line: string, ghost g: Grammar) returns (rc: int)
      requires Holds(buf, buf.data_p, line) && Val().InHeader() && IsLiso(g)
      requires buf.data_p == 0 || buf.data[buf.data_p - 1] != '\r'
      modifies this, buf`data_p
      ensures buf.Valid() && (Val(), -rc) == g(old(Val()), line)
      ensures rc == 0 ==> buf.data_p == old(buf.data_p) + |line|
    {
      if phase == REQ_START {
        rc := ParseRequestLine(buf, line, g);
      } else {
        rc := ParseHeaderLine(buf, line, g);
      }
    }

    // req_parse consumes whole lines and refines the fold over lines.
    method Parse(buf: Buf, ghost g: Grammar) returns (rc: int)
      requires buf.Valid() && buf.sz >= 0 && IsLiso(g)
      requires Val().InHeader() && IsBlock(Rest(buf))
      requires phase == REQ_START ==> Rest(buf) != ""
      requires buf.data_p == 0 || buf.data[buf.data_p - 1] != '\r'
      modifies this, buf`data_p
      ensures buf.Valid()
      ensures var r := ParseBlock(g, old(Val()), old(Rest(buf)));
              Val() == r.0 && rc == (if r.1 < 0 then r.1 else old(buf.data_p) + r.1)
    {
      rc := ParseRest(buf, g, buf.data_p, Rest(buf), ParseBlock(g, Val(), Rest(buf)));
    }

    // The request line, if it is next, and the loop.
    method ParseRest(buf: Buf, ghost g: Grammar, ghost start: nat, ghost rest: string, ghost all: (ReqVal, int))
      returns (rc: int)
      requires Carries(buf, rest) && IsBlock(rest) && IsLiso(g) && start <= buf.data_p
      requires Val().InHeader() && (phase == REQ_START ==> rest != "")
      requires buf.data_p == 0 || buf.data[buf.data_p - 1] != '\r'
      requires all == AddSize(buf.data_p - start, ParseBlock(g, Val(), rest))
      modifies this, buf`data_p
      ensures buf.Valid()
      ensures Val() == all.0 && rc == (if all.1 < 0 then all.1 else start + all.1)
    {
      ghost var s := rest;
      if phase == REQ_START {
        rc := ParseOneLine(buf, g, start, s, all);
        if rc != 0 {
          return;
        }
        s := OtherLines(s);
      }
      rc := ParseLoop(buf, g, start, s, all);
    }

    // The loop of phase REQ_HEADER.
    method ParseLoop(buf: Buf, ghost g: Grammar, ghost start: nat, ghost rest: string, ghost all: (ReqVal, int))
      returns (rc: int)
      requires buf.Valid() && buf.sz >= 0 && IsLiso(g) && start <= buf.data_p
      requires phase == REQ_HEADER || (phase == REQ_BODY && all == (Val(), buf.data_p - start))
      requires phase == REQ_HEADER ==> Pending(buf, g, start, rest, all)
      modifies this, buf`data_p
      ensures buf.Valid()
      ensures Val() == all.0 && rc == (if all.1 < 0 then all.1 else start + all.1)
    {
      ghost var s := rest;
      while buf.data_p < buf.sz && phase == REQ_HEADER
        invariant buf.Valid() && buf.sz >= 0 && start <= buf.data_p
        invariant phase == REQ_HEADER || (phase == REQ_BODY && all == (Val(), buf.data_p - start))
        invariant phase == REQ_HEADER ==> Pending(buf, g, start, s, all)
      {
        rc := ParseOneLine(buf, g, start, s, all);
        if rc != 0 {
          return;
        }
        s := OtherLines(s);
      }
      return buf.data_p;
    }

    ghost predicate Pending(buf: Buf, g: Grammar, start: nat, s: string, all: (ReqVal, int))
      requires phase == REQ_HEADER
      reads this, buf, buf.data
    {
      && Carries(buf, s) && IsBlock(s) && start <= buf.data_p
      && (buf.data_p == 0 || buf.data[buf.data_p - 1] != '\r')
      && all == AddSize(buf.data_p - start, ParseBlock(g, Val(), s))
    }

    // ---------- req_pack ----------

    // The text printed so far: what stands in front of data_p.
    static ghost predicate Printed(buf: Buf, t: string)
      reads buf, buf.data
    {
      buf.data.Length == BUFSZ + 1 && buf.data_p == |t| <= BUFSZ && buf.data[..|t|] == t
    }

    // strcpy0(buf->data_p, s), then data_p moves behind it.
    static method Print(buf: Buf, s: string, ghost t: string)
      requires Printed(buf, t) && |t| + |s| <= BUFSZ
      modifies buf`data_p, buf.data
      ensures Printed(buf, t + s)
    {
      var i := 0;
      while i < |s|
        invariant 0 <= i <= |s| && buf.data_p == |t|
        invariant forall k :: 0 <= k < |t| ==> buf.data[k] == t[k]
        invariant forall k :: 0 <= k < i ==> buf.data[|t| + k] == s[k]
      {
        buf.data[buf.data_p + i] := s[i];
        i := i + 1;
      }
      buf.data_p := buf.data_p + |s|;
      buf.data[buf.data_p] := '\0';
    }

    static method PrintField(buf: Buf, key: string, val: string, ghost t: string)
      requires Printed(buf, t) && |t + FieldText(key, val)| <= BUFSZ
      modifies buf`data_p, buf.data
      ensures Printed(buf, t + FieldText(key, val))
    {
      Print(buf, key, t);
      Print(buf, ": ", t + key);
      Print(buf, val, t + key + ": ");
      Print(buf, CRLF, t + key + ": " + val);
      assert t + key + ": " + val + CRLF == t + FieldText(key, val);
    }

    static method PrintHdrs(buf: Buf, hdrs: seq<Hdr>, ghost t: string)
      requires Printed(buf, t) && |t + HdrsText(hdrs)| <= BUFSZ
      modifies buf`data_p, buf.data
      ensures Printed(buf, t + HdrsText(hdrs))
    {
      var i := 0;
      ghost var done := t;
      assert hdrs[0..] == hdrs;
      while i < |hdrs|
        invariant 0 <= i <= |hdrs|
        invariant Printed(buf, done) && done + HdrsText(hdrs[i..]) == t + HdrsText(hdrs)
      {
        ghost var field := FieldText(hdrs[i].key, hdrs[i].val);
        assert hdrs[i..][1..] == hdrs[i + 1..];
        assert done + field + HdrsText(hdrs[i + 1..]) == done + HdrsText(hdrs[i..]);
        PrintField(buf, hdrs[i].key, hdrs[i].val, done);
        done := done + field;
        i := i + 1;
      }
      assert done + HdrsText(hdrs[i..]) == done;
    }

    method PrintFirst(buf: Buf)
      requires Printed(buf, "") && |FirstText(Val().line)| <= BUFSZ
      modifies buf`data_p, buf.data
      ensures Printed(buf, FirstText(Val().line))
    {
      var name := VerbName(verb);
      Print(buf, name, "");
      assert "" + name == name;
      Print(buf, " ", name);
      Print(buf, uri, name + " ");
      Print(buf, " ", name + " " + uri);
      Print(buf, version, name + " " + uri + " ");
      Print(buf, CRLF, name + " " + uri + " " + version);
    }

    method PrintFields(buf: Buf, ghost t: string)
      requires Printed(buf, t) && |t + FieldsText(Head())| <= BUFSZ
      modifies buf`data_p, buf.data
      ensures Printed(buf, t + FieldsText(Head()))
    {
      ghost var one, two := FieldText("Host", host), FieldText(LENGTH, Dec(clen));
      FieldByField(t, one, two, HdrsText(hdrs));
      PrintField(buf, "Host", host, t);
      PrintField(buf, LENGTH, Dec(clen), t + one);
      PrintHdrs(buf, hdrs, t + one + two);
    }

    static lemma FieldByField(t: string, one: string, two: string, rest: string)
      ensures t + one + two + rest == t + (one + two + rest)
    {
    }

    // req_pack leaves exactly the printed request in the buffer.
    method Pack(buf: Buf) returns (n: int)
      requires buf.data.Length == BUFSZ + 1 && |PackText(Val())| <= BUFSZ
      modifies buf, buf.data
      ensures buf.Valid() && buf.Val() == Filled(PackText(Val())) && n == |PackText(Val())|
    {
      buf.data_p := 0;
      buf.data[0] := '\0';
      PrintFirst(buf);
      PrintFields(buf, FirstText(Val().line));
      Print(buf, CRLF, FirstText(Val().line) + FieldsText(Head()));
      buf.sz := buf.data_p;
      buf.data_p := 0;
      n := buf.sz;
    }
  }

  // ---------- one lemma per way a line can end ----------

  lemma NoMethod(g: Grammar, v: ReqVal, line: string)
    requires IsLiso(g) && IsLine(line) && v.phase == REQ_START
    requires WordText(line, NextWord(line, 0), 8) == ""
    ensures g(v, line) == (Aborted(v), 400)
  {
    assert g(v, line) == ParseLine(v, line);
  }

  lemma BadMethod(g: Grammar, v: ReqVal, line: string)
    requires IsLiso(g) && IsLine(line) && v.phase == REQ_START
    requires WordText(line, NextWord(line, 0), 8) != "" && VerbOf(line, NextWord(line, 0)) == OTHER
    ensures g(v, line) == (Aborted(v), 501)
  {
    assert g(v, line) == ParseLine(v, line);
  }

  lemma FullLine(g: Grammar, v: ReqVal, line: string, t: Word, n: Word, e: nat)
    requires IsLiso(g) && IsLine(line) && v.phase == REQ_START
    requires var w := NextWord(line, 0);
             && WordText(line, w, 8) != "" && VerbOf(line, w) != OTHER
             && t == NextWord(line, w.end) && n == NextWord(line, t.end) && e == NextWord(line, n.end).start
    ensures var verb := VerbOf(line, NextWord(line, 0));
            var l := Stored(v.line, verb, WordText(line, t, REQ_URISZ), WordText(line, n, REQ_VERSZ));
            g(v, line) == if AtLineEnd(line, e) then (v.(line := l, phase := REQ_HEADER), 0)
                          else (v.(line := l, phase := REQ_ABORT), 400)
  {
    assert g(v, line) == ParseLine(v, line);
  }

  // What is left of a request line once the words are stored.
  lemma TargetTaken(g: Grammar, v: ReqVal, line: string, t: Word, n: Word, l: ReqLine, rc: int)
    requires IsLiso(g) && IsLine(line) && v.phase == REQ_START
    requires var w := NextWord(line, 0);
             && WordText(line, w, 8) != "" && VerbOf(line, w) != OTHER
             && t == NextWord(line, w.end) && n == NextWord(line, t.end)
             && l == Stored(v.line.(verb := VerbOf(line, w)), VerbOf(line, w),
                            WordText(line, t, REQ_URISZ), WordText(line, n, REQ_VERSZ))
    requires rc == if AtLineEnd(line, NextWord(line, n.end).start) then 0 else -400
    ensures g(v, line) == (v.(line := l, phase := if rc == 0 then REQ_HEADER else REQ_ABORT), -rc)
  {
    FullLine(g, v, line, t, n, NextWord(line, n.end).start);
  }

  lemma BlankLine(g: Grammar, v: ReqVal, line: string)
    requires IsLiso(g) && IsLine(line) && v.phase == REQ_HEADER && AtLineEnd(line, SkipBlanks(line, 0))
    ensures g(v, line) == EndOfHeader(v)
  {
    assert g(v, line) == ParseLine(v, line);
  }

  lemma NoColon(g: Grammar, v: ReqVal, line: string, body: string)
    requires IsLiso(g) && IsLine(line) && v.phase == REQ_HEADER && !AtLineEnd(line, SkipBlanks(line, 0))
    requires body == line[SkipBlanks(line, 0)..|line| - 1]
    requires IndexOf(body, ':') == 0 || IndexOf(body, ':') == |body|
    ensures g(v, line) == (Aborted(v), 400)
  {
    assert g(v, line) == ParseLine(v, line);
  }

  lemma KeyAndValue(g: Grammar, v: ReqVal, line: string, body: string, c: nat)
    requires IsLiso(g) && IsLine(line) && v.phase == REQ_HEADER && !AtLineEnd(line, SkipBlanks(line, 0))
    requires body == line[SkipBlanks(line, 0)..|line| - 1] && 0 < c < |body| && c == IndexOf(body, ':')
    ensures g(v, line) == FieldLine(v, body, c)
  {
    assert g(v, line) == ParseLine(v, line);
  }

  // One turn of the fold, m bytes into the block: `all` is what the parse
  // comes to, r what the next line does.
  lemma OneLine(g: Grammar, v: ReqVal, s: string, m: nat, all: (ReqVal, int), r: (ReqVal, int))
    requires IsBlock(s) && s != "" && v.InHeader()
    requires all == AddSize(m, ParseBlock(g, v, s)) && r == g(v, FirstLine(s))
    ensures GoodStep(r)
    ensures r.1 != 0 ==> all == (r.0, -r.1)
    ensures r.1 == 0 && r.0.phase == REQ_BODY ==> all == (r.0, m + |FirstLine(s)|)
    ensures r.1 == 0 && r.0.phase != REQ_BODY ==>
              all == AddSize(m + |FirstLine(s)|, ParseBlock(g, r.0, OtherLines(s)))
  {
    if r.1 == 0 && r.0.phase == REQ_HEADER {
      AddSizeTwice(m, |FirstLine(s)|, ParseBlock(g, r.0, OtherLines(s)));
    }
  }
}
