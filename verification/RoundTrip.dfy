/** Printing a request and parsing it again; blanks around header fields. */
module RoundTrip {
  import opened Text
  import opened RequestSpec
  import opened PackSpec

  // ---------- scanning, given where it must stop ----------

  lemma {:induction false} SkipBlanksIs(s: string, i: nat, n: nat)
    requires i <= n <= |s| && (n < |s| ==> !IsBlank(s[n]))
    requires forall k :: i <= k < n ==> IsBlank(s[k])
    ensures SkipBlanks(s, i) == n
    decreases n - i
  {
    if i < n {
      SkipBlanksIs(s, i + 1, n);
    }
  }

  lemma {:induction false} SkipWordIs(s: string, i: nat, n: nat)
    requires i <= n <= |s| && (n < |s| ==> IsSpace(s[n]))
    requires forall k :: i <= k < n ==> !IsSpace(s[k])
    ensures SkipWord(s, i) == n
    decreases n - i
  {
    if i < n {
      SkipWordIs(s, i + 1, n);
    }
  }

  // No byte that ends a C string, a line or the word.
  predicate Plain(s: string) {
    forall k :: 0 <= k < |s| ==> s[k] != '\0' && s[k] != '\n'
  }

  predicate Solid(s: string) {
    s != "" && forall k :: 0 <= k < |s| ==> s[k] != '\0' && !IsSpace(s[k])
  }

  lemma LineIs(s: string)
    requires Plain(s)
    ensures IsLine(s + "\n")
  {
    IndexFromIs(s + "\n", '\n', 0, |s|);
  }

  lemma PlainWhole(s: string, n: nat)
    requires |s| <= n && '\0' !in s
    ensures StrNCpy0(s, n) == s
  {
    StrNCpy0Whole(s, n);
  }

  // Cutting a padded text at n bytes only costs padding.
  lemma CutPadding(front: string, s: string, after: string, n: nat) returns (rest: string)
    requires Plain(front + s + after) && |front + s| <= n
    ensures rest <= after && StrNCpy0(front + s + after, n) == front + s + rest
  {
    var all := front + s + after;
    rest := if |all| <= n then after else after[..n - |front + s|];
    assert (if |all| <= n then all else all[..n]) == front + s + rest;
    assert forall k :: 0 <= k < |front + s + rest| ==> (front + s + rest)[k] == all[k];
    CutNulIs(front + s + rest, |front + s + rest|);
    assert (front + s + rest)[..|front + s + rest|] == front + s + rest;
  }

  lemma TrimCut(front: string, s: string, after: string, n: nat)
    requires Plain(front + s + after) && |front + s| <= n
    requires AllSpace(front) && AllSpace(after) && Trimmed(s)
    ensures Trim(StrNCpy0(front + s + after, n)) == s
  {
    var rest := CutPadding(front, s, after, n);
    TrimPadded(front, s, rest);
  }

  // ---------- header lines ----------

  // "key: value" with any blanks around key and value.
  function PaddedField(before: string, key: string, gap: string, lead: string, val: string, tail: string): string {
    before + (key + gap + ":" + (lead + val + tail))
  }

  // What a well-formed field does to a request.
  function Stores(v: ReqVal, key: string, val: string): (ReqVal, int) {
    match Field(v.head, key, val)
    case Some(h) => (v.(head := h), 0)
    case None => (Aborted(v), 400)
  }

  // White space around a key or value is irrelevant: whatever blanks stand
  // there, the line does what the bare key and value do.
  lemma PaddingIrrelevant(v: ReqVal, before: string, key: string, gap: string, lead: string, val: string, tail: string)
    requires v.phase == REQ_HEADER
    requires AllBlank(before) && AllBlank(gap) && AllBlank(lead) && AllBlank(tail)
    requires key != "" && Trimmed(key) && ':' !in key && Plain(key) && |key| <= HDR_KEYSZ
    requires Trimmed(val) && Plain(val) && |lead + val| <= HDR_VALSZ
    ensures var line := PaddedField(before, key, gap, lead, val, tail) + "\n";
            IsLine(line) && HeaderLine(v, line) == Stores(v, key, val)
  {
    var body := key + gap + ":" + (lead + val + tail);
    var text := PaddedField(before, key, gap, lead, val, tail);
    var line := text + "\n";
    BodyPlain(key, gap, lead, val, tail);
    LineIs(text);
    SkipBlanksIs(line, 0, |before|);
    assert line[|before|..|line| - 1] == body;
    BodyField(v, body, key, gap, lead, val, tail);
  }

  lemma BodyPlain(key: string, gap: string, lead: string, val: string, tail: string)
    requires AllBlank(gap) && AllBlank(lead) && AllBlank(tail) && Plain(key) && Plain(val)
    ensures Plain(key + gap) && Plain(lead + val + tail)
  {
  }

  lemma BodyField(v: ReqVal, body: string, key: string, gap: string, lead: string, val: string, tail: string)
    requires body == key + gap + ":" + (lead + val + tail)
    requires AllBlank(gap) && AllBlank(lead) && AllBlank(tail)
    requires key != "" && Trimmed(key) && ':' !in key && Plain(key) && |key| <= HDR_KEYSZ
    requires Trimmed(val) && Plain(val) && |lead + val| <= HDR_VALSZ
    ensures IndexOf(body, ':') == |key + gap|
    ensures FieldLine(v, body, |key + gap|) == Stores(v, key, val)
  {
    ColonAt(body, key, gap, lead + val + tail);
    BodyPlain(key, gap, lead, val, tail);
    assert "" + key + gap == key + gap;
    TrimCut("", key, gap, HDR_KEYSZ);
    TrimCut(lead, val, tail, HDR_VALSZ);
  }

  lemma ColonAt(body: string, key: string, gap: string, rest: string)
    requires body == key + gap + ":" + rest && ':' !in key && AllBlank(gap)
    ensures var c := |key + gap|;
            IndexOf(body, ':') == c && body[..c] == key + gap && body[c + 1..] == rest
  {
    var c := |key + gap|;
    assert body[c] == ':';
    assert forall k :: 0 <= k < c ==> body[k] == (key + gap)[k];
    IndexFromIs(body, ':', 0, c);
  }

  lemma EmptyLineEnds(v: ReqVal)
    requires v.phase == REQ_HEADER
    ensures IsLine("\r\n") && HeaderLine(v, "\r\n") == EndOfHeader(v)
  {
    IndexFromIs("\r\n", '\n', 0, 1);
    SkipBlanksIs("\r\n", 0, 1);
  }

  // ---------- which requests survive printing ----------

  predicate PrintableLine(l: ReqLine) {
    && l.verb != OTHER && l.params == None
    && Solid(l.uri) && '?' !in l.uri && |l.uri| <= REQ_URISZ
    && !CaseEq(l.uri, "http://") && !CaseEq(l.uri, "https://")
    && Solid(l.version) && |l.version| <= REQ_VERSZ
    && l.kind == (if StartsWith(l.uri, "/cgi/") then REQ_DYNAMIC else REQ_STATIC)
  }

  predicate PrintableVal(val: string) {
    Trimmed(val) && Plain(val) && |val| < HDR_VALSZ
  }

  predicate PrintableHdr(h: Hdr) {
    && h.key != "" && Trimmed(h.key) && Plain(h.key) && ':' !in h.key && |h.key| <= HDR_KEYSZ
    && !CaseEq(h.key, "Host") && !CaseEq(h.key, "Content-Length") && !CaseEq(h.key, "Connection")
    && PrintableVal(h.val)
  }

  predicate Printable(v: ReqVal) {
    && PrintableLine(v.line) && v.head.clen >= 0 && v.head.alive
    && PrintableVal(v.head.host) && |v.head.host| <= REQ_HOSTSZ
    && v.head.clen < 0x8000_0000
    && forall i :: 0 <= i < |v.head.hdrs| ==> PrintableHdr(v.head.hdrs[i])
  }

  // ---------- parsing the request line ----------

  // Where the words of "name target version\r\n" are.
  lemma WordsAt(line: string, a: nat, b: nat, c: nat)
    requires IsLine(line) && 0 < a && a + 1 < b && b + 1 < c && |line| == c + 2
    requires line[a] == ' ' && line[b] == ' ' && line[c] == '\r' && line[c + 1] == '\n'
    requires forall k :: 0 <= k < a || a < k < b || b < k < c ==> !IsSpace(line[k])
    ensures NextWord(line, 0) == Word(0, a) && NextWord(line, a) == Word(a + 1, b)
    ensures NextWord(line, b) == Word(b + 1, c) && NextWord(line, c).start == c + 1
  {
    SkipBlanksIs(line, 0, 0);
    SkipWordIs(line, 0, a);
    SkipBlanksIs(line, a, a + 1);
    SkipWordIs(line, a + 1, b);
    SkipBlanksIs(line, b, b + 1);
    SkipWordIs(line, b + 1, c);
    SkipBlanksIs(line, c, c + 1);
  }

  // The printed request line and where its words start.
  lemma FirstTextShape(name: string, uri: string, version: string, line: string)
    requires Solid(name) && Solid(uri) && Solid(version)
    requires line == name + " " + uri + " " + version + CRLF
    ensures var a, b, c := |name|, |name| + 1 + |uri|, |name| + 2 + |uri| + |version|;
            && |line| == c + 2 && IsLine(line)
            && line[a] == ' ' && line[b] == ' ' && line[c] == '\r' && line[c + 1] == '\n'
            && line[..a] == name && line[a + 1..b] == uri && line[b + 1..c] == version
  {
    var text := name + " " + uri + " " + version + "\r";
    assert line == text + "\n";
    LineIs(text);
  }

  lemma VerbRead(verb: Method, line: string)
    requires verb != OTHER
    requires |line| > |VerbName(verb)| && line[..|VerbName(verb)|] == VerbName(verb) && line[|VerbName(verb)|] == ' '
    ensures var w := Word(0, |VerbName(verb)|);
            WordText(line, w, 8) == VerbName(verb) && VerbOf(line, w) == verb
  {
    var name := VerbName(verb);
    assert line[0..|name|] == name;
    PlainWhole(name, 8);
    assert name[..|name|] == name;
    if verb == POST {
      assert name[..3] == "POS" && !CaseEq("POS", "GET");
      assert !CaseEq("POST", "HEAD");
    } else if verb == HEAD {
      assert name[..3] == "HEA" && !CaseEq("HEA", "GET");
    }
  }

  lemma NoQuery(u: string)
    requires '?' !in u
    ensures BeforeQuery(u) == u && AfterQuery(u) == None
  {
    IndexFromIs(u, '?', 0, |u|);
  }

  lemma FirstTextParses(v: ReqVal, l: ReqLine)
    requires PrintableLine(l) && v.phase == REQ_START && v.line.kind == REQ_STATIC
    ensures IsLine(FirstText(l)) && RequestLine(v, FirstText(l)) == (v.(line := l, phase := REQ_HEADER), 0)
  {
    var name, line := VerbName(l.verb), FirstText(l);
    var a, b, c := |name|, |name| + 1 + |l.uri|, |name| + 2 + |l.uri| + |l.version|;
    FirstWords(name, l.uri, l.version, line, a, b, c);
    VerbRead(l.verb, line);
    FromWords(v, l, line, a, b, c);
  }

  lemma FirstWords(name: string, uri: string, version: string, line: string, a: nat, b: nat, c: nat)
    requires Solid(name) && Solid(uri) && Solid(version) && |uri| <= REQ_URISZ && |version| <= REQ_VERSZ
    requires line == name + " " + uri + " " + version + CRLF
    requires a == |name| && b == a + 1 + |uri| && c == b + 1 + |version|
    ensures |line| == c + 2 && IsLine(line) && line[c] == '\r' && line[c + 1] == '\n'
    ensures line[..a] == name && line[a] == ' '
    ensures NextWord(line, 0) == Word(0, a) && NextWord(line, a) == Word(a + 1, b)
    ensures NextWord(line, b) == Word(b + 1, c) && NextWord(line, c).start == c + 1
    ensures WordText(line, Word(a + 1, b), REQ_URISZ) == uri
    ensures WordText(line, Word(b + 1, c), REQ_VERSZ) == version
  {
    FirstTextShape(name, uri, version, line);
    SolidParts(line, a, b, c, name, uri, version);
    WordsAt(line, a, b, c);
    PlainWhole(uri, REQ_URISZ);
    PlainWhole(version, REQ_VERSZ);
  }

  lemma FromWords(v: ReqVal, l: ReqLine, line: string, a: nat, b: nat, c: nat)
    requires PrintableLine(l) && v.line.kind == REQ_STATIC
    requires IsLine(line) && a + 1 <= b && b + 1 <= c && |line| == c + 2 && line[c] == '\r' && line[c + 1] == '\n'
    requires NextWord(line, 0) == Word(0, a) && NextWord(line, a) == Word(a + 1, b)
    requires NextWord(line, b) == Word(b + 1, c) && NextWord(line, c).start == c + 1
    requires WordText(line, Word(0, a), 8) != "" && VerbOf(line, Word(0, a)) == l.verb
    requires WordText(line, Word(a + 1, b), REQ_URISZ) == l.uri
    requires WordText(line, Word(b + 1, c), REQ_VERSZ) == l.version
    ensures RequestLine(v, line) == (v.(line := l, phase := REQ_HEADER), 0)
  {
    NoQuery(l.uri);
  }

  lemma SolidParts(line: string, a: nat, b: nat, c: nat, name: string, uri: string, version: string)
    requires a < b < c <= |line| && Solid(name) && Solid(uri) && Solid(version)
    requires line[..a] == name && line[a + 1..b] == uri && line[b + 1..c] == version
    ensures forall k :: 0 <= k < a || a < k < b || b < k < c ==> !IsSpace(line[k])
  {
    forall k | 0 <= k < a || a < k < b || b < k < c
      ensures !IsSpace(line[k])
    {
      assert k < a ==> line[k] == name[k];
      assert a < k < b ==> line[k] == uri[k - a - 1];
      assert b < k ==> line[k] == version[k - b - 1];
    }
  }

  // ---------- parsing the printed fields ----------

  lemma FieldTextParses(v: ReqVal, key: string, val: string)
    requires v.phase == REQ_HEADER
    requires key != "" && Trimmed(key) && ':' !in key && Plain(key) && |key| <= HDR_KEYSZ && PrintableVal(val)
    ensures IsLine(FieldText(key, val)) && HeaderLine(v, FieldText(key, val)) == Stores(v, key, val)
  {
    FieldTextIs(key, val);
    PaddingIrrelevant(v, "", key, "", " ", val, "\r");
  }

  lemma FieldTextIs(key: string, val: string)
    ensures FieldText(key, val) == PaddedField("", key, "", " ", val, "\r") + "\n"
  {
    assert key + "" + ":" == key + ":";
    assert key + ": " + val + CRLF == key + ":" + (" " + val + "\r") + "\n";
  }

  // A block that is one line.
  lemma OneLineBlock(g: Grammar, v: ReqVal, line: string)
    requires IsLine(line) && v.InHeader()
    ensures FirstLine(line) == line && OtherLines(line) == ""
    ensures g(v, line).1 == 0 && g(v, line).0.phase == REQ_HEADER ==>
              ParseBlock(g, v, line) == (g(v, line).0, |line|)
    ensures g(v, line).1 == 0 && g(v, line).0.phase == REQ_BODY ==>
              ParseBlock(g, v, line) == (g(v, line).0, |line|)
  {
    assert line[..|line|] == line && line[|line|..] == "";
  }

  // Another field behind a block that is parsed already.
  lemma AnotherField(g: Grammar, v: ReqVal, block: string, w: ReqVal, key: string, val: string)
    requires IsLiso(g) && v.InHeader() && IsBlock(block) && ParseBlock(g, v, block) == (w, |block|)
    requires w.phase == REQ_HEADER
    requires key != "" && Trimmed(key) && ':' !in key && Plain(key) && |key| <= HDR_KEYSZ && PrintableVal(val)
    requires Stores(w, key, val).1 == 0
    ensures var more := block + FieldText(key, val);
            IsBlock(more) && ParseBlock(g, v, more) == (Stores(w, key, val).0, |more|)
  {
    var line := FieldText(key, val);
    FieldTextParses(w, key, val);
    assert g(w, line) == ParseLine(w, line);
    OneLineBlock(g, w, line);
    ParseBlockConcat(g, v, block, line);
  }

  function Reversed(hdrs: seq<Hdr>): (r: seq<Hdr>)
    ensures |r| == |hdrs|
  {
    if hdrs == [] then [] else Reversed(hdrs[1..]) + [hdrs[0]]
  }

  lemma ReversedStep(hdrs: seq<Hdr>, kept: seq<Hdr>)
    requires hdrs != []
    ensures Reversed(hdrs[1..]) + ([hdrs[0]] + kept) == Reversed(hdrs) + kept
  {
  }

  // Headers are put in front of the list, so a block of them comes out
  // reversed.
  lemma {:induction false} HdrsTextParses(g: Grammar, v: ReqVal, block: string, w: ReqVal, hdrs: seq<Hdr>)
    requires IsLiso(g) && v.InHeader() && IsBlock(block) && ParseBlock(g, v, block) == (w, |block|)
    requires w.phase == REQ_HEADER
    requires forall i :: 0 <= i < |hdrs| ==> PrintableHdr(hdrs[i])
    ensures var more := block + HdrsText(hdrs);
            && IsBlock(more)
            && ParseBlock(g, v, more) == (w.(head := w.head.(hdrs := Reversed(hdrs) + w.head.hdrs)), |more|)
    decreases |hdrs|
  {
    if hdrs == [] {
      assert block + HdrsText(hdrs) == block;
      assert Reversed(hdrs) + w.head.hdrs == w.head.hdrs;
    } else {
      var h, rest := hdrs[0], hdrs[1..];
      var more := block + FieldText(h.key, h.val);
      var w1 := w.(head := w.head.(hdrs := [h] + w.head.hdrs));
      AnotherHdr(g, v, block, w, h);
      HdrsTextParses(g, v, more, w1, rest);
      Regroup(block, FieldText(h.key, h.val), HdrsText(rest));
      ReversedStep(hdrs, w.head.hdrs);
    }
  }

  lemma AnotherHdr(g: Grammar, v: ReqVal, block: string, w: ReqVal, h: Hdr)
    requires IsLiso(g) && v.InHeader() && IsBlock(block) && ParseBlock(g, v, block) == (w, |block|)
    requires w.phase == REQ_HEADER && PrintableHdr(h)
    ensures var more := block + FieldText(h.key, h.val);
            IsBlock(more) && ParseBlock(g, v, more) == (w.(head := w.head.(hdrs := [h] + w.head.hdrs)), |more|)
  {
    AnotherField(g, v, block, w, h.key, h.val);
  }

  function Pow10(k: nat): nat {
    if k == 0 then 1 else 10 * Pow10(k - 1)
  }

  lemma {:induction false} DecShort(n: nat, k: nat)
    requires k > 0 && n < Pow10(k)
    ensures |Dec(n)| <= k
  {
    if n >= 10 {
      DecShort(n / 10, k - 1);
    }
  }

  lemma LengthPrintable(n: nat)
    requires n < 0x8000_0000
    ensures PrintableVal(Dec(n)) && AllDigits(Dec(n)) && Atoi(Dec(n)) == n
  {
    assert Pow10(10) == 10_000_000_000;
    DecShort(n, 10);
    AtoiDec(n);
    AllDigitsAt(Dec(n));
  }

  // ---------- the round trip ----------

  // What parsing the printed text gives: everything is back, the headers in
  // reverse, and the body is still to come.
  function Reparsed(v: ReqVal): ReqVal {
    ReqVal(v.line, v.head.(hdrs := Reversed(v.head.hdrs)), v.head.clen, REQ_BODY)
  }

  lemma FirstParses(g: Grammar, l: ReqLine)
    requires IsLiso(g) && PrintableLine(l)
    ensures IsBlock(FirstText(l))
    ensures ParseBlock(g, Blank, FirstText(l)) == (Blank.(line := l, phase := REQ_HEADER), |FirstText(l)|)
  {
    FirstTextParses(Blank, l);
    assert g(Blank, FirstText(l)) == ParseLine(Blank, FirstText(l));
    OneLineBlock(g, Blank, FirstText(l));
  }

  lemma HostField(g: Grammar, block: string, w: ReqVal, host: string)
    requires IsLiso(g) && IsBlock(block) && ParseBlock(g, Blank, block) == (w, |block|)
    requires w.phase == REQ_HEADER && PrintableVal(host)
    ensures var more := block + FieldText("Host", host);
            IsBlock(more) && ParseBlock(g, Blank, more) == (w.(head := w.head.(host := host)), |more|)
  {
    AnotherField(g, Blank, block, w, "Host", host);
  }

  lemma LengthField(g: Grammar, block: string, w: ReqVal, clen: nat)
    requires IsLiso(g) && IsBlock(block) && ParseBlock(g, Blank, block) == (w, |block|)
    requires w.phase == REQ_HEADER && clen < 0x8000_0000
    ensures var more := block + FieldText(LENGTH, Dec(clen));
            IsBlock(more) && ParseBlock(g, Blank, more) == (w.(head := w.head.(clen := clen)), |more|)
  {
    LengthPrintable(clen);
    LengthStores(w, Dec(clen));
    LengthKey();
    AnotherField(g, Blank, block, w, LENGTH, Dec(clen));
  }

  lemma LengthKey()
    ensures LENGTH != "" && Trimmed(LENGTH) && ':' !in LENGTH && Plain(LENGTH) && |LENGTH| <= HDR_KEYSZ
  {
  }

  lemma LengthStores(w: ReqVal, val: string)
    requires AllDigits(val)
    ensures Stores(w, LENGTH, val) == (w.(head := w.head.(clen := Atoi(val))), 0)
  {
    assert !CaseEq("Content-Length", "Host");
    CaseEqSame("Content-Length", 0);
  }

  lemma LastLine(g: Grammar, block: string, w: ReqVal)
    requires IsLiso(g) && IsBlock(block) && ParseBlock(g, Blank, block) == (w, |block|)
    requires w.phase == REQ_HEADER && w.head.clen >= 0
    ensures IsBlock(block + CRLF)
    ensures ParseBlock(g, Blank, block + CRLF) == (w.(phase := REQ_BODY, rsize := w.head.clen), |block + CRLF|)
  {
    EmptyLineEnds(w);
    assert g(w, CRLF) == ParseLine(w, CRLF);
    OneLineBlock(g, w, CRLF);
    ParseBlockConcat(g, Blank, block, CRLF);
  }

  // req_parse of what req_pack prints gives the request back, up to the order
  // of the headers, and takes exactly the printed text.
  lemma PackedParses(g: Grammar, v: ReqVal)
    requires IsLiso(g) && Printable(v)
    ensures IsBlock(PackText(v)) && ParseBlock(g, Blank, PackText(v)) == (Reparsed(v), |PackText(v)|)
  {
    var text, w := FirstText(v.line), Blank.(line := v.line, phase := REQ_HEADER);
    FirstParses(g, v.line);
    FieldsParse(g, text, w, v.head);
    LastLine(g, text + FieldsText(v.head), w.(head := v.head.(hdrs := Reversed(v.head.hdrs))));
  }

  // With the grammar of the server.
  lemma PackedParsesLiso(v: ReqVal)
    requires Printable(v)
    ensures IsBlock(PackText(v)) && ParseBlock(LISO, Blank, PackText(v)) == (Reparsed(v), |PackText(v)|)
  {
    LisoIsLiso();
    PackedParses(LISO, v);
  }

  lemma FieldsParse(g: Grammar, block: string, w: ReqVal, h: ReqHead)
    requires IsLiso(g) && IsBlock(block) && ParseBlock(g, Blank, block) == (w, |block|)
    requires w.phase == REQ_HEADER && w.head.hdrs == [] && w.head.alive && h.alive
    requires 0 <= h.clen < 0x8000_0000 && PrintableVal(h.host)
    requires forall i :: 0 <= i < |h.hdrs| ==> PrintableHdr(h.hdrs[i])
    ensures var more := block + FieldsText(h);
            IsBlock(more) && ParseBlock(g, Blank, more) == (w.(head := h.(hdrs := Reversed(h.hdrs))), |more|)
  {
    var host, clen := FieldText("Host", h.host), FieldText(LENGTH, Dec(h.clen));
    var w2, w3 := w.(head := w.head.(host := h.host)), w.(head := h.(hdrs := []));
    HostField(g, block, w, h.host);
    LengthField(g, block + host, w2, h.clen);
    HdrsTextParses(g, Blank, block + host + clen, w3, h.hdrs);
    assert Reversed(h.hdrs) + [] == Reversed(h.hdrs);
    Regroup(block, host, clen);
    Regroup(block, host + clen, HdrsText(h.hdrs));
  }

  lemma {:induction false} ReversedAt(hdrs: seq<Hdr>, i: nat)
    requires i < |hdrs|
    ensures Reversed(hdrs)[i] == hdrs[|hdrs| - 1 - i]
  {
    if i < |hdrs| - 1 {
      ReversedAt(hdrs[1..], i);
    }
  }

  lemma ReversedTwice(hdrs: seq<Hdr>)
    ensures Reversed(Reversed(hdrs)) == hdrs
  {
    forall i | 0 <= i < |hdrs|
      ensures Reversed(Reversed(hdrs))[i] == hdrs[i]
    {
      ReversedAt(Reversed(hdrs), i);
      ReversedAt(hdrs, |hdrs| - 1 - i);
    }
  }

  lemma ReparsedPrintable(v: ReqVal)
    requires Printable(v)
    ensures Printable(Reparsed(v))
  {
    forall i | 0 <= i < |v.head.hdrs|
      ensures PrintableHdr(Reversed(v.head.hdrs)[i])
    {
      ReversedAt(v.head.hdrs, i);
    }
  }

  // Doing it twice restores the header order as well.
  lemma PackTwice(g: Grammar, v: ReqVal)
    requires IsLiso(g) && Printable(v)
    ensures var w := ParseBlock(g, Blank, PackText(v)).0;
            && Printable(w) && IsBlock(PackText(w))
            && ParseBlock(g, Blank, PackText(w)).0 == v.(rsize := v.head.clen, phase := REQ_BODY)
  {
    PackedParses(g, v);
    ReparsedPrintable(v);
    PackedParses(g, Reparsed(v));
    ReversedTwice(v.head.hdrs);
  }

  // ---------- the bound on values ----------

  lemma {:induction false} TrimStartShorter(s: string)
    ensures |TrimStart(s)| <= |s|
    ensures s != "" && IsSpace(s[0]) ==> |TrimStart(s)| < |s|
  {
    if s != "" && IsSpace(s[0]) {
      TrimStartShorter(s[1..]);
    }
  }

  // The blank that req_pack prints in front of a value uses up one of the
  // HDR_VALSZ bytes that req_parse keeps, so a value that fills its field
  // comes back cut; every shorter one survives.
  lemma ValueSurvives(v: ReqVal, h: Hdr)
    requires v.phase == REQ_HEADER && PrintableHdr(h.(val := "")) && Trimmed(h.val) && Plain(h.val)
    ensures IsLine(FieldText(h.key, h.val))
    ensures HeaderLine(v, FieldText(h.key, h.val)).0.head.hdrs == [h] + v.head.hdrs <==> |h.val| < HDR_VALSZ
  {
    if |h.val| < HDR_VALSZ {
      FieldTextParses(v, h.key, h.val);
    } else {
      LongValueCut(v, h);
    }
  }

  lemma LongValueCut(v: ReqVal, h: Hdr)
    requires v.phase == REQ_HEADER && PrintableHdr(h.(val := "")) && Plain(h.val) && |h.val| >= HDR_VALSZ
    ensures IsLine(FieldText(h.key, h.val))
    ensures HeaderLine(v, FieldText(h.key, h.val)).0.head.hdrs != [h] + v.head.hdrs
  {
    var rest := " " + h.val + "\r";
    var body := h.key + "" + ":" + rest;
    BodyPlain(h.key, "", " ", h.val, "\r");
    LineIs(body);
    FieldTextIs(h.key, h.val);
    assert "" + (h.key + "" + ":" + rest) == body;
    ColonAt(body, h.key, "", rest);
    LongBody(v, body, |h.key|, h);
    HasColon(v, body + "\n", body, |h.key|);
  }

  lemma HasColon(v: ReqVal, line: string, body: string, c: nat)
    requires v.phase == REQ_HEADER && IsLine(line) && line == body + "\n"
    requires 0 < c < |body| && IndexOf(body, ':') == c && !IsSpace(body[0])
    ensures HeaderLine(v, line) == FieldLine(v, body, c)
  {
    SkipBlanksIs(line, 0, 0);
    assert line[0..|line| - 1] == body;
  }

  lemma LongBody(v: ReqVal, body: string, c: nat, h: Hdr)
    requires c + 1 < |body| && |body[c + 1..]| > HDR_VALSZ && body[c + 1] == ' ' && |h.val| >= HDR_VALSZ
    ensures FieldLine(v, body, c).0.head.hdrs != [h] + v.head.hdrs
  {
    LongValue(body[c + 1..]);
    var kept := FieldLine(v, body, c).0.head.hdrs;
    assert kept == v.head.hdrs || |kept[0].val| < HDR_VALSZ;
    assert ([h] + v.head.hdrs)[0] == h && |[h] + v.head.hdrs| == |v.head.hdrs| + 1;
  }

  lemma LongValue(s: string)
    requires |s| > HDR_VALSZ && s[0] == ' '
    ensures |Trim(StrNCpy0(s, HDR_VALSZ))| < HDR_VALSZ
  {
    var cut := StrNCpy0(s, HDR_VALSZ);
    if cut != "" {
      assert cut[0] == ' ';
      TrimStartShorter(cut);
    }
    TrimEndStops(TrimStart(cut));
  }
}
