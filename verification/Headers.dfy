/** What the fields of a header mean together, and what the blank line makes
    of them: for every list of fields, told from their text. */
module Headers {
  import opened Text
  import opened RequestSpec
  import opened PackSpec
  import opened RoundTrip
  import opened Lines

  // ---------- the meaning of a list of fields ----------

  predicate FieldOk(f: Hdr) {
    f.key != "" && Trimmed(f.key) && ':' !in f.key && Plain(f.key) && |f.key| <= HDR_KEYSZ && PrintableVal(f.val)
  }

  predicate AllOk(fs: seq<Hdr>) {
    forall i :: 0 <= i < |fs| ==> FieldOk(fs[i])
  }

  predicate Keyed(f: Hdr, key: string) {
    CaseEq(f.key, key)
  }

  predicate BadLength(f: Hdr) {
    Keyed(f, "Content-Length") && !AllDigits(f.val)
  }

  // The last field with a key decides, if there is one.
  ghost predicate LastWith(fs: seq<Hdr>, key: string, i: int) {
    if i < 0 then i == -1 && forall j :: 0 <= j < |fs| ==> !Keyed(fs[j], key)
    else i < |fs| && Keyed(fs[i], key) && forall j :: i < j < |fs| ==> !Keyed(fs[j], key)
  }

  ghost predicate HostOf(fs: seq<Hdr>, host: string) {
    forall i :: LastWith(fs, "Host", i) ==> host == if i < 0 then "" else fs[i].val
  }

  ghost predicate LengthOf(fs: seq<Hdr>, clen: int) {
    forall i :: LastWith(fs, "Content-Length", i) ==>
      if i < 0 then clen == -1 else AllDigits(fs[i].val) && clen == Atoi(fs[i].val)
  }

  ghost predicate AliveOf(fs: seq<Hdr>, alive: bool) {
    alive <==> forall i :: 0 <= i < |fs| && Keyed(fs[i], "Connection") ==> !CaseEq(fs[i].val, "close")
  }

  predicate Kept(f: Hdr) {
    !Keyed(f, "Host") && !Keyed(f, "Content-Length") && !Keyed(f, "Connection")
  }

  // The fields that are not interpreted, the last one first.
  function Others(fs: seq<Hdr>): seq<Hdr> {
    if fs == [] then []
    else (if Kept(fs[|fs| - 1]) then [fs[|fs| - 1]] else []) + Others(fs[..|fs| - 1])
  }

  // The head that a list of fields describes.
  ghost predicate Describes(fs: seq<Hdr>, h: ReqHead) {
    HostOf(fs, h.host) && LengthOf(fs, h.clen) && AliveOf(fs, h.alive) && h.hdrs == Others(fs)
  }

  // ---------- one field more ----------

  lemma LastStep(fs: seq<Hdr>, f: Hdr, key: string, i: int)
    requires LastWith(fs + [f], key, i)
    ensures Keyed(f, key) ==> i == |fs|
    ensures !Keyed(f, key) ==> LastWith(fs, key, i) && (i >= 0 ==> (fs + [f])[i] == fs[i])
  {
    assert (fs + [f])[|fs|] == f;
    assert forall j :: 0 <= j < |fs| ==> (fs + [f])[j] == fs[j];
  }

  lemma HostStep(fs: seq<Hdr>, f: Hdr, host: string)
    requires HostOf(fs, host)
    ensures HostOf(fs + [f], if Keyed(f, "Host") then f.val else host)
  {
    forall i | LastWith(fs + [f], "Host", i)
      ensures (if Keyed(f, "Host") then f.val else host) == if i < 0 then "" else (fs + [f])[i].val
    {
      LastStep(fs, f, "Host", i);
    }
  }

  lemma LengthStep(fs: seq<Hdr>, f: Hdr, clen: int)
    requires LengthOf(fs, clen) && !BadLength(f)
    ensures LengthOf(fs + [f], if Keyed(f, "Content-Length") then Atoi(f.val) else clen)
  {
    var new_ := if Keyed(f, "Content-Length") then Atoi(f.val) else clen;
    forall i | LastWith(fs + [f], "Content-Length", i)
      ensures if i < 0 then new_ == -1 else AllDigits((fs + [f])[i].val) && new_ == Atoi((fs + [f])[i].val)
    {
      LastStep(fs, f, "Content-Length", i);
    }
  }

  lemma AliveStep(fs: seq<Hdr>, f: Hdr, alive: bool)
    requires AliveOf(fs, alive)
    ensures AliveOf(fs + [f], alive && !(Keyed(f, "Connection") && CaseEq(f.val, "close")))
  {
    var all := fs + [f];
    assert all[|fs|] == f && forall j :: 0 <= j < |fs| ==> all[j] == fs[j];
  }

  lemma OneKey(f: Hdr)
    ensures Keyed(f, "Host") ==> !Keyed(f, "Content-Length") && !Keyed(f, "Connection")
    ensures Keyed(f, "Content-Length") ==> !Keyed(f, "Connection")
  {
  }

  // A field changes the head as the longer list describes.
  lemma FieldStep(fs: seq<Hdr>, h: ReqHead, f: Hdr)
    requires Describes(fs, h) && !BadLength(f)
    ensures var r := Field(h, f.key, f.val); r.Some? && Describes(fs + [f], r.value)
  {
    OneKey(f);
    HostStep(fs, f, h.host);
    if !BadLength(f) {
      LengthStep(fs, f, h.clen);
    }
    AliveStep(fs, f, h.alive);
    assert (fs + [f])[..|fs|] == fs;
  }

  lemma SplitLast(fs: seq<Hdr>)
    requires fs != []
    ensures fs == fs[..|fs| - 1] + [fs[|fs| - 1]]
  {
  }

  lemma {:induction false} HdrsTextAppend(fs: seq<Hdr>, f: Hdr)
    ensures HdrsText(fs + [f]) == HdrsText(fs) + FieldText(f.key, f.val)
  {
    if fs == [] {
      assert [f][1..] == [] && [] + [f] == [f];
      assert HdrsText([f]) == FieldText(f.key, f.val) + "";
    } else {
      assert (fs + [f])[1..] == fs[1..] + [f];
      HdrsTextAppend(fs[1..], f);
      Regroup(FieldText(fs[0].key, fs[0].val), HdrsText(fs[1..]), FieldText(f.key, f.val));
    }
  }

  // ---------- the text of the fields ----------

  // The request behind its request line.
  predicate Started(w: ReqVal) {
    w.phase == REQ_HEADER && w.head == Blank.head && w.rsize == 0
  }

  // Fields behind a parsed request line give the head that they describe.
  lemma {:induction false} FieldsMean(g: Grammar, block: string, w: ReqVal, fs: seq<Hdr>) returns (h: ReqHead)
    requires IsLiso(g) && IsBlock(block) && ParseBlock(g, Blank, block) == (w, |block|) && Started(w)
    requires AllOk(fs) && forall i :: 0 <= i < |fs| ==> !BadLength(fs[i])
    ensures Describes(fs, h)
    ensures var text := block + HdrsText(fs);
            IsBlock(text) && ParseBlock(g, Blank, text) == (w.(head := h), |text|)
  {
    if fs == [] {
      h := w.head;
      assert block + "" == block;
    } else {
      var n := |fs| - 1;
      var front, f := fs[..n], fs[n];
      h := FieldsMean(g, block, w, front);
      SplitLast(fs);
      h := OneFieldMore(g, block, w, front, h, f);
    }
  }

  lemma OneFieldMore(g: Grammar, block: string, w: ReqVal, fs: seq<Hdr>, h: ReqHead, f: Hdr) returns (k: ReqHead)
    requires IsLiso(g) && w.phase == REQ_HEADER && Describes(fs, h) && FieldOk(f) && !BadLength(f)
    requires var text := block + HdrsText(fs); IsBlock(text) && ParseBlock(g, Blank, text) == (w.(head := h), |text|)
    ensures Describes(fs + [f], k)
    ensures var text := block + HdrsText(fs + [f]); IsBlock(text) && ParseBlock(g, Blank, text) == (w.(head := k), |text|)
  {
    FieldStep(fs, h, f);
    k := Field(h, f.key, f.val).value;
    HdrsTextAppend(fs, f);
    Regroup(block, HdrsText(fs), FieldText(f.key, f.val));
    AnotherField(g, Blank, block + HdrsText(fs), w.(head := h), f.key, f.val);
  }

  // ---------- the blank line ----------

  // What comes of a header whose fields are read, told from its method and
  // whether a length was given.
  predicate Concludes(w: ReqVal, size: int, r: (ReqVal, int)) {
    if w.head.clen >= 0 then r == (w.(phase := REQ_BODY, rsize := w.head.clen), size)
    else if w.line.verb == POST then r == (Aborted(w), -411)
    else r == (w.(head := w.head.(clen := 0), phase := REQ_BODY, rsize := 0), size)
  }

  // A blank line ends the header only with a carriage return in front of its
  // newline; else it is bad.
  lemma BlankLineMeans(v: ReqVal, blanks: string)
    requires v.phase == REQ_HEADER && AllBlank(blanks)
    ensures IsLine(blanks + "\n")
    ensures var r := HeaderLine(v, blanks + "\n");
            if blanks != "" && blanks[|blanks| - 1] == '\r' then Concludes(v, 0, (r.0, -r.1)) else r == (Aborted(v), 400)
  {
    var line := blanks + "\n";
    assert Plain(blanks);
    LineIs(blanks);
    SkipBlanksIs(line, 0, |blanks|);
    assert line[|blanks|..|line| - 1] == "";
  }

  // A line without a colon, or with nothing in front of it, is bad.
  lemma NoKeyMeans(v: ReqVal, blanks: string, text: string)
    requires v.phase == REQ_HEADER && AllBlank(blanks) && text != "" && Plain(text) && !IsBlank(text[0])
    requires ':' !in text || text[0] == ':'
    ensures IsLine(blanks + text + "\n") && HeaderLine(v, blanks + text + "\n") == (Aborted(v), 400)
  {
    var line := blanks + text + "\n";
    assert Plain(blanks + text);
    LineIs(blanks + text);
    SkipBlanksIs(line, 0, |blanks|);
    assert line[|blanks|..|line| - 1] == text;
    if text[0] == ':' {
      IndexFromIs(text, ':', 0, 0);
    } else {
      IndexFromIs(text, ':', 0, |text|);
    }
  }

  lemma HeaderEnds(g: Grammar, block: string, w: ReqVal)
    requires IsLiso(g) && IsBlock(block) && ParseBlock(g, Blank, block) == (w, |block|) && w.phase == REQ_HEADER
    ensures IsBlock(block + CRLF) && Concludes(w, |block + CRLF|, ParseBlock(g, Blank, block + CRLF))
  {
    assert CRLF == "\r" + "\n";
    BlankLineMeans(w, "\r");
    assert g(w, CRLF) == ParseLine(w, CRLF);
    LineBehind(g, block, w, CRLF);
  }

  // One more line behind a block that leaves the header open.
  lemma LineBehind(g: Grammar, block: string, w: ReqVal, line: string)
    requires IsBlock(block) && ParseBlock(g, Blank, block) == (w, |block|) && w.phase == REQ_HEADER && IsLine(line)
    ensures IsBlock(block + line)
    ensures var r := g(w, line);
            && (r.1 != 0 ==> ParseBlock(g, Blank, block + line) == (r.0, -r.1))
            && (r.1 == 0 ==> ParseBlock(g, Blank, block + line) == (r.0, |block + line|))
  {
    OneLineBlock(g, w, line);
    ParseBlockConcat(g, Blank, block, line);
  }

  // ---------- whole headers ----------

  // A whole header: request line, fields, blank line.  With a length that is
  // no number it is 400; without one a POST is 411; else the request has the
  // head that its fields describe, and waits for its body.
  lemma HeaderMeans(g: Grammar, block: string, w: ReqVal, fs: seq<Hdr>) returns (h: ReqHead)
    requires IsLiso(g) && IsBlock(block) && ParseBlock(g, Blank, block) == (w, |block|) && Started(w)
    requires AllOk(fs)
    ensures var text := block + HdrsText(fs) + CRLF;
            && IsBlock(text)
            && if exists i :: 0 <= i < |fs| && BadLength(fs[i]) then ParseBlock(g, Blank, text).1 == -400
               else Describes(fs, h) && Concludes(w.(head := h), |text|, ParseBlock(g, Blank, text))
  {
    var text := block + HdrsText(fs);
    if exists i :: 0 <= i < |fs| && BadLength(fs[i]) {
      h := w.head;
      LengthMeans(g, block, w, fs);
      ParseBlockConcat(g, Blank, text, CRLF);
    } else {
      h := FieldsMean(g, block, w, fs);
      HeaderEnds(g, text, w.(head := h));
    }
  }

  // A length that is no number stops the parse, whatever is around it.
  lemma {:induction false} LengthMeans(g: Grammar, block: string, w: ReqVal, fs: seq<Hdr>)
    requires IsLiso(g) && IsBlock(block) && ParseBlock(g, Blank, block) == (w, |block|) && Started(w)
    requires AllOk(fs) && exists i :: 0 <= i < |fs| && BadLength(fs[i])
    ensures IsBlock(block + HdrsText(fs)) && ParseBlock(g, Blank, block + HdrsText(fs)).1 == -400
  {
    var n := |fs| - 1;
    var front, f := fs[..n], fs[n];
    SplitLast(fs);
    HdrsTextAppend(front, f);
    Regroup(block, HdrsText(front), FieldText(f.key, f.val));
    var line := FieldText(f.key, f.val);
    FieldTextParses(Blank.(phase := REQ_HEADER), f.key, f.val);
    if exists i :: 0 <= i < |front| && BadLength(front[i]) {
      LengthMeans(g, block, w, front);
      ParseBlockConcat(g, Blank, block + HdrsText(front), line);
    } else {
      var h := FieldsMean(g, block, w, front);
      BadLengthStops(g, block + HdrsText(front), w.(head := h), f);
    }
  }

  lemma BadLengthStops(g: Grammar, block: string, w: ReqVal, f: Hdr)
    requires IsLiso(g) && IsBlock(block) && ParseBlock(g, Blank, block) == (w, |block|) && w.phase == REQ_HEADER
    requires FieldOk(f) && BadLength(f)
    ensures var text := block + FieldText(f.key, f.val); IsBlock(text) && ParseBlock(g, Blank, text).1 == -400
  {
    var line := FieldText(f.key, f.val);
    OneKey(f);
    FieldTextParses(w, f.key, f.val);
    assert g(w, line) == ParseLine(w, line);
    LineBehind(g, block, w, line);
  }

  // ---------- whole requests ----------

  // A request line that names a known method and ends as it must.
  predicate GoodLine(s: Spaced) {
    WellSpaced(s) && MethodOf(s.verb) != OTHER && s.rest == "" && s.b3 != "" && s.b3[|s.b3| - 1] == '\r'
  }

  // The request line l as the text s tells it.
  predicate Tells(s: Spaced, l: ReqLine) {
    && l.verb == MethodOf(s.verb) && l.version == Cut(s.version, REQ_VERSZ)
    && SplitAs(Cut(s.target, REQ_URISZ), l.uri, l.params)
    && (l.kind == REQ_DYNAMIC <==> "/cgi/" <= s.target)
  }

  lemma LineStarts(g: Grammar, s: Spaced) returns (w: ReqVal)
    requires IsLiso(g) && GoodLine(s)
    ensures IsBlock(SpacedText(s)) && ParseBlock(g, Blank, SpacedText(s)) == (w, |SpacedText(s)|)
    ensures Started(w) && Tells(s, w.line)
  {
    var line := SpacedText(s);
    RequestLineMeans(Blank, s);
    w := RequestLine(Blank, line).0;
    assert g(Blank, line) == ParseLine(Blank, line);
    OneLineBlock(g, Blank, line);
  }

  // The whole header as text: what parsing it gives.
  lemma RequestMeans(g: Grammar, s: Spaced, fs: seq<Hdr>) returns (w: ReqVal)
    requires IsLiso(g) && GoodLine(s) && AllOk(fs)
    ensures var text := SpacedText(s) + HdrsText(fs) + CRLF;
            && IsBlock(text)
            && if exists i :: 0 <= i < |fs| && BadLength(fs[i]) then ParseBlock(g, Blank, text).1 == -400
               else
                 && w.phase == REQ_HEADER && w.rsize == 0 && Tells(s, w.line) && Describes(fs, w.head)
                 && Concludes(w, |text|, ParseBlock(g, Blank, text))
  {
    w := LineStarts(g, s);
    var h := HeaderMeans(g, SpacedText(s), w, fs);
    w := w.(head := h);
  }
}
