/** What a request header means, told from its text: for every request line,
    every list of fields and the blank line, which request comes out or which
    status. */
module Lines {
  import opened Text
  import opened RequestSpec
  import opened RoundTrip

  // ---------- the request line ----------

  // Blanks and a word, at their places in a line.
  lemma NextWordIs(line: string, i: nat, a: nat, b: nat)
    requires IsLine(line) && i <= a <= b < |line|
    requires forall k :: i <= k < a ==> IsBlank(line[k])
    requires !IsBlank(line[a]) && IsSpace(line[b])
    requires forall k :: a <= k < b ==> !IsSpace(line[k])
    ensures NextWord(line, i) == Word(a, b)
  {
    SkipBlanksIs(line, i, a);
    SkipWordIs(line, a, b);
  }

  lemma CaseEqPointwise(a: string, b: string)
    ensures CaseEq(a, b) <==> |a| == |b| && forall k :: 0 <= k < |a| ==> ToLower(a[k]) == ToLower(b[k])
  {
    if |a| == |b| {
      CaseEqFromPointwise(a, b, 0);
    }
  }

  predicate Upper(c: char) {
    c in "ABCDEFGHIJKLMNOPQRSTUVWXYZ"
  }

  // The same letter, or the same byte.
  predicate SameLetter(a: char, b: char) {
    a == b || (Upper(a) && b as int == a as int + 32) || (Upper(b) && a as int == b as int + 32)
  }

  // Names are compared byte by byte; only the case of letters is ignored.
  lemma CaseEqMeans(a: string, b: string)
    ensures CaseEq(a, b) <==> |a| == |b| && forall k :: 0 <= k < |a| ==> SameLetter(a[k], b[k])
  {
    CaseEqPointwise(a, b);
    forall k | 0 <= k < |a| && |a| == |b|
      ensures ToLower(a[k]) == ToLower(b[k]) <==> SameLetter(a[k], b[k])
    {
      Letters(a[k]);
      Letters(b[k]);
    }
  }

  lemma Letters(c: char)
    ensures Upper(c) <==> 'A' <= c <= 'Z'
  {
    var all := "ABCDEFGHIJKLMNOPQRSTUVWXYZ";
    if 'A' <= c <= 'Z' {
      assert all[c as int - 65] == c;
    }
  }

  // Six bytes are white space, and all but the newline may stand in a line.
  lemma SpaceMeans(c: char)
    ensures IsSpace(c) <==> c in " \t\n\U{0B}\U{0C}\r"
    ensures IsBlank(c) <==> c in " \t\U{0B}\U{0C}\r"
  {
    assert c == '\U{0B}' <==> c as int == 11;
    assert c == '\U{0C}' <==> c as int == 12;
  }

  lemma {:induction false} CaseEqFromPointwise(a: string, b: string, i: nat)
    requires |a| == |b| && i <= |a|
    ensures CaseEqFrom(a, b, i) <==> forall k :: i <= k < |a| ==> ToLower(a[k]) == ToLower(b[k])
    decreases |a| - i
  {
    if i < |a| {
      CaseEqFromPointwise(a, b, i + 1);
    }
  }

  // A word that a blank follows names a method exactly if it is the keyword,
  // in upper or lower case.
  lemma NamesWhole(line: string, w: Word, keyword: string)
    requires w.start < w.end < |line| && |keyword| <= 8 && Solid(line[w.start..w.end]) && IsBlank(line[w.end])
    ensures Names(line, w, keyword) <==> CaseEq(line[w.start..w.end], keyword)
  {
    var m := line[w.start..w.end];
    var name := StrNCpy0(m, 8);
    CutSolid(m, 8);
    if |keyword| < |m| {
      assert line[w.start + |keyword|] == m[|keyword|];
    } else if |keyword| == |m| {
      assert name[..|keyword|] == m;
    }
  }

  // What fits into n bytes.
  function Cut(s: string, n: nat): string {
    if |s| <= n then s else s[..n]
  }

  lemma CutSolid(m: string, n: nat)
    requires '\0' !in m
    ensures StrNCpy0(m, n) == Cut(m, n)
  {
    var s := Cut(m, n);
    assert '\0' !in s;
    CutNulIs(s, |s|);
    assert s[..|s|] == s;
  }

  function MethodOf(m: string): Method {
    if CaseEq(m, "GET") then GET else if CaseEq(m, "HEAD") then HEAD else if CaseEq(m, "POST") then POST else OTHER
  }

  // Target text, taken apart at its first question mark.
  predicate SplitAs(t: string, path: string, query: Option<string>) {
    '?' !in path && t == if query.Some? then path + "?" + query.value else path
  }

  lemma QuerySplit(t: string)
    ensures SplitAs(t, BeforeQuery(t), AfterQuery(t))
  {
    IndexFromFirst(t, '?', 0);
    var q := IndexOf(t, '?');
    if q < |t| {
      assert t == t[..q] + "?" + t[q + 1..];
    }
  }

  // A line of three words, with any blanks around them and anything behind.
  datatype Spaced = Spaced(b0: string, verb: string, b1: string, target: string, b2: string, version: string,
                           b3: string, rest: string)

  function SpacedText(s: Spaced): string {
    s.b0 + (s.verb + (s.b1 + (s.target + (s.b2 + (s.version + (s.b3 + (s.rest + "\n")))))))
  }

  predicate WellSpaced(s: Spaced) {
    && AllBlank(s.b0) && AllBlank(s.b1) && AllBlank(s.b2) && AllBlank(s.b3) && s.b1 != "" && s.b2 != ""
    && Solid(s.verb) && Solid(s.target) && Solid(s.version)
    && !CaseEq(s.target, "http://") && !CaseEq(s.target, "https://")
    && Plain(s.rest) && (s.rest != "" ==> s.b3 != "" && !IsSpace(s.rest[0]))
  }

  // Where each part ends.
  datatype Places = Places(p0: nat, p1: nat, p2: nat, p3: nat, p4: nat, p5: nat, p6: nat)

  function PlacesOf(s: Spaced): Places {
    var p1 := |s.b0| + |s.verb|;
    var p3 := p1 + |s.b1| + |s.target|;
    var p5 := p3 + |s.b2| + |s.version|;
    Places(|s.b0|, p1, p1 + |s.b1|, p3, p3 + |s.b2|, p5, p5 + |s.b3|)
  }

  // One part, and what is behind it.
  lemma Peel(line: string, a: nat, part: string, tail: string)
    requires a <= |line| && line[a..] == part + tail
    ensures a + |part| <= |line| && line[a..a + |part|] == part && line[a + |part|..] == tail
  {
    assert line[a..][|part|..] == tail;
  }

  ghost predicate Laid(s: Spaced, line: string, p: Places) {
    && p.p0 <= p.p1 <= p.p2 <= p.p3 <= p.p4 <= p.p5 <= p.p6 < |line|
    && line[..p.p0] == s.b0 && line[p.p0..p.p1] == s.verb && line[p.p1..p.p2] == s.b1
    && line[p.p2..p.p3] == s.target && line[p.p3..p.p4] == s.b2 && line[p.p4..p.p5] == s.version
    && line[p.p5..p.p6] == s.b3 && line[p.p6..] == s.rest + "\n"
  }

  lemma SpacedLaid(s: Spaced)
    ensures Laid(s, SpacedText(s), PlacesOf(s))
  {
    var p := PlacesOf(s);
    var back := s.version + (s.b3 + (s.rest + "\n"));
    FrontLaid(s, SpacedText(s), p, back);
    BackLaid(s, SpacedText(s), p.p4);
  }

  lemma FrontLaid(s: Spaced, line: string, p: Places, back: string)
    requires p == PlacesOf(s) && line == s.b0 + (s.verb + (s.b1 + (s.target + (s.b2 + back))))
    ensures p.p4 <= |line| && line[..p.p0] == s.b0 && line[p.p0..p.p1] == s.verb && line[p.p1..p.p2] == s.b1
    ensures line[p.p2..p.p3] == s.target && line[p.p3..p.p4] == s.b2 && line[p.p4..] == back
  {
    assert line[0..] == line && line[0..p.p0] == line[..p.p0];
    Peel(line, 0, s.b0, s.verb + (s.b1 + (s.target + (s.b2 + back))));
    Peel(line, p.p0, s.verb, s.b1 + (s.target + (s.b2 + back)));
    Peel(line, p.p1, s.b1, s.target + (s.b2 + back));
    Peel(line, p.p2, s.target, s.b2 + back);
    Peel(line, p.p3, s.b2, back);
  }

  lemma BackLaid(s: Spaced, line: string, a: nat)
    requires a <= |line| && line[a..] == s.version + (s.b3 + (s.rest + "\n"))
    ensures var b := a + |s.version|;
            var c := b + |s.b3|;
            c < |line| && line[a..b] == s.version && line[b..c] == s.b3 && line[c..] == s.rest + "\n"
  {
    Peel(line, a, s.version, s.b3 + (s.rest + "\n"));
    Peel(line, a + |s.version|, s.b3, s.rest + "\n");
  }

  // Blanks, then a word, then another space.
  lemma WordBehind(line: string, i: nat, a: nat, b: nat)
    requires IsLine(line) && i <= a <= b < |line|
    requires AllBlank(line[i..a]) && Solid(line[a..b]) && IsSpace(line[b])
    ensures NextWord(line, i) == Word(a, b)
  {
    var blanks, word := line[i..a], line[a..b];
    assert forall k :: i <= k < a ==> line[k] == blanks[k - i];
    assert forall k :: a <= k < b ==> line[k] == word[k - a];
    NextWordIs(line, i, a, b);
  }

  lemma FirstOf(line: string, a: nat, b: nat)
    requires a < b <= |line|
    ensures line[a] == line[a..b][0] && line[b - 1] == line[a..b][b - a - 1]
  {
  }

  lemma ThreeWords(s: Spaced, line: string, p: Places)
    requires WellSpaced(s) && IsLine(line) && Laid(s, line, p) && IsSpace(line[p.p5])
    ensures p.p0 < p.p1 && line[p.p1] == s.b1[0]
    ensures NextWord(line, 0) == Word(p.p0, p.p1) && NextWord(line, p.p1) == Word(p.p2, p.p3)
    ensures NextWord(line, p.p3) == Word(p.p4, p.p5)
  {
    assert line[0..p.p0] == line[..p.p0];
    FirstOf(line, p.p1, p.p2);
    FirstOf(line, p.p3, p.p4);
    WordBehind(line, 0, p.p0, p.p1);
    WordBehind(line, p.p1, p.p2, p.p3);
    WordBehind(line, p.p3, p.p4, p.p5);
  }

  lemma Behind(s: Spaced, line: string, p: Places)
    requires WellSpaced(s) && IsLine(line) && Laid(s, line, p)
    ensures IsSpace(line[p.p5]) && NextWord(line, p.p5).start == p.p6
    ensures AtLineEnd(line, p.p6) <==> s.rest == "" && s.b3 != "" && s.b3[|s.b3| - 1] == '\r'
  {
    var tail := s.rest + "\n";
    assert line[p.p6] == line[p.p6..][0] == tail[0];
    assert forall k :: p.p5 <= k < p.p6 ==> line[k] == line[p.p5..p.p6][k - p.p5];
    FirstOf(line, p.p4, p.p5);
    SkipBlanksIs(line, p.p5, p.p6);
  }

  lemma SpacedIsLine(s: Spaced)
    requires WellSpaced(s)
    ensures IsLine(SpacedText(s))
  {
    var text := s.b0 + (s.verb + (s.b1 + (s.target + (s.b2 + (s.version + (s.b3 + s.rest))))));
    assert Plain(s.b3 + s.rest) && Plain(s.b2 + (s.version + (s.b3 + s.rest)));
    assert Plain(text);
    assert SpacedText(s) == text + "\n";
    LineIs(text);
  }

  // What a line of at least three words does: an unknown method is 501; a
  // known one needs the line to end behind the version, with a carriage
  // return in front of the newline, or it is 400.
  lemma RequestLineMeans(v: ReqVal, s: Spaced)
    requires v.phase == REQ_START && v.line.kind == REQ_STATIC && WellSpaced(s)
    ensures IsLine(SpacedText(s))
    ensures var r := RequestLine(v, SpacedText(s));
            if MethodOf(s.verb) == OTHER then r == (Aborted(v), 501)
            else
              && (r.1 == 0 <==> s.rest == "" && s.b3 != "" && s.b3[|s.b3| - 1] == '\r')
              && (r.1 != 0 ==> r.1 == 400 && r.0.phase == REQ_ABORT)
              && (r.1 == 0 ==>
                    && r.0 == v.(line := r.0.line, phase := REQ_HEADER)
                    && r.0.line.verb == MethodOf(s.verb) && r.0.line.version == Cut(s.version, REQ_VERSZ)
                    && SplitAs(Cut(s.target, REQ_URISZ), r.0.line.uri, r.0.line.params)
                    && (r.0.line.kind == REQ_DYNAMIC <==> "/cgi/" <= s.target))
  {
    var line, p := SpacedText(s), PlacesOf(s);
    SpacedIsLine(s);
    SpacedLaid(s);
    Behind(s, line, p);
    ThreeWords(s, line, p);
    VerbMeans(line, Word(p.p0, p.p1), s);
    CutSolid(s.target, REQ_URISZ);
    CutSolid(s.version, REQ_VERSZ);
    QuerySplit(Cut(s.target, REQ_URISZ));
    CutPrefix(s.target);
  }

  lemma CutPrefix(t: string)
    ensures "/cgi/" <= Cut(t, REQ_URISZ) <==> "/cgi/" <= t
  {
    if |t| > REQ_URISZ {
      assert t[..REQ_URISZ][..5] == t[..5];
    }
  }

  lemma VerbMeans(line: string, w: Word, s: Spaced)
    requires WellSpaced(s) && w.start < w.end < |line| && line[w.start..w.end] == s.verb
    requires line[w.end] == s.b1[0]
    ensures VerbOf(line, w) == MethodOf(s.verb) && WordText(line, w, 8) != ""
  {
    NamesWhole(line, w, "GET");
    NamesWhole(line, w, "HEAD");
    NamesWhole(line, w, "POST");
    CutSolid(s.verb, 8);
  }
}
