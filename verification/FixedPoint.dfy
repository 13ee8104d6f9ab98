/** Formatting reaches a fixed point: a third pass never changes anything. */
module FixedPoint {
  import opened Chars
  import opened Atoms
  import opened AtomsRoundTrip
  import opened Layout
  import opened Lexemes
  import opened Lines
  import opened Formatter
  import Fusing

  // --- The lines that formatting prints ---

  /** A line that a second pass prints unchanged, apart from the declaration flag. */
  predicate Clean(l: FLine, u: Alphabet) {
    l == BLANK ||
    (&& !l.blank && l.content != "" && OneLine(l.content)
     && !IsBlank(l.content[0]) && !IsWhitespace(Last(l.content))
     && l.comment == IsCommentText(l.content)
     && (if l.comment then CommentText(l.content) else Respace(l.content, u)) == l.content)
  }

  predicate AllClean(lines: seq<FLine>, u: Alphabet) {
    forall i :: 0 <= i < |lines| ==> Clean(lines[i], u)
  }

  /** Each line is at most one level deeper than the code before it. */
  predicate Chain(d: nat, lines: seq<FLine>)
    decreases |lines|
  {
    lines == [] ||
    (&& (!lines[0].blank ==> lines[0].depth <= d + 1)
     && Chain(if lines[0].blank || lines[0].comment then d else lines[0].depth, lines[1..]))
  }

  lemma {:induction false} LastOfScan(cs: string, u: Alphabet)
    requires cs != "" && !IsBlank(Last(cs))
    ensures Scan(cs, u) != []
    ensures var t := Last(Scan(cs, u)).text; t != "" && Last(t) == Last(cs)
    decreases |cs|
  {
    if IsBlank(cs[0]) {
      LastOfScan(cs[1..], u);
    } else {
      var a := FirstAtom(cs, u);
      var rest := cs[|a.text|..];
      ScanSplits(cs, u);
      if rest != "" {
        LastOfScan(rest, u);
      }
    }
  }

  lemma {:induction false} LastOfJoin(atoms: seq<Atom>, k: nat)
    requires k < |atoms| && Last(atoms).text != ""
    ensures var r := JoinFrom(atoms, k); r != "" && Last(r) == Last(Last(atoms).text)
    decreases |atoms| - k
  {
    var head, rest := Lead(atoms, k) + atoms[k].text, JoinFrom(atoms, k + 1);
    assert JoinFrom(atoms, k) == head + rest;
    if k + 1 < |atoms| {
      LastOfJoin(atoms, k + 1);
      LastOfConcat(head, rest);
    } else {
      assert head + rest == head;
      LastOfConcat(Lead(atoms, k), atoms[k].text);
    }
  }

  lemma LastOfConcat(a: string, b: string)
    requires b != ""
    ensures a + b != "" && Last(a + b) == Last(b)
  {
  }

  lemma FirstOfRespace(cs: string, u: Alphabet)
    requires cs != "" && !IsBlank(cs[0])
    ensures Respace(cs, u) != "" && Respace(cs, u)[0] == cs[0]
  {
    ScanSplits(cs, u);
    var atoms, a := Scan(cs, u), FirstAtom(cs, u);
    assert atoms[0] == a && a.text[0] == cs[0];
    assert JoinFrom(atoms, 0) == Lead(atoms, 0) + a.text + JoinFrom(atoms, 1);
    assert Lead(atoms, 0) + a.text == a.text;
    assert (a.text + JoinFrom(atoms, 1))[0] == a.text[0];
  }

  lemma RespaceClean(cs: string, u: Alphabet)
    requires cs != "" && !IsBlank(cs[0]) && !IsWhitespace(Last(cs)) && OneLine(cs)
    ensures var r := Respace(cs, u); r != "" && r[0] == cs[0] && Last(r) == Last(cs) && OneLine(r)
  {
    FirstOfRespace(cs, u);
    LastOfScan(cs, u);
    LastOfJoin(Scan(cs, u), 0);
    Fusing.JoinOneLine(cs, u);
  }

  lemma StrippedFacts(raw: string)
    requires OneLine(raw) && TrimEnd(raw) != ""
    ensures var t := Stripped(raw); t != "" && !IsBlank(t[0]) && !IsWhitespace(Last(t)) && OneLine(t)
  {
    var line := TrimEnd(raw);
    var n := BlankLen(line);
    assert n < |line| by {
      assert !IsBlank(line[|line| - 1]);
    }
    assert Last(line[n..]) == Last(line);
  }

  lemma NewLineClean(depth: nat, t: string, u: Alphabet)
    requires t != "" && !IsBlank(t[0]) && !IsWhitespace(Last(t)) && OneLine(t)
    ensures Clean(NewLine(depth, t, u), u)
  {
    if !IsCommentText(t) {
      RespaceClean(t, u);
      RespaceIdempotent(t, u);
    }
  }

  lemma FormatLineClean(raw: string, stack: seq<nat>, u: Alphabet)
    requires OneLine(raw)
    ensures Clean(FormatLine(raw, stack, u), u)
  {
    if TrimEnd(raw) != "" {
      StrippedFacts(raw);
      NewLineClean(FormatLine(raw, stack, u).depth, Stripped(raw), u);
    }
  }

  lemma {:induction false} FormatLinesClean(raws: seq<string>, stack: seq<nat>, u: Alphabet)
    requires forall i :: 0 <= i < |raws| ==> OneLine(raws[i])
    ensures AllClean(FormatLines(raws, stack, u), u)
    decreases |raws|
  {
    if raws != [] {
      FormatLineClean(raws[0], stack, u);
      FormatLinesClean(raws[1..], StackAfter(raws[0], stack), u);
    }
  }

  lemma {:induction false} PopToDepth(stack: seq<nat>, w: nat)
    requires stack != []
    ensures PopTo(stack, w) != []
  {
    if |stack| > 1 && Top(stack) > w {
      PopToDepth(Init(stack), w);
    }
  }

  lemma {:induction false} FormatLinesChain(raws: seq<string>, stack: seq<nat>, u: Alphabet)
    requires stack != []
    ensures Chain(DepthOf(stack), FormatLines(raws, stack, u))
    decreases |raws|
  {
    if raws != [] {
      PopToDepth(stack, IndentWidth(TrimEnd(raws[0])));
      FormatLinesChain(raws[1..], StackAfter(raws[0], stack), u);
    }
  }

  lemma {:induction false} SplitLinesOneLine(s: string)
    ensures forall i :: 0 <= i < |SplitLines(s)| ==> OneLine(SplitLines(s)[i])
    decreases |s|
  {
    if s != "" {
      var n := CommentLen(s);
      SplitLinesOneLine(if n < |s| then s[n + 1..] else "");
    }
  }

  // --- Blank lines ---

  /** No blank line at the start, at the end or behind another one. */
  predicate NoDouble(prevBlank: bool, lines: seq<FLine>)
    decreases |lines|
  {
    lines == [] || (!(prevBlank && lines[0].blank) && NoDouble(lines[0].blank, lines[1..]))
  }

  predicate Tidy(lines: seq<FLine>) {
    NoDouble(true, lines) && (lines != [] ==> !Last(lines).blank)
  }

  /** Facts about formatted lines that dropping or adding blanks preserves. */
  predicate Good(d: nat, lines: seq<FLine>, u: Alphabet) {
    AllClean(lines, u) && Chain(d, lines)
  }

  lemma {:induction false} SqueezeGood(pb: bool, d: nat, lines: seq<FLine>, u: Alphabet)
    requires Good(d, lines, u)
    ensures Good(d, Squeeze(pb, lines), u) && NoDouble(pb, Squeeze(pb, lines))
    decreases |lines|
  {
    if lines != [] {
      var e := if lines[0].blank || lines[0].comment then d else lines[0].depth;
      assert AllClean(lines[1..], u);
      SqueezeGood(lines[0].blank, e, lines[1..], u);
    }
  }

  lemma {:induction false} ChainInit(d: nat, lines: seq<FLine>)
    requires lines != [] && Chain(d, lines)
    ensures Chain(d, Init(lines))
    decreases |lines|
  {
    if |lines| > 1 {
      ChainInit(if lines[0].blank || lines[0].comment then d else lines[0].depth, lines[1..]);
      assert Init(lines)[1..] == Init(lines[1..]);
    }
  }

  lemma {:induction false} NoDoubleInit(pb: bool, lines: seq<FLine>)
    requires lines != [] && NoDouble(pb, lines)
    ensures NoDouble(pb, Init(lines))
    decreases |lines|
  {
    if |lines| > 1 {
      NoDoubleInit(lines[0].blank, lines[1..]);
      assert Init(lines)[1..] == Init(lines[1..]);
    }
  }

  lemma {:induction false} TrimBlanksGood(d: nat, lines: seq<FLine>, u: Alphabet)
    requires Good(d, lines, u) && NoDouble(true, lines)
    ensures Good(d, TrimBlanks(lines), u) && Tidy(TrimBlanks(lines))
    decreases |lines|
  {
    if lines != [] && Last(lines).blank {
      ChainInit(d, lines);
      NoDoubleInit(true, lines);
      TrimBlanksGood(d, Init(lines), u);
    }
  }

  lemma {:induction false} SqueezeIdle(pb: bool, lines: seq<FLine>)
    requires NoDouble(pb, lines)
    ensures Squeeze(pb, lines) == lines
    decreases |lines|
  {
    if lines != [] {
      SqueezeIdle(lines[0].blank, lines[1..]);
    }
  }

  // --- Separating declarations ---

  /** No line asks for a blank in front of it. */
  predicate Settled(prev: FLine, rest: seq<FLine>)
    decreases |rest|
  {
    rest == [] || (!Inserts(prev, rest) && Settled(rest[0], rest[1..]))
  }

  lemma {:induction false} SeparatedIdle(prev: FLine, rest: seq<FLine>)
    ensures |Separated(prev, rest)| >= |rest|
    ensures Settled(prev, rest) ==> Separated(prev, rest) == rest
    ensures !Settled(prev, rest) ==> |Separated(prev, rest)| > |rest|
    decreases |rest|
  {
    if rest != [] {
      SeparatedIdle(rest[0], rest[1..]);
      assert [rest[0]] + rest[1..] == rest;
    }
  }

  /** Nothing is inserted inside or right behind a group of comments. */
  lemma {:induction false} GroupKept(prev: FLine, rest: seq<FLine>)
    requires prev.comment
    ensures GroupLeads(Separated(prev, rest)) == GroupLeads(rest)
    decreases |rest|
  {
    if rest != [] {
      var out := Separated(prev, rest);
      assert out == [rest[0]] + Separated(rest[0], rest[1..]);
      assert out[1..] == Separated(rest[0], rest[1..]);
      if rest[0].comment {
        GroupKept(rest[0], rest[1..]);
      }
    }
  }

  lemma {:induction false} SeparatedSettled(prev: FLine, rest: seq<FLine>)
    ensures Settled(prev, Separated(prev, rest))
    decreases |rest|
  {
    if rest != [] {
      var line, more := rest[0], Separated(rest[0], rest[1..]);
      SeparatedSettled(line, rest[1..]);
      if line.comment {
        GroupKept(line, rest[1..]);
      }
      var tail := [line] + more;
      assert tail[1..] == more;
      var out := Separated(prev, rest);
      if Inserts(prev, rest) {
        assert out == [BLANK] + tail && out[1..] == tail;
      } else {
        assert out == tail;
      }
    }
  }

  function NextDepth(d: nat, line: FLine): nat {
    if line.blank || line.comment then d else line.depth
  }

  lemma GoodCons(d: nat, line: FLine, more: seq<FLine>, u: Alphabet)
    ensures Good(d, [line] + more, u) <==>
            Clean(line, u) && (!line.blank ==> line.depth <= d + 1) && Good(NextDepth(d, line), more, u)
  {
    assert ([line] + more)[1..] == more;
    AllCleanCons(line, more, u);
  }

  lemma AllCleanCons(line: FLine, more: seq<FLine>, u: Alphabet)
    ensures AllClean([line] + more, u) <==> Clean(line, u) && AllClean(more, u)
  {
    var all := [line] + more;
    if AllClean(all, u) {
      assert Clean(all[0], u);
      assert forall i :: 0 <= i < |more| ==> more[i] == all[i + 1];
    }
  }

  lemma NoDoubleCons(pb: bool, line: FLine, more: seq<FLine>)
    ensures NoDouble(pb, [line] + more) <==> !(pb && line.blank) && NoDouble(line.blank, more)
  {
    assert ([line] + more)[1..] == more;
  }

  lemma SeparatedShape(prev: FLine, rest: seq<FLine>)
    requires rest != []
    ensures var tail := [rest[0]] + Separated(rest[0], rest[1..]);
            Separated(prev, rest) == if Inserts(prev, rest) then [BLANK] + tail else tail
  {
  }

  lemma {:induction false} SeparatedGood(prev: FLine, d: nat, rest: seq<FLine>, u: Alphabet)
    requires Good(d, rest, u)
    ensures Good(d, Separated(prev, rest), u)
    decreases |rest|
  {
    if rest != [] {
      var line, more := rest[0], Separated(rest[0], rest[1..]);
      assert Clean(line, u) && Good(NextDepth(d, line), rest[1..], u) && (!line.blank ==> line.depth <= d + 1) by {
        assert rest == [line] + rest[1..];
        GoodCons(d, line, rest[1..], u);
      }
      SeparatedGood(line, NextDepth(d, line), rest[1..], u);
      var tail := [line] + more;
      assert Good(d, tail, u) by {
        GoodCons(d, line, more, u);
      }
      assert Good(d, [BLANK] + tail, u) by {
        GoodCons(d, BLANK, tail, u);
      }
      SeparatedShape(prev, rest);
    }
  }

  lemma {:induction false} SeparatedTidy(prev: FLine, rest: seq<FLine>)
    requires NoDouble(prev.blank, rest)
    ensures NoDouble(prev.blank, Separated(prev, rest))
    ensures rest != [] ==> Separated(prev, rest) != [] && Last(Separated(prev, rest)) == Last(rest)
    decreases |rest|
  {
    if rest != [] {
      var line, more := rest[0], Separated(rest[0], rest[1..]);
      SeparatedTidy(line, rest[1..]);
      var tail := [line] + more;
      NoDoubleCons(prev.blank, line, more);
      NoDoubleCons(true, line, more);
      NoDoubleCons(prev.blank, BLANK, tail);
      SeparatedShape(prev, rest);
      assert Last(tail) == Last(rest) by {
        if |rest| > 1 {
          assert Last(rest[1..]) == Last(rest) && Last(tail) == Last(more);
        }
      }
      assert Last([BLANK] + tail) == Last(tail);
    }
  }

  /** Every printed text consists of clean, tidy lines that no pass wants to separate further. */
  lemma OutputGood(source: string, u: Alphabet)
    ensures Good(0, OutputLines(source, u), u) && Tidy(OutputLines(source, u))
    ensures Settled(BLANK, OutputLines(source, u))
  {
    var raws := SplitLines(source);
    var lines := FormatLines(raws, [0], u);
    SplitLinesOneLine(source);
    FormatLinesClean(raws, [0], u);
    FormatLinesChain(raws, [0], u);
    SqueezeGood(true, 0, lines, u);
    TrimBlanksGood(0, Squeeze(true, lines), u);
    SeparatedGood(BLANK, 0, NormalizeBlanks(lines), u);
    SeparatedTidy(BLANK, NormalizeBlanks(lines));
    SeparatedSettled(BLANK, NormalizeBlanks(lines));
  }

  // --- A second pass over printed lines ---

  /** The levels a printed text uses: 0, 4, ..., 4 * d. */
  function Steps(d: nat): (s: seq<nat>)
    ensures |s| == d + 1 && forall i :: 0 <= i <= d ==> s[i] == 4 * i
  {
    seq(d + 1, i requires 0 <= i <= d => 4 * i)
  }

  /** The line as a second pass sees it: the declaration flag is read from the printed text. */
  function Reread(l: FLine): FLine {
    if l.blank then BLANK else l.(decl := l.depth == 0 && IsDeclaration(l.content))
  }

  function RereadAll(lines: seq<FLine>): (r: seq<FLine>)
    ensures |r| == |lines| && forall i :: 0 <= i < |r| ==> r[i] == Reread(lines[i])
  {
    if lines == [] then [] else [Reread(lines[0])] + RereadAll(lines[1..])
  }

  lemma {:induction false} PopToSteps(d: nat, e: nat)
    requires e <= d
    ensures PopTo(Steps(d), 4 * e) == Steps(e)
    decreases d
  {
    if e < d {
      assert Init(Steps(d)) == Steps(d - 1);
      PopToSteps(d - 1, e);
    }
  }

  lemma CodeStackSteps(d: nat, e: nat)
    requires e <= d + 1
    ensures CodeStack(4 * e, Steps(d)) == Steps(e)
  {
    if e == d + 1 {
      assert Steps(d) + [4 * e] == Steps(e);
    } else {
      PopToSteps(d, e);
    }
  }

  lemma CommentDepthSteps(d: nat, e: nat)
    requires e <= d + 1
    ensures CommentDepth(4 * e, Steps(d)) == e
  {
    if e <= d {
      assert Steps(d)[e] == 4 * e;
    }
  }

  lemma {:induction false} IndentOfText(n: nat, t: string)
    requires t != "" && !IsBlank(t[0])
    ensures BlankLen(Spaces(n) + t) == n && IndentWidth(Spaces(n) + t) == n
  {
    if n == 0 {
      assert Spaces(0) + t == t;
    } else {
      assert (Spaces(n) + t)[1..] == Spaces(n - 1) + t;
      IndentOfText(n - 1, t);
    }
  }

  lemma TextParts(l: FLine, u: Alphabet)
    requires Clean(l, u) && !l.blank
    ensures var t := TextOfLine(l);
            && OneLine(t) && TrimEnd(t) == t && t != ""
            && IndentWidth(t) == 4 * l.depth && Stripped(t) == l.content
  {
    var sp, t := Spaces(4 * l.depth), TextOfLine(l);
    IndentOfText(4 * l.depth, l.content);
    assert Last(t) == Last(l.content);
    assert t[|sp|..] == l.content;
  }

  lemma RereadLine(l: FLine, d: nat, u: Alphabet)
    requires Clean(l, u) && (!l.blank ==> l.depth <= d + 1)
    ensures FormatLine(TextOfLine(l), Steps(d), u) == Reread(l)
    ensures StackAfter(TextOfLine(l), Steps(d)) == Steps(NextDepth(d, l))
  {
    if !l.blank {
      var t := TextOfLine(l);
      TextParts(l, u);
      CodeStackSteps(d, l.depth);
      CommentDepthSteps(d, l.depth);
      RereadAt(t, l, Steps(d), u);
    }
  }

  lemma RereadAt(t: string, l: FLine, stack: seq<nat>, u: Alphabet)
    requires Clean(l, u) && !l.blank && stack != []
    requires TrimEnd(t) == t && t != "" && IndentWidth(t) == 4 * l.depth && Stripped(t) == l.content
    requires DepthOf(CodeStack(4 * l.depth, stack)) == l.depth && CommentDepth(4 * l.depth, stack) == l.depth
    ensures FormatLine(t, stack, u) == Reread(l)
    ensures StackAfter(t, stack) == if l.comment then stack else CodeStack(4 * l.depth, stack)
  {
  }

  lemma FormatLinesCons(raw: string, raws: seq<string>, stack: seq<nat>, u: Alphabet)
    ensures FormatLines([raw] + raws, stack, u) ==
            [FormatLine(raw, stack, u)] + FormatLines(raws, StackAfter(raw, stack), u)
  {
    assert ([raw] + raws)[1..] == raws;
  }

  lemma GoodTail(d: nat, lines: seq<FLine>, u: Alphabet)
    requires Good(d, lines, u) && lines != []
    ensures Clean(lines[0], u) && (!lines[0].blank ==> lines[0].depth <= d + 1)
    ensures Good(NextDepth(d, lines[0]), lines[1..], u)
  {
    assert lines == [lines[0]] + lines[1..];
    GoodCons(d, lines[0], lines[1..], u);
  }

  lemma FormatTexts(lines: seq<FLine>, stack: seq<nat>, u: Alphabet)
    requires lines != []
    ensures var t := TextOfLine(lines[0]);
            FormatLines(Texts(lines), stack, u) ==
            [FormatLine(t, stack, u)] + FormatLines(Texts(lines[1..]), StackAfter(t, stack), u)
  {
    assert Texts(lines) == [TextOfLine(lines[0])] + Texts(lines[1..]);
    FormatLinesCons(TextOfLine(lines[0]), Texts(lines[1..]), stack, u);
  }

  lemma {:induction false} RereadLines(lines: seq<FLine>, d: nat, u: Alphabet)
    requires Good(d, lines, u)
    ensures FormatLines(Texts(lines), Steps(d), u) == RereadAll(lines)
    decreases |lines|
  {
    if lines != [] {
      GoodTail(d, lines, u);
      RereadLines(lines[1..], NextDepth(d, lines[0]), u);
      RereadLine(lines[0], d, u);
      FormatTexts(lines, Steps(d), u);
    }
  }

  lemma {:induction false} SplitUnlines(ts: seq<string>)
    requires forall i :: 0 <= i < |ts| ==> OneLine(ts[i])
    ensures SplitLines(Unlines(ts)) == ts
    decreases |ts|
  {
    if ts != [] {
      var r := ['\n'] + Unlines(ts[1..]);
      assert Unlines(ts) == ts[0] + r;
      CommentLenStops(ts[0], r);
      var n := |ts[0]|;
      assert Unlines(ts)[..n] == ts[0] && Unlines(ts)[n + 1..] == Unlines(ts[1..]);
      SplitUnlines(ts[1..]);
    }
  }

  lemma TextsOneLine(lines: seq<FLine>, u: Alphabet)
    requires AllClean(lines, u)
    ensures forall i :: 0 <= i < |lines| ==> OneLine(Texts(lines)[i])
  {
    forall i | 0 <= i < |lines|
      ensures OneLine(Texts(lines)[i])
    {
      if !lines[i].blank {
        TextParts(lines[i], u);
      }
    }
  }

  lemma {:induction false} RereadNoDouble(pb: bool, lines: seq<FLine>)
    ensures NoDouble(pb, RereadAll(lines)) == NoDouble(pb, lines)
    decreases |lines|
  {
    if lines != [] {
      RereadNoDouble(lines[0].blank, lines[1..]);
      assert RereadAll(lines)[1..] == RereadAll(lines[1..]);
    }
  }

  lemma RereadKeeps(lines: seq<FLine>)
    ensures RereadAll(RereadAll(lines)) == RereadAll(lines)
    ensures Texts(RereadAll(lines)) == Texts(lines)
  {
  }

  /** Formatting a printed text only separates the declarations it now sees. */
  lemma SecondPass(lines: seq<FLine>, u: Alphabet)
    requires Good(0, lines, u) && Tidy(lines)
    ensures OutputLines(Print(lines), u) == Separated(BLANK, RereadAll(lines))
  {
    if lines == [] {
      SplitUnlines([""]);
      assert FormatLines([""], [0], u) == [BLANK];
      assert Squeeze(true, [BLANK]) == Squeeze(true, [BLANK][1..]) == [];
    } else {
      TextsOneLine(lines, u);
      SplitUnlines(Texts(lines));
      assert Steps(0) == [0];
      RereadLines(lines, 0, u);
      RereadNoDouble(true, lines);
      SqueezeIdle(true, RereadAll(lines));
    }
  }

  lemma {:induction false} RereadSeparated(prev: FLine, lines: seq<FLine>)
    requires RereadAll(lines) == lines
    ensures RereadAll(Separated(prev, lines)) == Separated(prev, lines)
    decreases |lines|
  {
    if lines != [] {
      var line, more := lines[0], Separated(lines[0], lines[1..]);
      assert RereadAll(lines)[1..] == RereadAll(lines[1..]) && RereadAll(lines)[0] == Reread(line);
      RereadSeparated(line, lines[1..]);
      var tail := [line] + more;
      assert tail[1..] == more && ([BLANK] + tail)[1..] == tail;
      SeparatedShape(prev, lines);
    }
  }

  lemma {:induction false} UnlinesLength(ts: seq<string>, rs: seq<string>)
    requires forall i :: 0 <= i < |ts| ==> OneLine(ts[i])
    requires forall i :: 0 <= i < |rs| ==> OneLine(rs[i])
    requires Unlines(ts) == Unlines(rs)
    ensures ts == rs
  {
    SplitUnlines(ts);
    SplitUnlines(rs);
  }

  /** A pass over its own output changes nothing exactly when no line asks for a blank. */
  lemma SecondPassIdle(source: string, u: Alphabet)
    ensures Normalize(Normalize(source, u), u) == Normalize(source, u) <==>
            Settled(BLANK, RereadAll(OutputLines(source, u)))
  {
    var lines := OutputLines(source, u);
    OutputGood(source, u);
    SecondPass(lines, u);
    RereadKeeps(lines);
    var again := RereadAll(lines);
    var next := Separated(BLANK, again);
    SeparatedIdle(BLANK, again);
    if Settled(BLANK, again) {
      assert next == again;
    } else {
      OutputGood(Normalize(source, u), u);
      TextsOneLine(next, u);
      TextsOneLine(lines, u);
      if Print(next) == Print(lines) {
        assert lines != [];
        UnlinesLength(Texts(next), Texts(lines));
      }
    }
  }

  /** The second pass is idle when respacing shows or hides no declaration. */
  lemma StableDeclarationsIdle(source: string, u: Alphabet)
    requires RereadAll(OutputLines(source, u)) == OutputLines(source, u)
    ensures Normalize(Normalize(source, u), u) == Normalize(source, u)
  {
    OutputGood(source, u);
    SecondPassIdle(source, u);
  }

  /** For every text, the third pass prints what the second one printed. */
  lemma ThirdPassIdle(source: string, u: Alphabet)
    ensures var twice := Normalize(Normalize(source, u), u); Normalize(twice, u) == twice
  {
    var once := Normalize(source, u);
    var lines := OutputLines(source, u);
    OutputGood(source, u);
    SecondPass(lines, u);
    RereadKeeps(lines);
    RereadSeparated(BLANK, RereadAll(lines));
    StableDeclarationsIdle(once, u);
  }
}
