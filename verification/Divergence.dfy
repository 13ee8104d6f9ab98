/**
 * When formatting changes the meaning: a line that does not move alike before and after
 * printing, or on which something fuses, leaves a difference in the meaning-bearing tokens
 * that nothing behind it can undo. So the tokens are kept exactly when no line does.
 */
module Divergence {
  import opened Atoms
  import opened Chars
  import opened Layout
  import opened Lexemes
  import opened Fusing
  import opened Lines
  import opened Formatter
  import opened FixedPoint
  import opened Meaning

  // --- Tokens that stay once they are there ---

  predicate Grounded(k: Kind) {
    !IsLayout(k) && !k.Newline? && !k.Eof?
  }

  /** `pre` heads the stream and ends in a token that no later step takes back. */
  predicate Settles(pre: seq<Kind>, ts: seq<Kind>) {
    pre != [] && Grounded(Last(pre)) && pre <= ts
  }

  lemma {:induction false} DropNewlineKeeps(pre: seq<Kind>, ts: seq<Kind>)
    requires Settles(pre, ts)
    ensures Settles(pre, DropNewline(ts))
  {
    if pre != ts && IsLayout(Last(ts)) {
      assert pre <= Init(ts);
      DropNewlineKeeps(pre, Init(ts));
    }
  }

  lemma {:induction false} EmitAllKeeps(pre: seq<Kind>, st: LexState, ks: seq<Kind>)
    requires Settles(pre, st.tokens)
    ensures Settles(pre, EmitAll(st, ks).tokens)
    decreases |ks|
  {
    if ks != [] {
      DropNewlineKeeps(pre, st.tokens);
      EmitAllKeeps(pre, Emit(st, ks[0]), ks[1..]);
    }
  }

  lemma LineKeeps(pre: seq<Kind>, line: string, st: LexState)
    requires Settles(pre, st.tokens) && LineStep(line, st).Next?
    ensures Settles(pre, LineStep(line, st).st.tokens)
  {
    var inLine := st.(lineStart := false);
    IndentMoves(inLine, SpaceLen(line));
    assert Settles(pre, EnterLine(line, st).st.tokens);
    EmitAllKeeps(pre, EnterLine(line, st).st, LexLine(line).kinds);
  }

  lemma {:induction false} LinesKeep(pre: seq<Kind>, lines: seq<string>, st: LexState)
    requires Settles(pre, st.tokens) && LinesStep(lines, st).Next?
    ensures Settles(pre, LinesStep(lines, st).st.tokens)
    decreases |lines|
  {
    if lines != [] {
      LineKeeps(pre, lines[0], st);
      LinesKeep(pre, lines[1..], LineStep(lines[0], st).st);
    }
  }

  lemma {:induction false} DropTerminalKeeps(pre: seq<Kind>, ts: seq<Kind>)
    requires Settles(pre, ts)
    ensures Settles(pre, DropTerminal(ts))
  {
    if pre != ts && Last(ts).Dedent? {
      assert pre <= Init(ts);
      DropTerminalKeeps(pre, Init(ts));
    }
  }

  lemma FilterAround(a: seq<Kind>, k: Kind, rest: seq<Kind>)
    requires Grounded(k)
    ensures Filter(a + [k]) == Filter(a) + [k]
    ensures Filter(a + [k] + rest) == Filter(a) + [k] + Filter(rest)
  {
    FilterLast(a, k);
    FilterConcat(a + [k], rest);
  }

  lemma FilterSettles(pre: seq<Kind>, ts: seq<Kind>)
    requires Settles(pre, ts)
    ensures Settles(Filter(pre), Filter(ts))
  {
    var a, k, rest := Init(pre), Last(pre), ts[|pre|..];
    assert pre == a + [k] && ts == a + [k] + rest;
    FilterAround(a, k, rest);
    SettledHead(Filter(a), k, Filter(rest));
  }

  lemma SettledHead(a: seq<Kind>, k: Kind, rest: seq<Kind>)
    requires Grounded(k)
    ensures Settles(a + [k], a + [k] + rest)
  {
  }

  /** What has settled is part of the meaning-bearing tokens. */
  lemma SignificantKeeps(pre: seq<Kind>, st: LexState)
    requires Settles(pre, st.tokens)
    ensures Filter(pre) <= Significant(Finish(st))
  {
    FilterSettles(pre, st.tokens);
    DropTerminalKeeps(Filter(pre), Filter(st.tokens));
    SignificantFinish(st);
  }

  // --- A difference that settles ---

  lemma DropNewlinePush(ts: seq<Kind>, k: Kind)
    requires IsLayout(k)
    ensures DropNewline(ts + [k]) == DropNewline(ts) + [k]
  {
    assert Init(ts + [k]) == ts;
  }

  lemma {:induction false} DropNewlineDedents(ts: seq<Kind>, n: nat)
    ensures DropNewline(ts + Dedents(n)) == DropNewline(ts) + Dedents(n)
  {
    if n == 0 {
      assert ts + Dedents(0) == ts && DropNewline(ts) + Dedents(0) == DropNewline(ts);
    } else {
      DropNewlineDedents(ts, n - 1);
      DropNewlinePush(ts + Dedents(n - 1), Dedent);
      assert ts + Dedents(n) == ts + Dedents(n - 1) + [Dedent];
      assert DropNewline(ts) + Dedents(n) == DropNewline(ts) + Dedents(n - 1) + [Dedent];
    }
  }

  /** A newline is taken back from in front of the layout tokens. */
  lemma DropNewlineBefore(ts: seq<Kind>, m: Move)
    ensures DropNewline(ts + MoveTokens(m)) == DropNewline(ts) + MoveTokens(m)
  {
    match m
    case Deeper => DropNewlinePush(ts, Indent);
    case Shallower(n) => DropNewlineDedents(ts, n);
    case _ =>
      assert ts + [] == ts && DropNewline(ts) + [] == DropNewline(ts);
  }

  /** The stream right behind the first token of a line that has moved by `m`. */
  function Opening(ts: seq<Kind>, m: Move, k: Kind): seq<Kind> {
    (if k == Sym(">>") then DropNewline(ts) else ts) + MoveTokens(m) + [k]
  }

  lemma OpeningSettles(st: LexState, m: Move, ks: seq<Kind>)
    requires ks != [] && Plain(ks)
    ensures Settles(Opening(st.tokens, m, ks[0]), EmitAll(st.(tokens := st.tokens + MoveTokens(m)), ks).tokens)
  {
    var moved := st.(tokens := st.tokens + MoveTokens(m));
    DropNewlineBefore(st.tokens, m);
    var pre := Opening(st.tokens, m, ks[0]);
    assert Emit(moved, ks[0]).tokens == pre;
    assert Last(pre) == ks[0];
    EmitAllKeeps(pre, Emit(moved, ks[0]), ks[1..]);
  }

  predicate Proper(m: Move) {
    !m.Nowhere? && (m.Shallower? ==> m.n > 0)
  }

  lemma {:induction false} DedentsAre(n: nat)
    ensures forall i :: 0 <= i < n ==> Dedents(n)[i] == Dedent
  {
    if n > 0 {
      DedentsAre(n - 1);
    }
  }

  lemma MoveTokensLayout(m: Move)
    ensures forall i :: 0 <= i < |MoveTokens(m)| ==> IsLayout(MoveTokens(m)[i])
    ensures m.Shallower? ==> forall i :: 0 <= i < m.n ==> MoveTokens(m)[i] == Dedent
  {
    if m.Shallower? {
      DedentsAre(m.n);
    }
  }

  /** Different moves are different layout tokens, and what follows does not hide it. */
  lemma MovesShow(head: seq<Kind>, m1: Move, m2: Move, k1: Kind, k2: Kind, a: seq<Kind>, b: seq<Kind>)
    requires m1 != m2 && Proper(m1) && Proper(m2) && Grounded(k1) && Grounded(k2)
    requires head + MoveTokens(m1) + [k1] <= a && head + MoveTokens(m2) + [k2] <= b
    ensures a != b
  {
    MoveTokensLayout(m1);
    MoveTokensLayout(m2);
    var t1, t2 := MoveTokens(m1), MoveTokens(m2);
    assert a[|head| + |t1|] == k1 && b[|head| + |t2|] == k2;
    assert forall i :: 0 <= i < |t1| ==> a[|head| + i] == t1[i];
    assert forall i :: 0 <= i < |t2| ==> b[|head| + i] == t2[i];
    if |t1| < |t2| {
      assert b[|head| + |t1|] == t2[|t1|];
    } else if |t2| < |t1| {
      assert a[|head| + |t2|] == t1[|t2|];
    } else {
      assert a[|head|] == t1[0] && b[|head|] == t2[0];
    }
  }

  lemma {:induction false} FilterMove(ts: seq<Kind>, m: Move, k: Kind)
    requires Grounded(k)
    ensures Filter(ts + MoveTokens(m) + [k]) == Filter(ts) + MoveTokens(m) + [k]
  {
    FilterLast(ts + MoveTokens(m), k);
    FilterConcat(ts, MoveTokens(m));
    match m
    case Deeper => FilterLast([], Indent);
      assert [] + [Indent] == [Indent];
    case Shallower(n) => FilterDedents(n);
    case _ =>
  }

  /** The first tokens of a line, read and printed: the same, or two that take back no newline. */
  predicate SameHead(k1: Kind, k2: Kind) {
    k1 == k2 || (!k1.Sym? && !k2.Sym?)
  }

  /** Two states that agree up to a move end in different meaning-bearing tokens. */
  lemma SplitShows(ts: seq<Kind>, m1: Move, m2: Move, k1: Kind, k2: Kind, s1: LexState, s2: LexState)
    requires m1 != m2 && Proper(m1) && Proper(m2) && Grounded(k1) && Grounded(k2) && SameHead(k1, k2)
    requires Settles(Opening(ts, m1, k1), s1.tokens) && Settles(Opening(ts, m2, k2), s2.tokens)
    ensures Significant(Finish(s1)) != Significant(Finish(s2))
  {
    var head := if k1 == Sym(">>") then DropNewline(ts) else ts;
    SignificantKeeps(Opening(ts, m1, k1), s1);
    SignificantKeeps(Opening(ts, m2, k2), s2);
    FilterMove(head, m1, k1);
    FilterMove(head, m2, k2);
    MovesShow(Filter(head), m1, m2, k1, k2, Significant(Finish(s1)), Significant(Finish(s2)));
  }

  /** Two states that agree up to one token do so as well. */
  lemma ForkShows(ts: seq<Kind>, k1: Kind, k2: Kind, s1: LexState, s2: LexState)
    requires k1 != k2 && Grounded(k1) && Grounded(k2)
    requires Settles(ts + [k1], s1.tokens) && Settles(ts + [k2], s2.tokens)
    ensures Significant(Finish(s1)) != Significant(Finish(s2))
  {
    SignificantKeeps(ts + [k1], s1);
    SignificantKeeps(ts + [k2], s2);
    FilterLast(ts, k1);
    FilterLast(ts, k2);
    var n := |Filter(ts)|;
    assert Significant(Finish(s1))[n] == (Filter(ts) + [k1])[n];
    assert Significant(Finish(s2))[n] == (Filter(ts) + [k2])[n];
  }

  // --- The first line that does not match ---

  /** The printed text of a line. */
  function PrintedText(raw: string, stack: seq<nat>, u: Alphabet): string {
    TextOfLine(FormatLine(raw, stack, u))
  }

  /** The tokens of a printed line of code are those of the line, or fork from them. */
  lemma PrintedKinds(raw: string, stack: seq<nat>, u: Alphabet)
    requires LineClosed(raw) && IsCodeLine(raw) && LexLine(raw).Kinds? && LexLine(PrintedText(raw, stack, u)).Kinds?
    ensures if FuseFree(raw, u) then LexLine(PrintedText(raw, stack, u)) == LexLine(raw)
            else Forks(LexLine(raw).kinds, LexLine(PrintedText(raw, stack, u)).kinds)
  {
    var t, l := Stripped(raw), FormatLine(raw, stack, u);
    StrippedFacts(raw);
    StrippedTokens(raw);
    TextTokens(4 * l.depth, Respace(t, u));
    if FuseFree(raw, u) {
      CodeTokens(raw, l.depth, u);
    } else {
      RespaceForks(t, u);
    }
  }

  /** Behind a mismatched line the two streams differ for good. */
  lemma MismatchShows(raws: seq<string>, st: LexState, stack: seq<nat>, levels: seq<nat>, u: Alphabet)
    requires raws != [] && LinesClosed(raws) && LinesStep(raws, st).Next?
    requires !LineMatches(raws[0], st, stack, levels)
    ensures var p := LinesStep(Texts(FormatLines(raws, stack, u)), Widths(st, levels));
            p.Next? ==> Significant(Finish(p.st)) != Significant(Finish(LinesStep(raws, st).st))
  {
    var raw := raws[0];
    var t := PrintedText(raw, stack, u);
    var p := LinesStep(Texts(FormatLines(raws, stack, u)), Widths(st, levels));
    FirstPrinted(raws, stack, Widths(st, levels), u);
    if p.Next? {
      var m1, m2 := MoveOf(st.stack, SpaceLen(raw)), MoveOf(levels, PrintedWidth(raw, stack));
      var k1, k2 := LineOpenings(raw, st, stack, levels, u);
      SettlesLater(Opening(st.tokens, m1, k1), raw, st, raws[1..]);
      SettlesLater(Opening(st.tokens, m2, k2), t, Widths(st, levels),
                   Texts(FormatLines(raws[1..], StackAfter(raw, stack), u)));
      SplitShows(st.tokens, m1, m2, k1, k2, LinesStep(raws, st).st, p.st);
    }
  }

  /** What settles on a line stays through the lines behind it. */
  lemma SettlesLater(pre: seq<Kind>, line: string, st: LexState, rest: seq<string>)
    requires LineBody(line, st).Next? && Settles(pre, LineBody(line, st).st.tokens)
    requires LinesStep(rest, LineStep(line, st).st).Next?
    ensures Settles(pre, LinesStep(rest, LineStep(line, st).st).st.tokens)
  {
    LinesKeep(pre, rest, LineStep(line, st).st);
  }

  /** Both lines start with their own move and tokens that take back the same. */
  lemma LineOpenings(raw: string, st: LexState, stack: seq<nat>, levels: seq<nat>, u: Alphabet)
      returns (k1: Kind, k2: Kind)
    requires LineClosed(raw) && Moving(raw, st) && LineBody(raw, st).Next?
    requires LineBody(PrintedText(raw, stack, u), Widths(st, levels)).Next?
    ensures Grounded(k1) && Grounded(k2) && SameHead(k1, k2)
    ensures var m := MoveOf(st.stack, SpaceLen(raw));
            Proper(m) && Settles(Opening(st.tokens, m, k1), LineBody(raw, st).st.tokens)
    ensures var m := MoveOf(levels, PrintedWidth(raw, stack));
            && Proper(m)
            && Settles(Opening(st.tokens, m, k2),
                       LineBody(PrintedText(raw, stack, u), Widths(st, levels)).st.tokens)
  {
    var ks1, ks2 := LexLine(raw).kinds, LexLine(PrintedText(raw, stack, u)).kinds;
    LexLinePlain(raw);
    LexLinePlain(PrintedText(raw, stack, u));
    CodeHasKinds(raw);
    PrintedKinds(raw, stack, u);
    ForkHeads(ks1, ks2);
    k1, k2 := ks1[0], ks2[0];
    RawEntry(raw, st);
    PrintedEntry(raw, st, stack, levels, u);
    EntryOpens(st, SpaceLen(raw), ks1);
    EntryOpens(Widths(st, levels), PrintedWidth(raw, stack), ks2);
  }

  lemma ForkHeads(a: seq<Kind>, b: seq<Kind>)
    requires a != [] && (a == b || Forks(a, b))
    ensures b != [] && SameHead(a[0], b[0])
  {
    if a != b {
      var j :| 0 <= j < |a| && ForksAt(a, b, j);
      if j > 0 {
        assert a[..j][0] == b[..j][0];
      }
    }
  }

  lemma EntryOpens(st: LexState, w: nat, ks: seq<Kind>)
    requires ks != [] && Plain(ks) && IndentStep(st.(lineStart := false), w).Level?
    ensures var m := MoveOf(st.stack, w);
            && Proper(m)
            && Settles(Opening(st.tokens, m, ks[0]), EmitAll(IndentStep(st.(lineStart := false), w).st, ks).tokens)
  {
    var m := MoveOf(st.stack, w);
    var inLine := st.(lineStart := false);
    IndentMoves(inLine, w);
    OpeningSettles(inLine.(stack := CodeStack(w, st.stack)), m, ks);
  }

  // --- The first line that fuses ---

  lemma {:induction false} SameTokens(a: LexState, b: LexState, ks: seq<Kind>)
    requires a.tokens == b.tokens
    ensures EmitAll(a, ks).tokens == EmitAll(b, ks).tokens
    decreases |ks|
  {
    if ks != [] {
      SameTokens(Emit(a, ks[0]), Emit(b, ks[0]), ks[1..]);
    }
  }

  lemma {:induction false} EmitSplits(st: LexState, ks: seq<Kind>, n: nat)
    requires n <= |ks|
    ensures EmitAll(st, ks) == EmitAll(EmitAll(st, ks[..n]), ks[n..])
    decreases n
  {
    if n == 0 {
      assert ks[0..] == ks;
    } else {
      EmitSplits(Emit(st, ks[0]), ks[1..], n - 1);
      assert ks[..n][1..] == ks[1..][..n - 1] && ks[1..][n - 1..] == ks[n..];
    }
  }

  /** The token at which two streams fork settles. */
  lemma ForkSettles(st: LexState, ks: seq<Kind>, j: nat)
    requires j < |ks| && Plain(ks) && !ks[j].Sym?
    ensures Grounded(ks[j])
    ensures Settles(EmitAll(st, ks[..j]).tokens + [ks[j]], EmitAll(st, ks).tokens)
  {
    var before, pre := EmitAll(st, ks[..j]), EmitAll(st, ks[..j]).tokens + [ks[j]];
    EmitSplits(st, ks, j);
    assert ks[j..][0] == ks[j] && ks[j..][1..] == ks[j + 1..];
    assert Emit(before, ks[j]).tokens == pre && Last(pre) == ks[j];
    EmitAllKeeps(pre, Emit(before, ks[j]), ks[j + 1..]);
  }

  /** Behind a line that fuses the two streams differ for good. */
  lemma FusingShows(raws: seq<string>, st: LexState, stack: seq<nat>, levels: seq<nat>, u: Alphabet)
    requires raws != [] && LinesClosed(raws) && LinesStep(raws, st).Next?
    requires LineMatches(raws[0], st, stack, levels) && !FuseFree(raws[0], u)
    ensures var p := LinesStep(Texts(FormatLines(raws, stack, u)), Widths(st, levels));
            p.Next? ==> Significant(Finish(p.st)) != Significant(Finish(LinesStep(raws, st).st))
  {
    var raw := raws[0];
    var t := PrintedText(raw, stack, u);
    var p := LinesStep(Texts(FormatLines(raws, stack, u)), Widths(st, levels));
    FirstPrinted(raws, stack, Widths(st, levels), u);
    if p.Next? {
      var ts, k1, k2 := LineForks(raw, st, stack, levels, u);
      SettlesLater(ts + [k1], raw, st, raws[1..]);
      SettlesLater(ts + [k2], t, Widths(st, levels), Texts(FormatLines(raws[1..], StackAfter(raw, stack), u)));
      ForkShows(ts, k1, k2, LinesStep(raws, st).st, p.st);
    }
  }

  /** A line that moves alike and fuses: the streams go on alike up to two different tokens. */
  lemma LineForks(raw: string, st: LexState, stack: seq<nat>, levels: seq<nat>, u: Alphabet)
      returns (ts: seq<Kind>, k1: Kind, k2: Kind)
    requires LineClosed(raw) && LineMatches(raw, st, stack, levels) && !FuseFree(raw, u)
    requires LineBody(raw, st).Next? && LineBody(PrintedText(raw, stack, u), Widths(st, levels)).Next?
    ensures k1 != k2 && Grounded(k1) && Grounded(k2)
    ensures Settles(ts + [k1], LineBody(raw, st).st.tokens)
    ensures Settles(ts + [k2], LineBody(PrintedText(raw, stack, u), Widths(st, levels)).st.tokens)
  {
    var ks1, ks2 := LexLine(raw).kinds, LexLine(PrintedText(raw, stack, u)).kinds;
    var e1, e2 := EnterLine(raw, st).st, EnterLine(PrintedText(raw, stack, u), Widths(st, levels)).st;
    LexLinePlain(raw);
    LexLinePlain(PrintedText(raw, stack, u));
    PrintedKinds(raw, stack, u);
    SameEntry(raw, st, stack, levels, u);
    var j :| 0 <= j < |ks1| && ForksAt(ks1, ks2, j);
    SameTokens(e1, e2, ks1[..j]);
    ForkSettles(e1, ks1, j);
    ForkSettles(e2, ks2, j);
    ts, k1, k2 := EmitAll(e1, ks1[..j]).tokens, ks1[j], ks2[j];
  }

  /** A matching move leaves the same tokens. */
  lemma SameEntry(raw: string, st: LexState, stack: seq<nat>, levels: seq<nat>, u: Alphabet)
    requires LineClosed(raw) && IsCodeLine(raw) && LineMatches(raw, st, stack, levels) && LineBody(raw, st).Next?
    requires LineBody(PrintedText(raw, stack, u), Widths(st, levels)).Next?
    ensures EnterLine(PrintedText(raw, stack, u), Widths(st, levels)).st.tokens == EnterLine(raw, st).st.tokens
  {
    RawEntry(raw, st);
    PrintedEntry(raw, st, stack, levels, u);
    IndentMoves(st.(lineStart := false), SpaceLen(raw));
    IndentMoves(Widths(st, levels).(lineStart := false), PrintedWidth(raw, stack));
  }

  /** Where some line fuses or does not match, the meaning-bearing tokens differ. */
  lemma {:induction false} LayoutShows(
    raws: seq<string>, st: LexState, stack: seq<nat>, levels: seq<nat>, u: Alphabet)
    requires LinesClosed(raws) && SpacesOnly(raws, st) && LinesStep(raws, st).Next?
    requires !(LinesOk(raws, u) && LayoutMatches(raws, st, stack, levels))
    ensures var p := LinesStep(Texts(FormatLines(raws, stack, u)), Widths(st, levels));
            p.Next? ==> Significant(Finish(p.st)) != Significant(Finish(LinesStep(raws, st).st))
    decreases |raws|
  {
    if raws != [] && LineMatches(raws[0], st, stack, levels) && FuseFree(raws[0], u) {
      var raw := raws[0];
      LinesOkCons(raws, u);
      LineSimulates(raw, st, stack, levels, u);
      FirstPrinted(raws, stack, Widths(st, levels), u);
      LayoutShows(raws[1..], LineStep(raw, st).st, StackAfter(raw, stack), LevelsAfter(raw, st, stack, levels), u);
    } else if LineMatches(raws[0], st, stack, levels) {
      FusingShows(raws, st, stack, levels, u);
    } else {
      MismatchShows(raws, st, stack, levels, u);
    }
  }

  lemma LinesOkCons(raws: seq<string>, u: Alphabet)
    requires raws != []
    ensures LinesOk(raws, u) <==> LineOk(raws[0], u) && LinesOk(raws[1..], u)
  {
    assert forall i :: 1 <= i < |raws| ==> raws[i] == raws[1..][i - 1];
  }

  // --- The whole text ---

  predicate AllClose(lines: seq<FLine>) {
    lines == [] || (ClosesStrings(TextOfLine(lines[0])) && AllClose(lines[1..]))
  }

  lemma {:induction false} CloseAt(lines: seq<FLine>, i: nat)
    requires AllClose(lines) && i < |lines|
    ensures ClosesStrings(TextOfLine(lines[i]))
    decreases i
  {
    if i > 0 {
      CloseAt(lines[1..], i - 1);
    }
  }

  lemma {:induction false} PrintedClose(raws: seq<string>, st: LexState, stack: seq<nat>, u: Alphabet)
    requires LinesClosed(raws) && LinesStep(raws, st).Next?
    ensures AllClose(FormatLines(raws, stack, u))
    decreases |raws|
  {
    if raws != [] {
      PrintedLineCloses(raws[0], stack, u);
      PrintedClose(raws[1..], LineStep(raws[0], st).st, StackAfter(raws[0], stack), u);
    }
  }

  lemma PrintedLineCloses(raw: string, stack: seq<nat>, u: Alphabet)
    requires LineClosed(raw) && LexLine(raw).Kinds?
    ensures ClosesStrings(PrintedText(raw, stack, u))
  {
    var l := FormatLine(raw, stack, u);
    FormatLineClean(raw, stack, u);
    if IsCodeLine(raw) {
      StrippedFacts(raw);
      StrippedTokens(raw);
      RespaceOpensNothing(Stripped(raw), u);
      TextTokens(4 * l.depth, Respace(Stripped(raw), u));
      TextParts(l, u);
    } else if !l.blank {
      CommentHasNoTokens(l.content);
      TextTokens(4 * l.depth, l.content);
      TextParts(l, u);
    }
  }

  lemma {:induction false} SolidClose(lines: seq<FLine>)
    requires forall i :: 0 <= i < |lines| && lines[i].blank ==> TextOfLine(lines[i]) == ""
    ensures AllClose(Solid(lines)) <==> AllClose(lines)
    decreases |lines|
  {
    if lines != [] {
      var first, rest := lines[0], lines[1..];
      assert lines == [first] + rest;
      SolidClose(rest);
      CloseCons(first, rest);
      SolidCons(first, rest);
      if first.blank {
        assert ClosesStrings("");
      } else {
        CloseCons(first, Solid(rest));
      }
    }
  }

  lemma CloseCons(l: FLine, more: seq<FLine>)
    ensures AllClose([l] + more) <==> ClosesStrings(TextOfLine(l)) && AllClose(more)
  {
    assert ([l] + more)[1..] == more;
  }

  /** The printed text lexes only if its lines step through. */
  lemma OutputLexes(source: string, u: Alphabet)
    requires LinesClosed(SplitLines(source)) && LinesStep(SplitLines(source), START).Next?
    requires Tokenize(Normalize(source, u)).Done?
    ensures LinesStep(Texts(OutputLines(source, u)), START).Next?
  {
    var lines := OutputLines(source, u);
    PrintedClose(SplitLines(source), START, [0], u);
    SolidClose(FormatLines(SplitLines(source), [0], u));
    SolidClose(lines);
    SameSolid(source, u);
    OutputNoCR(source, u);
    PrintNoCR(lines);
    ToLFIdle(Print(lines));
    if lines != [] {
      assert Print(lines) == Unlines(Texts(lines)) + "";
      forall i | 0 <= i < |lines| ensures ClosesStrings(Texts(lines)[i]) {
        CloseAt(lines, i);
      }
      LexFromLines(Texts(lines), "", START);
    }
  }

  /**
   * For texts whose lines can be read one by one, formatting keeps the meaning-bearing
   * tokens if and only if nothing fuses on any line and every line moves alike before and
   * after printing.
   */
  lemma KeptExactly(source: string, u: Alphabet)
    requires Plausible(source) && Tokenize(source).Done?
    ensures Kept(source, u) <==>
            LinesOk(SplitLines(source), u) && LayoutMatches(SplitLines(source), START, [0], [0])
  {
    if LinesOk(SplitLines(source), u) && LayoutMatches(SplitLines(source), START, [0], [0]) {
      FormattingPreservesTokens(source, u);
    } else if Tokenize(Normalize(source, u)).Done? {
      ToLFIdle(source);
      SplitLinesText(source);
      TextSteps(SplitLines(source), source);
      OutputLexes(source, u);
      OutputSolid(source, u);
      LexOutput(source, u);
      assert Widths(START, [0]) == START;
      LayoutShows(SplitLines(source), START, [0], [0], u);
    }
  }
}
