/**
 * Conditions on the text alone under which formatting is safe, and texts outside them
 * for which it is not.
 */
module Guarantees {
  import opened Chars
  import opened Layout
  import opened Lexemes
  import opened Lines
  import opened Formatter
  import opened FixedPoint
  import opened Respacing
  import opened Fusing
  import opened Meaning
  import opened Options

  // --- Blanks around `.` and `?` ---

  /** No blank touches a `.` or a `?` that has a word, `.` or `?` on its other side. */
  predicate TightDots(ps: seq<Piece>) {
    forall k :: 1 <= k < |ps| && Sticky(ps[k - 1].atom, ps[k].atom) ==> !ps[k].gap
  }

  lemma {:induction false} TightRun(ps: seq<Piece>, u: Alphabet)
    requires ps != [] && WellScanned(ps, u) && TightDots(ps)
    ensures ChunkLen(ps) == RunLen(ps)
  {
    if RunLen(ps) > 1 || ChunkLen(ps) > 1 {
      assert Sticky(ps[0].atom, ps[1].atom) ==> !ps[1].gap;
      TightTail(ps, 1, u);
      TightRun(ps[1..], u);
    }
  }

  lemma TightTail(ps: seq<Piece>, n: nat, u: Alphabet)
    requires WellScanned(ps, u) && TightDots(ps) && n <= |ps|
    ensures WellScanned(ps[n..], u) && TightDots(ps[n..])
  {
    var t := ps[n..];
    forall k | 1 <= k < |t| && Sticky(t[k - 1].atom, t[k].atom)
      ensures !t[k].gap
    {
      assert t[k - 1] == ps[n + k - 1] && t[k] == ps[n + k];
    }
  }

  lemma {:induction false} TightDotsNoFusing(ps: seq<Piece>, u: Alphabet)
    requires WellScanned(ps, u) && TightDots(ps)
    ensures NoFusing(ps)
    decreases |ps|
  {
    if ps != [] {
      TightRun(ps, u);
      TightTail(ps, ChunkLen(ps), u);
      TightDotsNoFusing(ps[ChunkLen(ps)..], u);
    }
  }

  // --- Layout ---

  /** `stack` has the levels of `base` and, above them, deeper ones. */
  predicate Deepens(stack: seq<nat>, base: seq<nat>) {
    Increasing(base) && Increasing(stack) && base <= stack
  }

  lemma {:induction false} PopToBase(stack: seq<nat>, base: seq<nat>, w: nat)
    requires Deepens(stack, base)
    ensures w >= Top(base) ==> Deepens(PopTo(stack, w), base)
    ensures w <= Top(base) ==> PopTo(stack, w) == PopTo(base, w)
  {
    if |stack| > |base| {
      assert Top(stack) > Top(base) by {
        IncreasingOrder(stack, |base| - 1, |stack| - 1);
      }
      if Top(stack) > w {
        PopToBase(Init(stack), base, w);
      }
    } else {
      assert stack == base;
      PopToIncreasing(base, w);
    }
  }

  lemma {:induction false} IncreasingOrder(stack: seq<nat>, i: nat, j: nat)
    requires Increasing(stack) && i < j < |stack|
    ensures stack[i] < stack[j]
  {
    if i + 1 < j {
      IncreasingOrder(stack, i, j - 1);
    }
  }

  /**
   * Only spaces indent a line that starts outside a delimiter, and a block that opens
   * there does not start between two widths the formatter has seen; a line inside a
   * delimiter is not indented less than its block.
   */
  predicate TidyLine(raw: string, st: LexState, stack: seq<nat>) {
    if st.lineStart then
      && SpaceLen(raw) == BlankLen(raw)
      && (IsCodeLine(raw) && SpaceLen(raw) > Top(st.stack) ==> Top(CodeStack(SpaceLen(raw), stack)) == SpaceLen(raw))
    else
      IsCodeLine(raw) ==> IndentWidth(TrimEnd(raw)) >= Top(st.stack)
  }

  predicate TidyLines(raws: seq<string>, st: LexState, stack: seq<nat>)
    decreases |raws|
  {
    raws == [] ||
    (&& TidyLine(raws[0], st, stack)
     && (LineStep(raws[0], st).Next? ==>
           TidyLines(raws[1..], LineStep(raws[0], st).st, StackAfter(raws[0], stack))))
  }

  /** The lexer's levels, found among the formatter's: level `i` is at position `at[i]`. */
  predicate Embedded(levels: seq<nat>, stack: seq<nat>, at: seq<nat>) {
    && Increasing(levels) && Increasing(stack) && Increasing(at) && |at| == |levels|
    && forall i :: 0 <= i < |at| ==> at[i] < |stack| && stack[at[i]] == levels[i]
  }

  /** The widths at which those levels are printed. */
  function PrintedLevels(at: seq<nat>): (r: seq<nat>)
    ensures |r| == |at| && forall i :: 0 <= i < |r| ==> r[i] == 4 * at[i]
  {
    seq(|at|, i requires 0 <= i < |at| => 4 * at[i])
  }

  lemma PrintedIncreasing(at: seq<nat>)
    requires Increasing(at)
    ensures Increasing(PrintedLevels(at)) && Top(PrintedLevels(at)) == 4 * Top(at)
  {
  }

  lemma {:induction false} PopToLevel(stack: seq<nat>, j: nat)
    requires Increasing(stack) && j < |stack|
    ensures PopTo(stack, stack[j]) == stack[..j + 1]
    decreases |stack|
  {
    if j + 1 < |stack| {
      IncreasingOrder(stack, j, |stack| - 1);
      PopToLevel(Init(stack), j);
    } else {
      assert stack[..j + 1] == stack;
    }
  }

  /** Going back to a known width leaves the levels up to it. */
  lemma BackTo(stack: seq<nat>, j: nat)
    requires Increasing(stack) && j < |stack|
    ensures CodeStack(stack[j], stack) == stack[..j + 1]
    ensures MoveOf(stack, stack[j]) == if j + 1 == |stack| then Same else Shallower(|stack| - j - 1)
    ensures Increasing(stack[..j + 1])
  {
    PopToLevel(stack, j);
    if j + 1 < |stack| {
      IncreasingOrder(stack, j, |stack| - 1);
    } else {
      assert stack[..j + 1] == stack;
    }
  }

  /** A known width: both the lexer and the formatter go back to it. */
  lemma BackInStep(levels: seq<nat>, stack: seq<nat>, at: seq<nat>, i: nat) returns (at': seq<nat>)
    requires Embedded(levels, stack, at) && i < |levels|
    ensures var w, depth := levels[i], DepthOf(CodeStack(levels[i], stack));
            && MoveOf(PrintedLevels(at), 4 * depth) == MoveOf(levels, w)
            && Embedded(CodeStack(w, levels), CodeStack(w, stack), at')
            && CodeStack(4 * depth, PrintedLevels(at)) == PrintedLevels(at')
  {
    at' := at[..i + 1];
    BackTo(stack, at[i]);
    EmbeddedPrefix(levels, stack, at, i);
    BackTo(levels, i);
    BackPrinted(at, i);
  }

  lemma BackPrinted(at: seq<nat>, i: nat)
    requires Increasing(at) && i < |at|
    ensures CodeStack(4 * at[i], PrintedLevels(at)) == PrintedLevels(at[..i + 1])
    ensures MoveOf(PrintedLevels(at), 4 * at[i]) == if i + 1 == |at| then Same else Shallower(|at| - i - 1)
  {
    PrintedIncreasing(at);
    BackTo(PrintedLevels(at), i);
    assert PrintedLevels(at)[..i + 1] == PrintedLevels(at[..i + 1]);
  }

  lemma EmbeddedPrefix(levels: seq<nat>, stack: seq<nat>, at: seq<nat>, i: nat)
    requires Embedded(levels, stack, at) && i < |levels|
    ensures Embedded(levels[..i + 1], stack[..at[i] + 1], at[..i + 1])
  {
    forall k | 0 <= k <= i ensures at[k] <= at[i] {
      if k < i {
        IncreasingOrder(at, k, i);
      }
    }
  }

  /** A new width above the innermost level: both open a level. */
  lemma DeeperInStep(levels: seq<nat>, stack: seq<nat>, at: seq<nat>, w: nat) returns (at': seq<nat>)
    requires Embedded(levels, stack, at) && w > Top(levels) && Top(CodeStack(w, stack)) == w
    ensures var depth := DepthOf(CodeStack(w, stack));
            && MoveOf(PrintedLevels(at), 4 * depth) == MoveOf(levels, w)
            && Embedded(CodeStack(w, levels), CodeStack(w, stack), at')
            && CodeStack(4 * depth, PrintedLevels(at)) == PrintedLevels(at')
  {
    var next := CodeStack(w, stack);
    var j, top := Last(at), |next| - 1;
    PrintedIncreasing(at);
    BelowKept(levels, stack, at, w);
    assert next[j] == Top(levels) && next[top] == w;
    at' := at + [top];
    LevelAdded(levels, next, at, w);
    assert PrintedLevels(at') == PrintedLevels(at) + [4 * top];
  }

  lemma LevelAdded(levels: seq<nat>, stack: seq<nat>, at: seq<nat>, w: nat)
    requires Embedded(levels, stack, at) && w > Top(levels) && Top(stack) == w
    ensures Embedded(levels + [w], stack, at + [|stack| - 1]) && |stack| - 1 > Top(at)
  {
    assert stack[Last(at)] == Top(levels);
  }

  /** A width not below the innermost level: the formatter keeps all positions of levels. */
  lemma BelowKept(levels: seq<nat>, stack: seq<nat>, at: seq<nat>, w: nat)
    requires Embedded(levels, stack, at) && w >= Top(levels)
    ensures Embedded(levels, CodeStack(w, stack), at)
  {
    var j := Last(at);
    var base := stack[..j + 1];
    assert Deepens(stack, base) && Top(base) == Top(levels);
    StaysDeeper(stack, base, w);
    forall k | 0 <= k < |at| ensures at[k] <= j {
      if k < |at| - 1 {
        IncreasingOrder(at, k, |at| - 1);
      }
    }
    assert forall k :: 0 <= k <= j ==> CodeStack(w, stack)[k] == base[k] == stack[k];
  }

  lemma KnownWidth(levels: seq<nat>, w: nat) returns (i: nat)
    requires Increasing(levels) && w <= Top(levels) && !MoveOf(levels, w).Nowhere?
    ensures i < |levels| && levels[i] == w
  {
    i := |levels| - 1;
    if w < Top(levels) {
      PopToIncreasing(levels, w);
      i := |PopTo(levels, w)| - 1;
    }
  }

  /** Inside a delimiter the formatter only moves above the levels of the block. */
  lemma StaysDeeper(stack: seq<nat>, base: seq<nat>, w: nat)
    requires Deepens(stack, base) && w >= Top(base)
    ensures Deepens(CodeStack(w, stack), base)
  {
    PopToBase(stack, base, w);
  }

  /** A tidy line moves alike, and leaves the two stacks in step. */
  lemma TidyStep(raw: string, st: LexState, stack: seq<nat>, at: seq<nat>, u: Alphabet) returns (at': seq<nat>)
    requires LineOk(raw, u) && TidyLine(raw, st, stack) && Embedded(st.stack, stack, at)
    ensures SpaceLed(raw, st) && LineMatches(raw, st, stack, PrintedLevels(at))
    ensures LineStep(raw, st).Next? ==>
              && Embedded(LineStep(raw, st).st.stack, StackAfter(raw, stack), at')
              && LevelsAfter(raw, st, stack, PrintedLevels(at)) == PrintedLevels(at')
  {
    at' := at;
    if Moving(raw, st) {
      at' := TidyMove(raw, st, stack, at);
      TidyStack(raw, st);
    } else if IsCodeLine(raw) {
      BelowKept(st.stack, stack, at, IndentWidth(TrimEnd(raw)));
      TidyStack(raw, st);
    } else if LineStep(raw, st).Next? {
      NoCodeRaw(raw, st);
    }
  }

  lemma TidyMove(raw: string, st: LexState, stack: seq<nat>, at: seq<nat>) returns (at': seq<nat>)
    requires OneLine(raw) && NoCR(raw) && TidyLine(raw, st, stack) && Embedded(st.stack, stack, at) && Moving(raw, st)
    ensures LineMatches(raw, st, stack, PrintedLevels(at))
    ensures !MoveOf(st.stack, SpaceLen(raw)).Nowhere? ==>
              && Embedded(CodeStack(SpaceLen(raw), st.stack), StackAfter(raw, stack), at')
              && LevelsAfter(raw, st, stack, PrintedLevels(at)) == PrintedLevels(at')
  {
    at' := at;
    var w := SpaceLen(raw);
    IndentFacts(raw);
    if w > Top(st.stack) {
      at' := DeeperInStep(st.stack, stack, at, w);
    } else if !MoveOf(st.stack, w).Nowhere? {
      var i := KnownWidth(st.stack, w);
      at' := BackInStep(st.stack, stack, at, i);
    }
  }

  /** The lexer's stack behind a line of code. */
  lemma TidyStack(raw: string, st: LexState)
    requires OneLine(raw) && NoCR(raw) && IsCodeLine(raw)
    ensures LineStep(raw, st).Next? ==>
              LineStep(raw, st).st.stack == if st.lineStart then CodeStack(SpaceLen(raw), st.stack) else st.stack
    ensures LineStep(raw, st).Next? && st.lineStart ==> !MoveOf(st.stack, SpaceLen(raw)).Nowhere?
  {
    RawEntry(raw, st);
    IndentMoves(st.(lineStart := false), SpaceLen(raw));
    if LineStep(raw, st).Next? {
      EmitAllFlag(EnterLine(raw, st).st, LexLine(raw).kinds);
    }
  }

  lemma CodeAtStart(raw: string)
    requires OneLine(raw) && IsCodeLine(raw) && SpaceLen(raw) == BlankLen(raw)
    ensures IsCode(raw[SpaceLen(raw)..]) && SpaceLen(raw) == IndentWidth(TrimEnd(raw))
  {
    StrippedFacts(raw);
    IndentFacts(raw);
    assert raw[SpaceLen(raw)..][0] == raw[SpaceLen(raw)];
  }

  /** In tidy texts, with delimiters over several lines or not, every line moves alike. */
  lemma {:induction false} TidyLayoutAgrees(raws: seq<string>, st: LexState, stack: seq<nat>, at: seq<nat>, u: Alphabet)
    requires LinesOk(raws, u) && TidyLines(raws, st, stack) && Embedded(st.stack, stack, at)
    ensures SpacesOnly(raws, st) && LayoutMatches(raws, st, stack, PrintedLevels(at))
    decreases |raws|
  {
    if raws != [] {
      var at' := TidyStep(raws[0], st, stack, at, u);
      if LineStep(raws[0], st).Next? {
        TidyLayoutAgrees(raws[1..], LineStep(raws[0], st).st, StackAfter(raws[0], stack), at', u);
      }
    }
  }

  function NestAll(n: nat, ks: seq<Kind>): nat
    decreases |ks|
  {
    if ks == [] then n else NestAll(Nest(n, ks[0]), ks[1..])
  }

  lemma {:induction false} EmitAllNests(st: LexState, ks: seq<Kind>)
    ensures EmitAll(st, ks).nesting == NestAll(st.nesting, ks)
    decreases |ks|
  {
    if ks != [] {
      EmitAllNests(Emit(st, ks[0]), ks[1..]);
    }
  }

  /** A line indented by spaces whose delimiters are closed on it. */
  predicate OneLiner(raw: string) {
    SpaceLen(raw) == BlankLen(raw) && (LexLine(raw).Kinds? ==> NestAll(0, LexLine(raw).kinds) == 0)
  }

  /** When every delimiter closes on its own line, the two stacks are equal throughout. */
  lemma {:induction false} OneLinersTidy(raws: seq<string>, st: LexState, u: Alphabet)
    requires LinesOk(raws, u) && forall i :: 0 <= i < |raws| ==> OneLiner(raws[i])
    requires st.lineStart && st.nesting == 0
    ensures TidyLines(raws, st, st.stack)
    decreases |raws|
  {
    if raws != [] {
      if LineStep(raws[0], st).Next? {
        OneLinerStep(raws[0], st, u);
        OneLinersTidy(raws[1..], LineStep(raws[0], st).st, u);
      }
    }
  }

  lemma OneLinerStep(raw: string, st: LexState, u: Alphabet)
    requires LineOk(raw, u) && OneLiner(raw) && LineStep(raw, st).Next?
    requires st.lineStart && st.nesting == 0
    ensures var next := LineStep(raw, st).st;
            next.lineStart && next.nesting == 0 && StackAfter(raw, st.stack) == next.stack
  {
    EmitAllNests(EnterLine(raw, st).st, LexLine(raw).kinds);
    EmitAllFlag(EnterLine(raw, st).st, LexLine(raw).kinds);
    if IsCodeLine(raw) {
      CodeAtStart(raw);
      TidyStack(raw, st);
    } else {
      NoCodeRaw(raw, st);
    }
  }

  /** The conditions a reader can check line by line. */
  predicate SimpleText(source: string, u: Alphabet) {
    && NoCR(source)
    && forall i :: 0 <= i < |SplitLines(source)| ==>
         var raw := SplitLines(source)[i];
         ClosesStrings(raw) && OneLiner(raw) && TightDots(Pieces(Stripped(raw), false, u))
  }

  lemma {:induction false} SplitLinesNoCR(s: string)
    requires NoCR(s)
    ensures forall i :: 0 <= i < |SplitLines(s)| ==> NoCR(SplitLines(s)[i])
    decreases |s|
  {
    if s != "" {
      var n := CommentLen(s);
      SplitLinesNoCR(if n < |s| then s[n + 1..] else "");
    }
  }

  lemma SimpleLinesOk(source: string, u: Alphabet)
    requires SimpleText(source, u)
    ensures LinesOk(SplitLines(source), u)
  {
    var raws := SplitLines(source);
    SplitLinesNoCR(source);
    forall i | 0 <= i < |raws|
      ensures LineOk(raws[i], u)
    {
      PiecesWellScanned(Stripped(raws[i]), false, u);
      TightDotsNoFusing(Pieces(Stripped(raws[i]), false, u), u);
    }
  }

  /** Tidy texts that lex keep their meaning-bearing tokens. */
  lemma TidyTextPreserved(source: string, u: Alphabet)
    requires NoCR(source) && LinesOk(SplitLines(source), u) && TidyLines(SplitLines(source), START, [0])
    ensures Preservable(source, u)
    ensures Tokenize(source).Done? ==> Kept(source, u)
  {
    assert PrintedLevels([0]) == [0];
    TidyLayoutAgrees(SplitLines(source), START, [0], [0], u);
    if Tokenize(source).Done? {
      FormattingPreservesTokens(source, u);
    }
  }

  /** For simple texts that lex, formatting keeps every meaning-bearing token. */
  lemma SimpleTextPreserved(source: string, u: Alphabet)
    requires SimpleText(source, u)
    ensures Preservable(source, u)
    ensures Tokenize(source).Done? ==> Kept(source, u)
  {
    SimpleLinesOk(source, u);
    OneLinersTidy(SplitLines(source), START, u);
    TidyTextPreserved(source, u);
  }

  // --- Outside the conditions ---

  /**
   * A block opened at a width between its parent and a deeper continuation line: the
   * lexer opens a level, the formatter prints the line at the level of the parent.
   */
  lemma BlockLost(base: seq<nat>, deeper: nat, w: nat, levels: seq<nat>)
    requires Increasing(base) && Top(base) < w < deeper && Top(levels) == 4 * DepthOf(base)
    ensures MoveOf(base, w) == Deeper
    ensures DepthOf(CodeStack(w, base + [deeper])) == DepthOf(base)
    ensures MoveOf(levels, 4 * DepthOf(CodeStack(w, base + [deeper]))) == Same
  {
    var stack := base + [deeper];
    assert Init(stack) == base;
    assert PopTo(base, w) == base;
  }

  // --- Where the lexer reads out of range ---

  /** The state in which the lexer has read all of `cs`; there is none if it stops before. */
  function StateAfter(cs: string, st: LexState): Option<LexState>
    decreases |cs|, st.lineStart
  {
    if cs == "" then Some(st)
    else if st.lineStart then
      var rest := cs[SpaceLen(cs)..];
      if rest == "" || EnterLine(cs, st).Mismatch? then None
      else StateAfter(rest, EnterLine(cs, st).st.(lineStart := false))
    else if cs[0] == '\n' then StateAfter(cs[1..], NewlineStep(st))
    else match ReadItem(cs)
      case Bad(_) => None
      case Skip(n) => StateAfter(cs[n..], st)
      case Tok(k, n) => StateAfter(cs[n..], Emit(st, k))
  }

  /** Every state the lexer reaches: levels strictly increasing from 0, and as many open blocks as levels. */
  lemma {:induction false} ReachedSound(cs: string, st: LexState)
    requires Sound(st) && StateAfter(cs, st).Some?
    ensures Sound(StateAfter(cs, st).value)
    decreases |cs|, st.lineStart
  {
    if cs == "" {
    } else if st.lineStart {
      var w, inLine := SpaceLen(cs), st.(lineStart := false);
      if IsCode(cs[w..]) {
        IndentSound(inLine, w);
      }
      ReachedSound(cs[w..], EnterLine(cs, st).st.(lineStart := false));
    } else if cs[0] == '\n' {
      NewlineSound(st);
      ReachedSound(cs[1..], NewlineStep(st));
    } else {
      match ReadItem(cs)
      case Skip(n) => ReachedSound(cs[n..], st);
      case Tok(k, n) =>
        EmitSound(st, k);
        ReachedSound(cs[n..], Emit(st, k));
    }
  }

  predicate AllSpaces(sp: string) {
    forall i :: 0 <= i < |sp| ==> sp[i] == ' '
  }

  lemma {:induction false} SpacesAreSkipped(sp: string, st: LexState)
    requires AllSpaces(sp) && !st.lineStart
    ensures LexFrom(sp, st).Done?
    decreases |sp|
  {
    if sp != "" {
      SpacesAreSkipped(sp[1..], st);
    }
  }

  lemma {:induction false} CommentBeforeSpaces(cs: string, sp: string)
    requires AllSpaces(sp)
    ensures CommentLen(cs + sp) == if CommentLen(cs) < |cs| then CommentLen(cs) else |cs + sp|
  {
    if cs == "" {
      assert cs + sp == sp;
      if sp != "" {
        CommentBeforeSpaces("", sp[1..]);
        assert "" + sp[1..] == sp[1..];
      }
    } else {
      assert (cs + sp)[1..] == cs[1..] + sp;
      CommentBeforeSpaces(cs[1..], sp);
    }
  }

  lemma ItemBeforeSpaces(cs: string, sp: string)
    requires cs != "" && cs[0] != '\n' && cs[0] != '#' && AllSpaces(sp)
    ensures (cs + sp)[0] == cs[0] && ReadItem(cs + sp) == ReadItem(cs)
  {
    if sp == "" {
      assert cs + sp == cs;
    } else {
      ItemBeforeSpace(cs, sp);
    }
  }

  /** Behind text that does not end in a space, only spaces at a line start make the lexer panic. */
  lemma {:induction false} PanicsBehind(cs: string, sp: string, st: LexState)
    requires AllSpaces(sp) && (cs == "" || Last(cs) != ' ')
    ensures LexFrom(cs + sp, st).Panicked? <==> sp != "" && Stalls(cs, st)
    decreases |cs|, st.lineStart
  {
    var all := cs + sp;
    if cs == "" {
      assert all == sp;
      if !st.lineStart {
        SpacesAreSkipped(sp, st);
      } else if sp != "" {
        assert SpaceLen(sp) == |sp|;
      }
    } else if st.lineStart {
      PanicsAtLineStart(cs, sp, st);
    } else if cs[0] == '\n' {
      assert all[1..] == cs[1..] + sp;
      PanicsBehind(cs[1..], sp, NewlineStep(st));
    } else if cs[0] == '#' {
      CommentBeforeSpaces(cs, sp);
      var n := CommentLen(cs);
      if n < |cs| {
        assert all[n..] == cs[n..] + sp;
        PanicsBehind(cs[n..], sp, st);
      } else {
        assert all[0] == '#' && ReadItem(all) == Skip(|all|) && ReadItem(cs) == Skip(|cs|);
        assert all[|all|..] == "" && cs[|cs|..] == "";
        assert LexFrom("", st).Done? && StateAfter("", st) == Some(st);
      }
    } else {
      ItemBeforeSpaces(cs, sp);
      var it := ReadItem(cs);
      if !it.Bad? {
        assert all[it.len..] == cs[it.len..] + sp;
        PanicsBehind(cs[it.len..], sp, if it.Tok? then Emit(st, it.kind) else st);
      }
    }
  }

  lemma PanicsAtLineStart(cs: string, sp: string, st: LexState)
    requires AllSpaces(sp) && cs != "" && Last(cs) != ' ' && st.lineStart
    ensures LexFrom(cs + sp, st).Panicked? <==> sp != "" && Stalls(cs, st)
    decreases |cs|, st.lineStart, 0
  {
    var w := SpaceLen(cs);
    assert cs[w..] != "" by {
      assert cs[|cs| - 1] != ' ';
    }
    SpacesStop(cs, sp);
    assert (cs + sp)[w..] == cs[w..] + sp;
    if EnterLine(cs, st).Level? {
      PanicsBehind(cs[w..], sp, EnterLine(cs, st).st.(lineStart := false));
    }
  }

  lemma {:induction false} SpacesStop(cs: string, sp: string)
    requires SpaceLen(cs) < |cs|
    ensures SpaceLen(cs + sp) == SpaceLen(cs)
  {
    assert (cs + sp)[1..] == cs[1..] + sp;
    if cs[0] == ' ' {
      SpacesStop(cs[1..], sp);
    }
  }

  /** The lexer reads all of `cs` and is then at the start of a line. */
  predicate Stalls(cs: string, st: LexState) {
    StateAfter(cs, st).Some? && StateAfter(cs, st).value.lineStart
  }

  function TrailingSpaces(cs: string): (n: nat)
    ensures n <= |cs| && AllSpaces(cs[|cs| - n..]) && (n < |cs| ==> Last(cs[..|cs| - n]) != ' ')
  {
    if cs == "" || Last(cs) != ' ' then
      assert cs[..|cs|] == cs;
      0
    else
      var n := TrailingSpaces(Init(cs));
      assert cs[..|cs| - n - 1] == Init(cs)[..|cs| - 1 - n];
      n + 1
  }

  /**
   * For every text: the lexer reads out of range exactly when the text ends in spaces
   * behind which there is no newline, and all before them lexes up to a line start.
   */
  lemma PanicsExactly(source: string)
    ensures var cs := ToLF(source);
            Tokenize(source).Panicked? <==>
            TrailingSpaces(cs) > 0 && Stalls(cs[..|cs| - TrailingSpaces(cs)], START)
  {
    var cs := ToLF(source);
    var n := |cs| - TrailingSpaces(cs);
    assert cs == cs[..n] + cs[n..];
    PanicsBehind(cs[..n], cs[n..], START);
  }
}
