/** Formatting preserves meaning: when the run-time guard of the formatter cannot fire. */
module Meaning {
  import opened Chars
  import opened Atoms
  import opened Layout
  import opened Lexemes
  import opened Lines
  import opened Formatter
  import opened FixedPoint
  import opened Respacing
  import opened Fusing

  // --- Tokens of one line ---

  /** The last character of the text before a run of whitespace never reaches into it. */
  lemma NumberBeforeSpace(cs: string, ws: string)
    requires cs != "" && IsDigit(cs[0]) && ws != "" && IsWhitespace(ws[0])
    ensures ReadNumber(cs + ws) == ReadNumber(cs)
  {
    NumSpanExtends(cs, ws, false);
    var s := NumSpan(cs, false);
    assert s.Span? ==> (cs + ws)[..s.len] == cs[..s.len];
  }

  lemma ItemBeforeSpace(cs: string, ws: string)
    requires cs != "" && cs[0] != '\n' && cs[0] != '#'
    requires ws != "" && forall i :: 0 <= i < |ws| ==> IsWhitespace(ws[i])
    ensures ReadItem(cs + ws) == ReadItem(cs)
  {
    var both := cs + ws;
    assert forall i :: 0 <= i < |cs| ==> both[i] == cs[i];
    assert both[|cs|] == ws[0] && both[1..] == cs[1..] + ws;
    if cs[0] == '"' {
      StringBeforeSpace(cs[1..], ws);
    } else if IsDigit(cs[0]) {
      NumberBeforeSpace(cs, ws);
    } else if IsLetter(cs[0]) {
      IdLenExtends(cs, ws);
      assert both[..IdLen(cs)] == cs[..IdLen(cs)];
    } else {
      assert both[..SymLen(cs)] == cs[..SymLen(cs)];
    }
  }

  lemma {:induction false} StringBeforeSpace(cs: string, ws: string)
    requires forall i :: 0 <= i < |ws| ==> IsWhitespace(ws[i])
    ensures ReadString(cs + ws) == ReadString(cs)
    decreases |cs|
  {
    if cs == "" {
      assert cs + ws == ws;
      SpacesOpen(ws);
    } else if cs[0] == '\\' && |cs| == 1 {
      if ws == "" {
        assert cs + ws == cs;
      } else {
        assert (cs + ws)[2..] == ws[1..];
        SpacesOpen(ws[1..]);
      }
    } else if cs[0] != '"' && cs[0] != '\n' {
      var n := if cs[0] == '\\' then 2 else 1;
      assert (cs + ws)[n..] == cs[n..] + ws;
      StringBeforeSpace(cs[n..], ws);
    }
  }

  lemma {:induction false} SpacesOpen(ws: string)
    requires forall i :: 0 <= i < |ws| ==> IsWhitespace(ws[i])
    ensures ReadString(ws).Open?
  {
    if ws != "" {
      SpacesOpen(ws[1..]);
    }
  }

  /** Whitespace that lexes at all is skipped. */
  lemma {:induction false} SpaceHasNoTokens(ws: string)
    requires forall i :: 0 <= i < |ws| ==> IsWhitespace(ws[i])
    ensures LexLine(ws).Kinds? ==> LexLine(ws) == Kinds([])
  {
    if ws != "" {
      SpaceHasNoTokens(ws[1..]);
    }
  }

  lemma {:induction false} CommentHasNoTokens(cs: string)
    requires OneLine(cs) && IsCommentText(cs)
    ensures LexLine(cs) == Kinds([])
  {
    CommentLenStops(cs, "");
    assert cs + "" == cs;
    assert LexLine(cs[|cs|..]) == Kinds([]);
  }

  lemma {:induction false} TrimKeepsTokens(cs: string, ws: string)
    requires OneLine(cs + ws) && forall i :: 0 <= i < |ws| ==> IsWhitespace(ws[i])
    requires LexLine(cs + ws).Kinds?
    ensures LexLine(cs) == LexLine(cs + ws)
    decreases |cs|
  {
    assert cs + ws == cs || ws != "";
    if cs == "" {
      assert cs + ws == ws;
      SpaceHasNoTokens(ws);
    } else if cs[0] == '#' {
      assert forall i :: 0 <= i < |cs| ==> (cs + ws)[i] == cs[i];
      CommentHasNoTokens(cs + ws);
      CommentHasNoTokens(cs);
    } else if ws != "" {
      ItemBeforeSpace(cs, ws);
      assert cs[0] == (cs + ws)[0];
      var it := ReadItem(cs);
      if !it.Bad? {
        assert (cs + ws)[it.len..] == cs[it.len..] + ws;
        TrimKeepsTokens(cs[it.len..], ws);
      }
    }
  }

  /** A raw line and its stripped text have the same tokens. */
  lemma StrippedTokens(raw: string)
    requires OneLine(raw) && LexLine(raw).Kinds?
    ensures LexLine(Stripped(raw)) == LexLine(raw)
  {
    var line := TrimEnd(raw);
    var ws := raw[|line|..];
    assert raw == line + ws;
    TrimKeepsTokens(line, ws);
    LexLineSkips(line, BlankLen(line));
  }

  predicate Plain(ks: seq<Kind>) {
    forall i :: 0 <= i < |ks| ==> !IsLayout(ks[i]) && !ks[i].Newline? && !ks[i].Eof?
  }

  lemma {:induction false} LexLinePlain(cs: string)
    ensures LexLine(cs).Kinds? ==> Plain(LexLine(cs).kinds)
    decreases |cs|
  {
    if cs != "" && cs[0] != '\n' && !ReadItem(cs).Bad? {
      LexLinePlain(cs[ReadItem(cs).len..]);
    }
  }

  predicate NoCR(s: string) {
    forall i :: 0 <= i < |s| ==> s[i] != '\r'
  }

  /** Code has at least one token. */
  lemma CodeHasTokens(cs: string)
    requires cs != "" && !IsBlank(cs[0]) && cs[0] != '\r' && cs[0] != '#' && cs[0] != '\n'
    ensures LexLine(cs).Kinds? ==> LexLine(cs).kinds != []
  {
  }

  // --- Resting states: between lines a blank line changes nothing ---

  function EmptyStep(st: LexState): LexState {
    NewlineStep(st.(lineStart := false))
  }

  predicate Rested(st: LexState) {
    EmptyStep(st) == st
  }

  lemma NewlineRests(st: LexState)
    requires !st.lineStart
    ensures Rested(NewlineStep(st))
  {
    var ts := st.tokens;
    assert Init(ts + [Newline]) == ts;
  }

  lemma BlankStep(line: string, st: LexState)
    requires LexLine(line) == Kinds([]) && (st.lineStart ==> !IsCode(line[SpaceLen(line)..]))
    ensures LineStep(line, st) == Next(EmptyStep(st))
    ensures LineBody(line, st) == Next(st.(lineStart := false))
  {
  }

  lemma StepRests(line: string, st: LexState)
    requires LineStep(line, st).Next?
    ensures Rested(LineStep(line, st).st)
  {
    EnterLineFlag(line, st);
    var st' := EnterLine(line, st).st;
    EmitAllFlag(st', LexLine(line).kinds);
    NewlineRests(EmitAll(st', LexLine(line).kinds));
  }

  function Solid(lines: seq<FLine>): seq<FLine> {
    if lines == [] then [] else (if lines[0].blank then [] else [lines[0]]) + Solid(lines[1..])
  }

  lemma {:induction false} SolidSqueeze(pb: bool, lines: seq<FLine>)
    ensures Solid(Squeeze(pb, lines)) == Solid(lines)
    decreases |lines|
  {
    if lines != [] {
      SolidSqueeze(lines[0].blank, lines[1..]);
      var more := Squeeze(lines[0].blank, lines[1..]);
      assert ([lines[0]] + more)[1..] == more;
    }
  }

  lemma {:induction false} SolidPush(lines: seq<FLine>, l: FLine)
    ensures Solid(lines + [l]) == Solid(lines) + if l.blank then [] else [l]
  {
    if lines == [] {
      assert lines + [l] == [l] && [l][1..] == [];
    } else {
      assert (lines + [l])[1..] == lines[1..] + [l];
      SolidPush(lines[1..], l);
    }
  }

  lemma {:induction false} SolidTrim(lines: seq<FLine>)
    ensures Solid(TrimBlanks(lines)) == Solid(lines)
  {
    if lines != [] && Last(lines).blank {
      SolidTrim(Init(lines));
      assert lines == Init(lines) + [Last(lines)];
      SolidPush(Init(lines), Last(lines));
    }
  }

  lemma {:induction false} SolidSeparated(prev: FLine, rest: seq<FLine>)
    ensures Solid(Separated(prev, rest)) == Solid(rest)
    decreases |rest|
  {
    if rest != [] {
      var tail := [rest[0]] + Separated(rest[0], rest[1..]);
      SolidSeparated(rest[0], rest[1..]);
      assert tail[1..] == Separated(rest[0], rest[1..]) && ([BLANK] + tail)[1..] == tail;
      SeparatedShape(prev, rest);
    }
  }

  /** Blank lines do not count, wherever they stand. */
  lemma {:induction false} OnlySolidLines(lines: seq<FLine>, st: LexState)
    requires Rested(st)
    ensures LinesStep(Texts(lines), st) == LinesStep(Texts(Solid(lines)), st)
    decreases |lines|
  {
    if lines != [] {
      var l, t := lines[0], TextOfLine(lines[0]);
      assert Texts(lines)[1..] == Texts(lines[1..]);
      var more := Solid(lines[1..]);
      if l.blank {
        BlankStep("", st);
        assert Solid(lines) == more;
        OnlySolidLines(lines[1..], st);
      } else {
        assert Texts([l] + more)[1..] == Texts(more);
        assert Solid(lines) == [l] + more;
        if LineStep(t, st).Next? {
          StepRests(t, st);
          OnlySolidLines(lines[1..], LineStep(t, st).st);
        }
      }
    }
  }

  lemma SameSolid(source: string, u: Alphabet)
    ensures Solid(OutputLines(source, u)) == Solid(FormatLines(SplitLines(source), [0], u))
  {
    var lines := FormatLines(SplitLines(source), [0], u);
    SolidSqueeze(true, lines);
    SolidTrim(Squeeze(true, lines));
    SolidSeparated(BLANK, NormalizeBlanks(lines));
  }

  // --- The lexer on the original and on the printed line ---

  predicate IsCodeLine(raw: string) {
    TrimEnd(raw) != "" && !IsCommentText(Stripped(raw))
  }

  /** Strings close on the line. */
  predicate LineClosed(raw: string) {
    ClosesStrings(raw) && NoCR(raw)
  }

  predicate LinesClosed(raws: seq<string>) {
    forall i :: 0 <= i < |raws| ==> LineClosed(raws[i])
  }

  /** Printing the line fuses nothing. */
  predicate FuseFree(raw: string, u: Alphabet) {
    IsCodeLine(raw) ==> NoFusing(Pieces(Stripped(raw), false, u))
  }

  /** What a line must satisfy on its own: strings close on it and nothing fuses. */
  predicate LineOk(raw: string, u: Alphabet) {
    LineClosed(raw) && FuseFree(raw, u)
  }

  predicate LinesOk(raws: seq<string>, u: Alphabet) {
    forall i :: 0 <= i < |raws| ==> LineOk(raws[i], u)
  }

  // --- Levels: the indentation of the raw and of the printed lines ---

  /** The lexer state of the printed lines: all but the widths of the levels are the same. */
  function Widths(st: LexState, levels: seq<nat>): LexState {
    st.(stack := levels)
  }

  lemma {:induction false} WidthsEmitAll(st: LexState, levels: seq<nat>, ks: seq<Kind>)
    ensures EmitAll(Widths(st, levels), ks) == Widths(EmitAll(st, ks), levels)
    decreases |ks|
  {
    if ks != [] {
      WidthsEmitAll(Emit(st, ks[0]), levels, ks[1..]);
    }
  }

  /** What a line of width `w` does to the open levels. */
  datatype Move = Deeper | Same | Shallower(n: nat) | Nowhere

  function MoveOf(stack: seq<nat>, w: nat): (m: Move)
    ensures m.Shallower? ==> 0 < m.n == |stack| - |CodeStack(w, stack)|
  {
    if w > Top(stack) then Deeper
    else if w == Top(stack) then Same
    else if Top(PopTo(stack, w)) != w then Nowhere
    else
      assert PopTo(stack, w) != stack;
      Shallower(|stack| - |PopTo(stack, w)|)
  }

  function MoveTokens(m: Move): seq<Kind> {
    match m
    case Deeper => [Indent]
    case Shallower(n) => Dedents(n)
    case _ => []
  }

  /** A change of indentation is a move of the stack. */
  lemma IndentMoves(st: LexState, w: nat)
    ensures IndentStep(st, w) ==
            if MoveOf(st.stack, w).Nowhere? then Mismatch
            else Level(st.(stack := CodeStack(w, st.stack), tokens := st.tokens + MoveTokens(MoveOf(st.stack, w))))
  {
    assert st.tokens + [] == st.tokens;
  }

  /** The line starts outside a delimiter and holds code, so its indentation counts. */
  predicate Moving(raw: string, st: LexState) {
    st.lineStart && IsCodeLine(raw)
  }

  /** The width at which the line is printed. */
  function PrintedWidth(raw: string, stack: seq<nat>): nat {
    4 * DepthOf(CodeStack(IndentWidth(TrimEnd(raw)), stack))
  }

  /**
   * The printed line moves between the printed `levels` as the raw line moves between
   * the lexer's; `stack` is the formatter's own account of the raw lines.
   */
  predicate LineMatches(raw: string, st: LexState, stack: seq<nat>, levels: seq<nat>) {
    Moving(raw, st) && !MoveOf(st.stack, SpaceLen(raw)).Nowhere? ==>
      MoveOf(levels, PrintedWidth(raw, stack)) == MoveOf(st.stack, SpaceLen(raw))
  }

  function LevelsAfter(raw: string, st: LexState, stack: seq<nat>, levels: seq<nat>): seq<nat> {
    if Moving(raw, st) then CodeStack(PrintedWidth(raw, stack), levels) else levels
  }

  /** Every line of the text moves alike before and after printing. */
  predicate LayoutMatches(raws: seq<string>, st: LexState, stack: seq<nat>, levels: seq<nat>)
    decreases |raws|
  {
    raws == [] ||
    (&& LineMatches(raws[0], st, stack, levels)
     && (LineStep(raws[0], st).Next? ==>
           LayoutMatches(raws[1..], LineStep(raws[0], st).st, StackAfter(raws[0], stack),
                         LevelsAfter(raws[0], st, stack, levels))))
  }

  /** Blank and comment lines outside delimiters are indented by spaces only. */
  predicate SpacesOnly(raws: seq<string>, st: LexState)
    decreases |raws|
  {
    raws == [] ||
    (&& SpaceLed(raws[0], st)
     && (LineStep(raws[0], st).Next? ==> SpacesOnly(raws[1..], LineStep(raws[0], st).st)))
  }

  predicate SpaceLed(raw: string, st: LexState) {
    st.lineStart && !IsCodeLine(raw) ==> SpaceLen(raw) == BlankLen(raw)
  }

  lemma {:induction false} LeadingBlanks(raw: string, line: string)
    requires line <= raw && BlankLen(line) < |line|
    ensures BlankLen(raw) == BlankLen(line)
    decreases |raw|
  {
    if IsBlank(line[0]) {
      LeadingBlanks(raw[1..], line[1..]);
    }
  }

  lemma {:induction false} WidthOfSpaces(line: string)
    requires SpaceLen(line) == BlankLen(line)
    ensures IndentWidth(line) == SpaceLen(line)
  {
    if line != "" && line[0] == ' ' {
      WidthOfSpaces(line[1..]);
    }
  }

  lemma {:induction false} SpacesOfPrefix(raw: string, line: string)
    requires line <= raw && SpaceLen(raw) < |line|
    ensures SpaceLen(line) == SpaceLen(raw)
    decreases |raw|
  {
    if line[0] == ' ' {
      SpacesOfPrefix(raw[1..], line[1..]);
    }
  }

  /** Where the text of a line with content begins, when only spaces precede it. */
  lemma IndentFacts(raw: string)
    requires OneLine(raw) && TrimEnd(raw) != "" && SpaceLen(raw) == BlankLen(raw)
    ensures IndentWidth(TrimEnd(raw)) == SpaceLen(raw) < |raw|
    ensures raw[SpaceLen(raw)] == Stripped(raw)[0]
  {
    StrippedFacts(raw);
    var line := TrimEnd(raw);
    LeadingBlanks(raw, line);
    SpacesOfPrefix(raw, line);
    WidthOfSpaces(line);
  }

  lemma SpaceOfText(n: nat, t: string)
    requires t != "" && t[0] != ' '
    ensures SpaceLen(Spaces(n) + t) == n && (Spaces(n) + t)[n..] == t
  {
    SpaceLenStops(Spaces(n), t);
    SpaceLenAll(n);
  }

  lemma {:induction false} SpaceLenAll(n: nat)
    ensures SpaceLen(Spaces(n)) == n
  {
    if n > 0 {
      assert Spaces(n)[1..] == Spaces(n - 1);
      SpaceLenAll(n - 1);
    }
  }

  lemma TextTokens(n: nat, t: string)
    ensures LexLine(Spaces(n) + t) == LexLine(t)
  {
    LexLineSkips(Spaces(n) + t, n);
    assert (Spaces(n) + t)[n..] == t;
  }

  lemma CodeTokens(raw: string, depth: nat, u: Alphabet)
    requires LineOk(raw, u) && IsCodeLine(raw) && LexLine(raw).Kinds?
    ensures LexLine(TextOfLine(NewLine(depth, Stripped(raw), u))) == LexLine(raw)
    ensures LexLine(raw).kinds != []
  {
    var t := Stripped(raw);
    StrippedFacts(raw);
    StrippedTokens(raw);
    RespaceKeepsTokens(t, u);
    TextTokens(4 * depth, Respace(t, u));
    CodeHasKinds(raw);
  }

  lemma CodeHasKinds(raw: string)
    requires LineClosed(raw) && IsCodeLine(raw) && LexLine(raw).Kinds?
    ensures LexLine(raw).kinds != []
  {
    var t := Stripped(raw);
    StrippedFacts(raw);
    StrippedTokens(raw);
    assert t[0] != '\r' by {
      var line := TrimEnd(raw);
      assert t[0] == line[BlankLen(line)] == raw[BlankLen(line)];
    }
    CodeHasTokens(t);
  }

  /** The lexer looks at the indentation of a code line, whatever blanks it starts with. */
  lemma CodeCounts(raw: string)
    requires OneLine(raw) && NoCR(raw) && IsCodeLine(raw)
    ensures IsCode(raw[SpaceLen(raw)..])
  {
    StrippedFacts(raw);
    var line, w := TrimEnd(raw), SpaceLen(raw);
    LeadingBlanks(raw, line);
    SpacesFirst(raw);
    assert raw[BlankLen(raw)] == Stripped(raw)[0];
    assert raw[w..][0] == raw[w];
  }

  lemma {:induction false} SpacesFirst(raw: string)
    ensures SpaceLen(raw) <= BlankLen(raw)
  {
    if raw != "" && raw[0] == ' ' {
      SpacesFirst(raw[1..]);
    }
  }

  /** Entering a line of code moves the levels. */
  lemma RawEntry(raw: string, st: LexState)
    requires OneLine(raw) && NoCR(raw) && IsCodeLine(raw)
    ensures EnterLine(raw, st) ==
            if st.lineStart then IndentStep(st.(lineStart := false), SpaceLen(raw)) else Level(st.(lineStart := false))
  {
    CodeCounts(raw);
  }

  lemma PrintedEntry(raw: string, st: LexState, stack: seq<nat>, levels: seq<nat>, u: Alphabet)
    requires OneLine(raw) && NoCR(raw) && IsCodeLine(raw)
    ensures EnterLine(TextOfLine(FormatLine(raw, stack, u)), Widths(st, levels)) ==
            if st.lineStart then IndentStep(Widths(st, levels).(lineStart := false), PrintedWidth(raw, stack))
            else Level(Widths(st, levels).(lineStart := false))
  {
    var t, l := Stripped(raw), FormatLine(raw, stack, u);
    StrippedFacts(raw);
    FirstOfRespace(t, u);
    SpaceOfText(4 * l.depth, l.content);
    assert TextOfLine(l)[4 * l.depth..] == l.content;
  }

  lemma CodeLine(raw: string, st: LexState, stack: seq<nat>, levels: seq<nat>, u: Alphabet)
    requires LineOk(raw, u) && IsCodeLine(raw) && LineBody(raw, st).Next?
    requires LineMatches(raw, st, stack, levels)
    ensures LineBody(TextOfLine(FormatLine(raw, stack, u)), Widths(st, levels)) ==
            Next(Widths(LineBody(raw, st).st, LevelsAfter(raw, st, stack, levels)))
  {
    RawEntry(raw, st);
    PrintedEntry(raw, st, stack, levels, u);
    IndentMoves(st.(lineStart := false), SpaceLen(raw));
    IndentMoves(Widths(st, levels).(lineStart := false), PrintedWidth(raw, stack));
    CodeTokens(raw, FormatLine(raw, stack, u).depth, u);
    WidthsEmitAll(EnterLine(raw, st).st, LevelsAfter(raw, st, stack, levels), LexLine(raw).kinds);
  }

  /** Matching moves keep as many levels open. */
  lemma SameLevels(raw: string, st: LexState, stack: seq<nat>, levels: seq<nat>, u: Alphabet)
    requires LineOk(raw, u) && LineBody(raw, st).Next? && SpaceLed(raw, st)
    requires LineMatches(raw, st, stack, levels) && |levels| == |st.stack|
    ensures |LevelsAfter(raw, st, stack, levels)| == |LineBody(raw, st).st.stack|
  {
    if IsCodeLine(raw) {
      RawEntry(raw, st);
      IndentMoves(st.(lineStart := false), SpaceLen(raw));
      EmitAllFlag(EnterLine(raw, st).st, LexLine(raw).kinds);
    } else {
      NoCodeRaw(raw, st);
    }
  }

  /** A raw line without code is skipped by the lexer. */
  lemma NoCodeRaw(raw: string, st: LexState)
    requires LineClosed(raw) && !IsCodeLine(raw) && LineBody(raw, st).Next? && SpaceLed(raw, st)
    ensures LineBody(raw, st) == Next(st.(lineStart := false))
  {
    StrippedTokens(raw);
    var w := SpaceLen(raw);
    if TrimEnd(raw) == "" {
      SpaceHasNoTokens(raw);
      if st.lineStart && w < |raw| {
        LexLineSkips(raw, w);
        assert IsWhitespace(raw[w]) && raw[w..][0] == raw[w];
      }
    } else {
      StrippedFacts(raw);
      CommentHasNoTokens(Stripped(raw));
      if st.lineStart {
        IndentFacts(raw);
        assert raw[w..][0] == raw[w];
      }
    }
    BlankStep(raw, st);
  }

  /** So is the line that is printed for it. */
  lemma NoCodePrinted(raw: string, st: LexState, stack: seq<nat>, u: Alphabet)
    requires OneLine(raw) && !IsCodeLine(raw)
    ensures LineBody(TextOfLine(FormatLine(raw, stack, u)), st) == Next(st.(lineStart := false))
  {
    var l := FormatLine(raw, stack, u);
    if TrimEnd(raw) == "" {
      BlankStep("", st);
    } else {
      FormatLineClean(raw, stack, u);
      CommentHasNoTokens(l.content);
      TextTokens(4 * l.depth, l.content);
      SpaceOfText(4 * l.depth, l.content);
      BlankStep(TextOfLine(l), st);
    }
  }

  /** A matching line does to the printed state what the raw line does to the state. */
  lemma LineSimulates(raw: string, st: LexState, stack: seq<nat>, levels: seq<nat>, u: Alphabet)
    requires LineOk(raw, u) && LineBody(raw, st).Next? && SpaceLed(raw, st)
    requires LineMatches(raw, st, stack, levels)
    ensures LineBody(TextOfLine(FormatLine(raw, stack, u)), Widths(st, levels)) ==
            Next(Widths(LineBody(raw, st).st, LevelsAfter(raw, st, stack, levels)))
  {
    if IsCodeLine(raw) {
      CodeLine(raw, st, stack, levels, u);
    } else {
      NoCodeRaw(raw, st);
      NoCodePrinted(raw, Widths(st, levels), stack, u);
    }
  }

  /** The printed lines take the lexer through the tokens of the raw lines, to as many open levels. */
  lemma {:induction false} LinesSimulate(
    raws: seq<string>, st: LexState, stack: seq<nat>, levels: seq<nat>, u: Alphabet) returns (after: seq<nat>)
    requires LinesOk(raws, u) && SpacesOnly(raws, st) && LinesStep(raws, st).Next?
    requires LayoutMatches(raws, st, stack, levels) && |levels| == |st.stack|
    ensures |after| == |LinesStep(raws, st).st.stack|
    ensures LinesStep(Texts(FormatLines(raws, stack, u)), Widths(st, levels)) == Next(Widths(LinesStep(raws, st).st, after))
    decreases |raws|
  {
    after := levels;
    if raws != [] {
      var raw, next := raws[0], LevelsAfter(raws[0], st, stack, levels);
      LineSimulates(raw, st, stack, levels, u);
      SameLevels(raw, st, stack, levels, u);
      FirstPrinted(raws, stack, Widths(st, levels), u);
      after := LinesSimulate(raws[1..], LineStep(raw, st).st, StackAfter(raw, stack), next, u);
    }
  }

  lemma FirstPrinted(raws: seq<string>, stack: seq<nat>, p: LexState, u: Alphabet)
    requires raws != []
    ensures var first := LineStep(TextOfLine(FormatLine(raws[0], stack, u)), p);
            LinesStep(Texts(FormatLines(raws, stack, u)), p) ==
            if first.Stop? then first
            else LinesStep(Texts(FormatLines(raws[1..], StackAfter(raws[0], stack), u)), first.st)
  {
    var lines := FormatLines(raws, stack, u);
    assert Texts(lines)[1..] == Texts(lines[1..]);
    assert lines[1..] == FormatLines(raws[1..], StackAfter(raws[0], stack), u);
  }

  // --- The whole text ---

  lemma {:induction false} ToLFIdle(s: string)
    requires NoCR(s)
    ensures ToLF(s) == s
  {
    if s != "" {
      ToLFIdle(s[1..]);
      assert [s[0]] + s[1..] == s;
    }
  }

  predicate EndsLine(s: string) {
    s == "" || Last(s) == '\n'
  }

  lemma UnlinesCons(l: string, ls: seq<string>)
    ensures Unlines([l] + ls) == l + ['\n'] + Unlines(ls)
  {
    assert ([l] + ls)[1..] == ls;
  }

  /** The text of lines of which the last has no newline. */
  predicate OpenText(ls: seq<string>, s: string) {
    ls != [] && Last(ls) != "" && Unlines(Init(ls)) + Last(ls) == s
  }

  lemma OpenTextCons(l: string, ls: seq<string>, s: string)
    requires OpenText(ls, s)
    ensures OpenText([l] + ls, l + ['\n'] + s)
  {
    var all := [l] + ls;
    assert Last(all) == Last(ls) && Init(all) == [l] + Init(ls);
    UnlinesCons(l, Init(ls));
    assert l + ['\n'] + Unlines(Init(ls)) + Last(ls) == l + ['\n'] + (Unlines(Init(ls)) + Last(ls));
  }

  /** A text is its lines, the last of which may lack its newline. */
  lemma {:induction false} SplitLinesText(s: string)
    ensures if EndsLine(s) then Unlines(SplitLines(s)) == s else OpenText(SplitLines(s), s)
    decreases |s|
  {
    if s != "" {
      var n := CommentLen(s);
      if n == |s| {
        OneOpenLine(s);
      } else {
        SplitLinesText(s[n + 1..]);
        SplitOff(s, n);
      }
    }
  }

  lemma OneOpenLine(s: string)
    requires s != "" && CommentLen(s) == |s|
    ensures !EndsLine(s) && OpenText(SplitLines(s), s)
  {
    assert s[..|s|] == s;
    assert SplitLines(s) == [s] + SplitLines("") == [s];
    assert Init([s]) == [] && Last([s]) == s && Unlines([]) + s == s;
  }

  lemma SplitOff(s: string, n: nat)
    requires n == CommentLen(s) < |s|
    requires var rest := s[n + 1..];
             if EndsLine(rest) then Unlines(SplitLines(rest)) == rest else OpenText(SplitLines(rest), rest)
    ensures if EndsLine(s) then Unlines(SplitLines(s)) == s else OpenText(SplitLines(s), s)
  {
    var l, rest := s[..n], s[n + 1..];
    Rejoined(s, n);
    assert SplitLines(s) == [l] + SplitLines(rest);
    if EndsLine(rest) {
      UnlinesCons(l, SplitLines(rest));
    } else {
      OpenTextCons(l, SplitLines(rest), rest);
    }
  }

  lemma Rejoined(s: string, n: nat)
    requires n < |s| && s[n] == '\n'
    ensures s == s[..n] + ['\n'] + s[n + 1..] && EndsLine(s) == EndsLine(s[n + 1..])
  {
    if n + 1 < |s| {
      assert Last(s) == Last(s[n + 1..]);
    }
  }

  /** The lexer state has no indentation token at its end: it comes with a token behind it. */
  predicate EndsPlain(st: LexState) {
    st.tokens == [] || (!IsLayout(Last(st.tokens)) && !Last(st.tokens).Eof?)
  }

  lemma {:induction false} EmitAllEndsPlain(st: LexState, ks: seq<Kind>)
    requires Plain(ks) && (ks == [] ==> EndsPlain(st))
    ensures EndsPlain(EmitAll(st, ks))
    decreases |ks|
  {
    if ks != [] {
      EmitAllEndsPlain(Emit(st, ks[0]), ks[1..]);
    }
  }

  lemma BodyEndsPlain(raw: string, st: LexState)
    requires EndsPlain(st) && LineClosed(raw) && LineBody(raw, st).Next? && SpaceLed(raw, st)
    ensures EndsPlain(LineBody(raw, st).st)
  {
    if IsCodeLine(raw) {
      LexLinePlain(raw);
      CodeHasKinds(raw);
      EmitAllEndsPlain(EnterLine(raw, st).st, LexLine(raw).kinds);
    } else {
      NoCodeRaw(raw, st);
    }
  }

  lemma {:induction false} LinesEndPlain(raws: seq<string>, st: LexState)
    requires LinesClosed(raws) && EndsPlain(st) && LinesStep(raws, st).Next? && SpacesOnly(raws, st)
    ensures EndsPlain(LinesStep(raws, st).st)
    decreases |raws|
  {
    if raws != [] {
      BodyEndsPlain(raws[0], st);
      LinesEndPlain(raws[1..], LineStep(raws[0], st).st);
    }
  }

  lemma {:induction false} FilterConcat(a: seq<Kind>, b: seq<Kind>)
    ensures Filter(a + b) == Filter(a) + Filter(b)
  {
    if a == [] {
      assert a + b == b;
    } else {
      assert (a + b)[1..] == a[1..] + b;
      FilterConcat(a[1..], b);
    }
  }

  lemma FilterLast(a: seq<Kind>, k: Kind)
    requires !k.Eof?
    ensures Filter(a + [k]) == Filter(a) + [k]
  {
    FilterConcat(a, [k]);
    assert [k][1..] == [];
    assert Filter([k]) == [k] + Filter([]) == [k];
  }

  lemma {:induction false} FilterDedents(n: nat)
    ensures Filter(Dedents(n)) == Dedents(n)
  {
    if n > 0 {
      FilterDedents(n - 1);
      FilterConcat(Dedents(n - 1), [Dedent]);
    }
  }

  lemma {:induction false} DropTerminalDedents(ts: seq<Kind>, n: nat)
    ensures DropTerminal(ts + Dedents(n)) == DropTerminal(ts) + Dedents(n)
  {
    if n == 0 {
      assert ts + Dedents(0) == ts && DropTerminal(ts) + Dedents(0) == DropTerminal(ts);
    } else {
      DropTerminalDedents(ts, n - 1);
      var all := ts + Dedents(n);
      assert all == ts + Dedents(n - 1) + [Dedent] && Init(all) == ts + Dedents(n - 1);
    }
  }

  lemma SignificantFinish(st: LexState)
    ensures Significant(Finish(st)) == DropTerminal(Filter(st.tokens)) + Dedents(DepthOf(st.stack))
  {
    var n := DepthOf(st.stack);
    FilterConcat(st.tokens + Dedents(n), [Eof]);
    FilterConcat(st.tokens, Dedents(n));
    FilterDedents(n);
    assert Filter([Eof]) == Filter([Eof][1..]) == [];
    assert Filter(st.tokens + Dedents(n)) + [] == Filter(st.tokens) + Dedents(n);
    DropTerminalDedents(Filter(st.tokens), n);
  }

  /** The newline that formatting adds at the end of the file bears no meaning. */
  lemma TerminalNewline(st: LexState)
    requires EndsPlain(st)
    ensures Significant(Finish(NewlineStep(st))) == Significant(Finish(st))
  {
    SignificantFinish(st);
    SignificantFinish(NewlineStep(st));
    var ts := st.tokens;
    if NewlineStep(st).tokens != ts {
      FilterLast(Init(ts), Last(ts));
      assert ts == Init(ts) + [Last(ts)];
      FilterLast(ts, Newline);
      assert Init(Filter(ts) + [Newline]) == Filter(ts);
    }
  }

  /** The tokens of a text whose last line lacks its newline. */
  lemma LastLineSteps(init: seq<string>, last: string)
    requires LinesClosed(init) && LineClosed(last) && last != ""
    requires SpacesOnly(init + [last], START)
    requires LexFrom(Unlines(init) + last, START).Done?
    ensures LinesStep(init + [last], START).Next?
    ensures Significant(Finish(LinesStep(init + [last], START).st)) ==
            Significant(LexFrom(Unlines(init) + last, START).tokens)
  {
    LexFromLines(init, last, START);
    var st := LinesStep(init, START).st;
    LexFromLastLine(last, st);
    LinesStepConcat(init, last, START);
    SpacesPrefix(init, last, START);
    LinesEndPlain(init, START);
    BodyEndsPlain(last, st);
    TerminalNewline(LineBody(last, st).st);
  }

  /** The tokens of a text are those of its lines. */
  lemma TextSteps(raws: seq<string>, s: string)
    requires Unlines(raws) == s || OpenText(raws, s)
    requires LinesClosed(raws) && SpacesOnly(raws, START) && LexFrom(s, START).Done?
    ensures LinesStep(raws, START).Next?
    ensures Significant(Finish(LinesStep(raws, START).st)) == Significant(LexFrom(s, START).tokens)
  {
    if OpenText(raws, s) {
      var init, last := Init(raws), Last(raws);
      assert raws == init + [last];
      assert LinesClosed(init) && LineClosed(last) by {
        assert forall i :: 0 <= i < |init| ==> init[i] == raws[i];
      }
      LastLineSteps(init, last);
    } else {
      AllLinesSteps(raws);
    }
  }

  lemma AllLinesSteps(raws: seq<string>)
    requires LinesClosed(raws) && LexFrom(Unlines(raws), START).Done?
    ensures LinesStep(raws, START).Next?
    ensures Finish(LinesStep(raws, START).st) == LexFrom(Unlines(raws), START).tokens
  {
    assert Unlines(raws) + "" == Unlines(raws);
    LexFromLines(raws, "", START);
  }

  lemma {:induction false} LinesStepConcat(raws: seq<string>, last: string, st: LexState)
    requires LinesStep(raws, st).Next?
    ensures LinesStep(raws + [last], st) == LineStep(last, LinesStep(raws, st).st)
    decreases |raws|
  {
    if raws == [] {
      assert raws + [last] == [last] && [last][1..] == [];
    } else {
      assert (raws + [last])[1..] == raws[1..] + [last];
      LinesStepConcat(raws[1..], last, LineStep(raws[0], st).st);
    }
  }

  lemma {:induction false} SpacesPrefix(raws: seq<string>, last: string, st: LexState)
    requires LinesStep(raws, st).Next? && SpacesOnly(raws + [last], st)
    ensures SpacesOnly(raws, st) && SpaceLed(last, LinesStep(raws, st).st)
    decreases |raws|
  {
    var all := raws + [last];
    if raws != [] {
      assert all[1..] == raws[1..] + [last];
      SpacesPrefix(raws[1..], last, LineStep(raws[0], st).st);
    }
  }

  /** Lexing a printed text is stepping through its lines. */
  lemma PrintedSteps(lines: seq<FLine>, u: Alphabet)
    requires AllClean(lines, u) && LinesStep(Texts(lines), START).Next?
    requires NoCR(Print(lines))
    ensures Tokenize(Print(lines)) == Done(Finish(LinesStep(Texts(lines), START).st))
  {
    var ts := if lines == [] then [""] else Texts(lines);
    ToLFIdle(Print(lines));
    assert Print(lines) == Unlines(ts) + "";
    TextsOneLine(lines, u);
    if lines == [] {
      BlankStep("", START);
      assert [""][1..] == [];
    }
    StepsCloseStrings(ts, START);
    LexFromLines(ts, "", START);
  }

  /** Lines that step through without an error close their strings. */
  lemma {:induction false} StepsCloseStrings(ts: seq<string>, st: LexState)
    requires LinesStep(ts, st).Next? && forall i :: 0 <= i < |ts| ==> OneLine(ts[i])
    ensures forall i :: 0 <= i < |ts| ==> ClosesStrings(ts[i])
    decreases |ts|
  {
    if ts != [] {
      StepsCloseStrings(ts[1..], LineStep(ts[0], st).st);
    }
  }

  // --- No carriage return is printed ---

  lemma {:induction false} JoinNoCR(atoms: seq<Atom>, k: nat)
    requires k <= |atoms| && forall i :: 0 <= i < |atoms| ==> NoCR(atoms[i].text)
    ensures NoCR(JoinFrom(atoms, k))
    decreases |atoms| - k
  {
    if k < |atoms| {
      JoinNoCR(atoms, k + 1);
    }
  }

  lemma {:induction false} ScanNoCR(cs: string, u: Alphabet)
    requires NoCR(cs)
    ensures forall k :: 0 <= k < |Scan(cs, u)| ==> NoCR(Scan(cs, u)[k].text)
    decreases |cs|
  {
    if cs == "" {
    } else if IsBlank(cs[0]) {
      ScanNoCR(cs[1..], u);
    } else {
      ScanNoCR(cs[|FirstAtom(cs, u).text|..], u);
    }
  }

  lemma FormatLineNoCR(raw: string, stack: seq<nat>, u: Alphabet)
    requires NoCR(raw)
    ensures NoCR(FormatLine(raw, stack, u).content)
  {
    var line := TrimEnd(raw);
    assert NoCR(line);
    var t := Stripped(raw);
    assert NoCR(t);
    ScanNoCR(t, u);
    JoinNoCR(Scan(t, u), 0);
  }

  predicate AllNoCR(lines: seq<FLine>) {
    forall i :: 0 <= i < |lines| ==> NoCR(lines[i].content)
  }

  lemma {:induction false} FormatLinesNoCR(raws: seq<string>, stack: seq<nat>, u: Alphabet)
    requires forall i :: 0 <= i < |raws| ==> NoCR(raws[i])
    ensures AllNoCR(FormatLines(raws, stack, u))
    decreases |raws|
  {
    if raws != [] {
      FormatLineNoCR(raws[0], stack, u);
      FormatLinesNoCR(raws[1..], StackAfter(raws[0], stack), u);
    }
  }

  lemma SolidCons(first: FLine, rest: seq<FLine>)
    ensures Solid([first] + rest) == if first.blank then Solid(rest) else [first] + Solid(rest)
  {
    assert ([first] + rest)[1..] == rest;
  }

  lemma {:induction false} SolidNoCR(lines: seq<FLine>, u: Alphabet)
    requires AllClean(lines, u)
    ensures AllNoCR(Solid(lines)) <==> AllNoCR(lines)
    decreases |lines|
  {
    if lines != [] {
      var first, rest := lines[0], lines[1..];
      assert lines == [first] + rest && Clean(first, u);
      SolidNoCR(rest, u);
      ConsNoCR(first, rest);
      SolidCons(first, rest);
      if !first.blank {
        ConsNoCR(first, Solid(rest));
      }
    }
  }

  lemma ConsNoCR(l: FLine, more: seq<FLine>)
    ensures AllNoCR([l] + more) <==> NoCR(l.content) && AllNoCR(more)
  {
    var all := [l] + more;
    if AllNoCR(all) {
      assert NoCR(all[0].content);
      assert forall i :: 0 <= i < |more| ==> more[i] == all[i + 1];
    }
  }

  lemma {:induction false} UnlinesNoCR(ts: seq<string>)
    requires forall i :: 0 <= i < |ts| ==> NoCR(ts[i])
    ensures NoCR(Unlines(ts))
  {
    if ts != [] {
      UnlinesNoCR(ts[1..]);
    }
  }

  lemma OutputNoCR(source: string, u: Alphabet)
    requires forall i :: 0 <= i < |SplitLines(source)| ==> NoCR(SplitLines(source)[i])
    ensures AllNoCR(OutputLines(source, u))
  {
    var raws := SplitLines(source);
    FormatLinesNoCR(raws, [0], u);
    SplitLinesOneLine(source);
    FormatLinesClean(raws, [0], u);
    OutputGood(source, u);
    SolidNoCR(FormatLines(raws, [0], u), u);
    SolidNoCR(OutputLines(source, u), u);
    SameSolid(source, u);
  }

  lemma PrintNoCR(lines: seq<FLine>)
    requires AllNoCR(lines)
    ensures NoCR(Print(lines))
  {
    UnlinesNoCR(if lines == [] then [""] else Texts(lines));
  }

  /** The texts for which the guard cannot fire: nothing fuses and every line moves alike. */
  predicate Preservable(source: string, u: Alphabet) {
    && Plausible(source) && LinesOk(SplitLines(source), u)
    && LayoutMatches(SplitLines(source), START, [0], [0])
  }

  /** The lines can be read one by one: strings close on them, no tab leads a blank or comment line. */
  predicate Plausible(source: string) {
    NoCR(source) && LinesClosed(SplitLines(source)) && SpacesOnly(SplitLines(source), START)
  }

  /** Blank lines aside, the printed text is the formatted lines. */
  lemma OutputSolid(source: string, u: Alphabet)
    ensures LinesStep(Texts(OutputLines(source, u)), START) ==
            LinesStep(Texts(FormatLines(SplitLines(source), [0], u)), START)
  {
    OnlySolidLines(FormatLines(SplitLines(source), [0], u), START);
    SameSolid(source, u);
    OnlySolidLines(OutputLines(source, u), START);
  }

  /** The printed lines take the lexer where the raw lines take it, with other widths. */
  lemma OutputSteps(source: string, u: Alphabet) returns (after: seq<nat>)
    requires Preservable(source, u) && LinesStep(SplitLines(source), START).Next?
    ensures |after| == |LinesStep(SplitLines(source), START).st.stack|
    ensures LinesStep(Texts(OutputLines(source, u)), START) == Next(Widths(LinesStep(SplitLines(source), START).st, after))
  {
    assert Widths(START, [0]) == START;
    after := LinesSimulate(SplitLines(source), START, [0], [0], u);
    OutputSolid(source, u);
  }

  lemma LevelsInsignificant(st: LexState, levels: seq<nat>)
    requires |levels| == |st.stack|
    ensures Significant(Finish(Widths(st, levels))) == Significant(Finish(st))
  {
    SignificantFinish(st);
    SignificantFinish(Widths(st, levels));
  }

  lemma LexOutput(source: string, u: Alphabet)
    requires LinesClosed(SplitLines(source)) && LinesStep(Texts(OutputLines(source, u)), START).Next?
    ensures Tokenize(Normalize(source, u)) == Done(Finish(LinesStep(Texts(OutputLines(source, u)), START).st))
  {
    OutputGood(source, u);
    OutputNoCR(source, u);
    PrintNoCR(OutputLines(source, u));
    PrintedSteps(OutputLines(source, u), u);
  }

  /** The output lexes, and has the meaning-bearing tokens of the source, layout included. */
  predicate Kept(source: string, u: Alphabet) {
    var before, after := Tokenize(source), Tokenize(Normalize(source, u));
    before.Done? && after.Done? && Significant(after.tokens) == Significant(before.tokens)
  }

  /** Formatting keeps every meaning-bearing token, layout included. */
  lemma FormattingPreservesTokens(source: string, u: Alphabet)
    requires Preservable(source, u) && Tokenize(source).Done?
    ensures Kept(source, u)
  {
    ToLFIdle(source);
    SplitLinesText(source);
    TextSteps(SplitLines(source), source);
    var after := OutputSteps(source, u);
    LexOutput(source, u);
    LevelsInsignificant(LinesStep(SplitLines(source), START).st, after);
  }

  /** A parser for which the newline at the end of a file separates nothing. */
  ghost predicate TerminalNewlineIgnored(parses: seq<Kind> -> bool) {
    forall a, b :: Significant(a) == Significant(b) ==> parses(a) == parses(b)
  }

  /** The divergence error is unreachable for these texts. */
  lemma GuardNeverFires(source: string, u: Alphabet, parses: seq<Kind> -> bool)
    requires Preservable(source, u)
    ensures FormatSource(source, u, parses) != AstDivergence
    ensures Tokenize(source).Done? && parses(Tokenize(source).tokens) && TerminalNewlineIgnored(parses) ==>
              FormatSource(source, u, parses) == Formatted(Normalize(source, u))
  {
    if Tokenize(source).Done? {
      FormattingPreservesTokens(source, u);
    }
  }
}
