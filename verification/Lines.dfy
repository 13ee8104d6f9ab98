/** The lexer seen line by line: what one line does to the lexer state. */
module Lines {
  import opened Chars
  import opened Lexemes
  import opened Layout
  import Respacing

  datatype Step = Next(st: LexState) | Stop(error: LexError)

  function EmitLexed(l: Lexed, st: LexState): Step {
    if l.Fails? then Stop(l.error) else Next(EmitAll(st, l.kinds))
  }

  /** Lexing goes on with `rest`, unless it has stopped. */
  function Resume(s: Step, rest: string): LexResult {
    if s.Stop? then Failed(s.error) else LexFrom(rest, s.st)
  }

  /** A line up to, but without, its newline. */
  function LineBody(line: string, st: LexState): Step {
    var head := EnterLine(line, st);
    if head.Mismatch? then Stop(InvalidIndentation) else EmitLexed(LexLine(line), head.st)
  }

  /** A line with its newline. */
  function LineStep(line: string, st: LexState): Step {
    var body := LineBody(line, st);
    if body.Stop? then body else Next(NewlineStep(body.st))
  }

  function LinesStep(lines: seq<string>, st: LexState): Step
    decreases |lines|
  {
    if lines == [] then Next(st)
    else
      var first := LineStep(lines[0], st);
      if first.Stop? then first else LinesStep(lines[1..], first.st)
  }

  // --- Items in front of a newline ---

  lemma {:induction false} CommentLenStops(cs: string, r: string)
    requires OneLine(cs) && (r == "" || r[0] == '\n')
    ensures CommentLen(cs + r) == |cs|
  {
    if cs == "" {
      assert cs + r == r;
    } else {
      assert (cs + r)[1..] == cs[1..] + r;
      CommentLenStops(cs[1..], r);
    }
  }

  lemma {:induction false} ReadStringStops(cs: string, r: string)
    requires OneLine(cs) && ReadString(cs).Closed?
    ensures ReadString(cs + r) == ReadString(cs)
    decreases |cs|
  {
    if cs[0] != '"' {
      var n := if cs[0] == '\\' then 2 else 1;
      assert (cs + r)[n..] == cs[n..] + r;
      ReadStringStops(cs[n..], r);
    }
  }

  lemma ItemBeforeNewline(cs: string, r: string)
    requires cs != "" && OneLine(cs) && r != "" && r[0] == '\n'
    requires ReadItem(cs) != Bad(UnterminatedString)
    ensures ReadItem(cs + r) == ReadItem(cs)
  {
    var both := cs + r;
    assert forall i :: 0 <= i < |cs| ==> both[i] == cs[i];
    assert both[|cs|] == '\n';
    assert both[1..] == cs[1..] + r;
    if cs[0] == '#' {
      CommentLenStops(cs, r);
      CommentLenStops(cs, "");
      assert cs + "" == cs;
    } else if cs[0] == '"' {
      ReadStringStops(cs[1..], r);
    } else if IsDigit(cs[0]) {
      Respacing.NumSpanExtends(cs, r, false);
      var s := NumSpan(cs, false);
      assert s.Span? ==> both[..s.len] == cs[..s.len];
    } else if IsLetter(cs[0]) {
      Respacing.IdLenExtends(cs, r);
      assert both[..IdLen(cs)] == cs[..IdLen(cs)];
    } else {
      assert both[..SymLen(cs)] == cs[..SymLen(cs)];
    }
  }

  /** A line whose strings are closed on it: the lexer never looks past its end. */
  predicate ClosesStrings(line: string) {
    OneLine(line) && LexLine(line) != Fails(UnterminatedString)
  }

  lemma {:induction false} ItemsBeforeNewline(cs: string, r: string, st: LexState)
    requires ClosesStrings(cs) && r != "" && r[0] == '\n' && !st.lineStart
    ensures LexFrom(cs + r, st) == Resume(EmitLexed(LexLine(cs), st), r)
    decreases |cs|
  {
    if cs == "" {
      assert cs + r == r;
    } else {
      ItemBeforeNewline(cs, r);
      match ReadItem(cs)
      case Bad(_) =>
      case Skip(n) =>
        assert (cs + r)[n..] == cs[n..] + r;
        ItemsBeforeNewline(cs[n..], r, st);
      case Tok(k, n) =>
        assert (cs + r)[n..] == cs[n..] + r;
        ItemsBeforeNewline(cs[n..], r, Emit(st, k));
        if LexLine(cs[n..]).Kinds? {
          EmitAllCons(st, k, LexLine(cs[n..]).kinds);
        }
    }
  }

  lemma EmitAllCons(st: LexState, k: Kind, ks: seq<Kind>)
    ensures EmitAll(st, [k] + ks) == EmitAll(Emit(st, k), ks)
  {
    assert ([k] + ks)[1..] == ks;
  }

  lemma {:induction false} ItemsAtEnd(cs: string, st: LexState)
    requires OneLine(cs) && !st.lineStart
    ensures LexFrom(cs, st) == Resume(EmitLexed(LexLine(cs), st), "")
    decreases |cs|
  {
    if cs != "" {
      match ReadItem(cs)
      case Bad(_) =>
      case Skip(n) => ItemsAtEnd(cs[n..], st);
      case Tok(k, n) =>
        ItemsAtEnd(cs[n..], Emit(st, k));
        if LexLine(cs[n..]).Kinds? {
          EmitAllCons(st, k, LexLine(cs[n..]).kinds);
        }
    }
  }

  // --- A whole line ---

  lemma {:induction false} SpaceLenStops(cs: string, r: string)
    requires r == "" || r[0] != ' '
    ensures SpaceLen(cs + r) == SpaceLen(cs)
  {
    if cs == "" {
      assert cs + r == r;
    } else {
      assert (cs + r)[1..] == cs[1..] + r;
      SpaceLenStops(cs[1..], r);
    }
  }

  lemma {:induction false} LexLineSkips(cs: string, n: nat)
    requires n <= |cs| && forall i :: 0 <= i < n ==> IsBlank(cs[i])
    ensures LexLine(cs) == LexLine(cs[n..])
  {
    if n > 0 {
      LexLineSkips(cs[1..], n - 1);
      assert cs[1..][n - 1..] == cs[n..];
    } else {
      assert cs[0..] == cs;
    }
  }

  lemma EnterLineLocal(line: string, r: string, st: LexState)
    requires r == "" || r[0] == '\n'
    ensures SpaceLen(line + r) == SpaceLen(line)
    ensures (line + r)[SpaceLen(line)..] == line[SpaceLen(line)..] + r
    ensures EnterLine(line + r, st) == EnterLine(line, st)
  {
    SpaceLenStops(line, r);
    var w := SpaceLen(line);
    assert (line + r)[w..] == line[w..] + r;
  }

  /** A level of indentation never changes the flag that a line has started. */
  lemma EnterLineFlag(line: string, st: LexState)
    ensures EnterLine(line, st).Level? ==> !EnterLine(line, st).st.lineStart
  {
  }

  lemma LexFromLine(line: string, rest: string, st: LexState)
    requires ClosesStrings(line)
    ensures LexFrom(line + ['\n'] + rest, st) == Resume(LineStep(line, st), rest)
  {
    var r := ['\n'] + rest;
    var w := SpaceLen(line);
    assert line + ['\n'] + rest == line + r && r[1..] == rest;
    EnterLineLocal(line, r, st);
    EnterLineFlag(line, st);
    LexLineSkips(line, w);
    if EnterLine(line, st).Level? {
      var st' := EnterLine(line, st).st;
      ItemsBeforeNewline(if st.lineStart then line[w..] else line, r, st');
      assert st.lineStart ==> st'.(lineStart := false) == st';
      EmitAllFlag(st', if LexLine(line).Kinds? then LexLine(line).kinds else []);
    }
  }

  lemma {:induction false} EmitAllFlag(st: LexState, ks: seq<Kind>)
    ensures EmitAll(st, ks).lineStart == st.lineStart && EmitAll(st, ks).stack == st.stack
    decreases |ks|
  {
    if ks != [] {
      EmitAllFlag(Emit(st, ks[0]), ks[1..]);
    }
  }

  /** The last line, when no newline ends it. */
  lemma LexFromLastLine(line: string, st: LexState)
    requires OneLine(line) && line != ""
    ensures LexFrom(line, st) ==
              if st.lineStart && SpaceLen(line) == |line| then Panicked
              else Resume(LineBody(line, st), "")
  {
    EnterLineFlag(line, st);
    if st.lineStart {
      LastLineFromStart(line, st);
    } else if EnterLine(line, st).Level? {
      ItemsAtEnd(line, EnterLine(line, st).st);
    }
  }

  lemma LastLineFromStart(line: string, st: LexState)
    requires OneLine(line) && line != "" && st.lineStart
    ensures LexFrom(line, st) ==
              if SpaceLen(line) == |line| then Panicked else Resume(LineBody(line, st), "")
  {
    var w := SpaceLen(line);
    LexLineSkips(line, w);
    EnterLineFlag(line, st);
    if EnterLine(line, st).Level? {
      var st' := EnterLine(line, st).st;
      ItemsAtEnd(line[w..], st');
      assert st'.(lineStart := false) == st';
    }
  }

  /** The text of `lines`, each ended by a newline. */
  function Unlines(lines: seq<string>): string {
    if lines == [] then "" else lines[0] + ['\n'] + Unlines(lines[1..])
  }

  lemma {:induction false} LexFromLines(lines: seq<string>, rest: string, st: LexState)
    requires forall i :: 0 <= i < |lines| ==> ClosesStrings(lines[i])
    ensures LexFrom(Unlines(lines) + rest, st) == Resume(LinesStep(lines, st), rest)
    decreases |lines|
  {
    if lines == [] {
      assert Unlines(lines) + rest == rest;
    } else {
      assert Unlines(lines) + rest == lines[0] + ['\n'] + (Unlines(lines[1..]) + rest);
      LexFromLine(lines[0], Unlines(lines[1..]) + rest, st);
      if LineStep(lines[0], st).Next? {
        LexFromLines(lines[1..], rest, LineStep(lines[0], st).st);
      }
    }
  }
}
