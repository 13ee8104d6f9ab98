/** Texts for which the formatter changes the meaning, or does not reach its fixed point at once. */
module Counterexamples {
  import opened Chars
  import opened Atoms
  import opened Layout
  import opened Lexemes
  import opened Lines
  import opened Formatter
  import opened FixedPoint
  import opened Respacing
  import opened Fusing
  import opened Meaning
  import opened Divergence
  import opened Guarantees

  // --- A removed blank ---

  lemma {:induction false} WordEnds(w: string, rest: string, u: Alphabet)
    requires forall i :: 0 <= i < |w| ==> IsWordChar(w[i], u)
    requires rest == "" || !IsWordChar(rest[0], u)
    ensures WordLen(w + rest, u) == |w|
  {
    if w == "" {
      assert w + rest == rest;
    } else {
      assert (w + rest)[1..] == w[1..] + rest;
      WordEnds(w[1..], rest, u);
    }
  }

  lemma ScanOfWord(w: string, rest: string, u: Alphabet)
    requires w != "" && (forall i :: 0 <= i < |w| ==> IsWordChar(w[i], u))
    requires rest == "" || !IsWordChar(rest[0], u)
    ensures Scan(w + rest, u) == [Word(w)] + Scan(rest, u)
  {
    var cs := w + rest;
    WordEnds(w, rest, u);
    assert cs[0] == w[0] && IsWordChar(cs[0], u) && cs[..|w|] == w && cs[|w|..] == rest;
    ScanSplits(cs, u);
  }

  lemma ScanOfOp(c: char, rest: string, u: Alphabet)
    requires c == '?' || c == '\t'
    ensures Scan([c] + rest, u) == (if c == '?' then [Op([c])] else []) + Scan(rest, u)
  {
    var cs := [c] + rest;
    assert cs[1..] == rest && cs[..1] == [c];
    if c == '?' {
      ScanSplits(cs, u);
    } else {
      ScanSkips(cs, u);
    }
  }

  /** A word of ASCII letters, digits and underscores that the lexer reads as a name. */
  predicate IsName(w: string) {
    w != "" && IsLetter(w[0]) && forall i :: 0 <= i < |w| ==> IsLetter(w[i]) || IsDigit(w[i])
  }

  lemma {:induction false} IdEnds(w: string, rest: string)
    requires (forall i :: 0 <= i < |w| ==> IsIdChar(w[i])) && (rest == "" || !IsIdChar(rest[0]))
    ensures IdLen(w + rest) == |w|
  {
    if w == "" {
      assert w + rest == rest;
    } else {
      assert (w + rest)[1..] == w[1..] + rest;
      IdEnds(w[1..], rest);
    }
  }

  lemma NameTokens(w: string, rest: string)
    requires w != "" && IsLetter(w[0]) && (forall i :: 0 <= i < |w| ==> IsIdChar(w[i]))
    requires rest == "" || !IsIdChar(rest[0])
    ensures LexLine(w + rest) == Append(Kinds([Name(w)]), LexLine(rest))
  {
    var cs := w + rest;
    IdEnds(w, rest);
    assert cs[0] == w[0] && cs[..|w|] == w && cs[|w|..] == rest;
  }

  lemma SkipTab(rest: string)
    ensures LexLine("\t" + rest) == LexLine(rest)
  {
    assert ("\t" + rest)[1..] == rest;
  }

  /** The text `x?<tab>y` in pieces that the lemmas above can take apart. */
  function Spread(x: string, y: string): string { x + (['?'] + (['\t'] + y)) }

  lemma OneName(w: string)
    requires w != "" && IsLetter(w[0]) && forall i :: 0 <= i < |w| ==> IsIdChar(w[i])
    ensures LexLine(w) == Kinds([Name(w)])
  {
    assert w + "" == w && LexLine("") == Kinds([]);
    NameTokens(w, "");
  }

  lemma SpreadTokens(x: string, y: string)
    requires IsName(x) && IsName(y)
    ensures LexLine(Spread(x, y)) == Kinds([Name(x + "?"), Name(y)])
    ensures LexLine(x + "?" + y) == Kinds([Name(x + "?" + y)])
  {
    var tail := ['\t'] + y;
    assert Spread(x, y) == (x + "?") + tail;
    NameTokens(x + "?", tail);
    SkipTab(y);
    OneName(y);
    OneName(x + "?" + y);
  }

  lemma SpreadRespaced(x: string, y: string, u: Alphabet)
    requires IsName(x) && IsName(y)
    ensures Respace(Spread(x, y), u) == x + "?" + y
  {
    var tail := ['\t'] + y;
    ScanOfWord(x, ['?'] + tail, u);
    ScanOfOp('?', tail, u);
    ScanOfOp('\t', y, u);
    assert y + "" == y && Scan("", u) == [];
    ScanOfWord(y, "", u);
    assert Scan(Spread(x, y), u) == [Word(x), Op("?"), Word(y)];
    JoinAroundQuestion(x, y);
  }

  lemma JoinAroundQuestion(x: string, y: string)
    ensures Join([Word(x), Op("?"), Word(y)]) == x + "?" + y
  {
    var atoms := [Word(x), Op("?"), Word(y)];
    assert Lead(atoms, 1) == "" && Lead(atoms, 2) == "";
    assert JoinFrom(atoms, 3) == "";
    assert JoinFrom(atoms, 2) == "" + y + "" == y;
    assert JoinFrom(atoms, 1) == "" + "?" + y == "?" + y;
    assert JoinFrom(atoms, 0) == "" + x + ("?" + y);
  }

  /** A name that ends in `?` swallows the name behind the removed blank. */
  lemma QuestionFuses(x: string, y: string, u: Alphabet)
    requires IsName(x) && IsName(y)
    ensures LexLine(Spread(x, y)) == Kinds([Name(x + "?"), Name(y)])
    ensures LexLine(Respace(Spread(x, y), u)) == Kinds([Name(x + "?" + y)])
  {
    SpreadTokens(x, y);
    SpreadRespaced(x, y, u);
  }

  // --- A declaration that respacing uncovers ---

  lemma TabbedWord(w: string, rest: string, u: Alphabet)
    requires w != "" && (forall i :: 0 <= i < |w| ==> IsWordChar(w[i], u))
    requires rest != "" && IsWordChar(rest[0], u)
    ensures w + " " <= Respace(w + (['\t'] + rest), u)
  {
    var cs := w + (['\t'] + rest);
    ScanOfWord(w, ['\t'] + rest, u);
    ScanOfOp('\t', rest, u);
    ScanSplits(rest, u);
    var a, tail := FirstAtom(rest, u), Scan(rest[|FirstAtom(rest, u).text|..], u);
    assert Scan(cs, u) == [Word(w)] + ([a] + tail);
    JoinWords(w, a, tail);
  }

  lemma JoinWords(w: string, a: Atom, tail: seq<Atom>)
    requires a.Word?
    ensures w + " " <= Join([Word(w)] + ([a] + tail))
  {
    var atoms := [Word(w)] + ([a] + tail);
    assert atoms[0] == Word(w) && atoms[1] == a;
    assert Lead(atoms, 0) == "" && Lead(atoms, 1) == " ";
    var more := JoinFrom(atoms, 2);
    assert JoinFrom(atoms, 1) == " " + a.text + more;
    assert JoinFrom(atoms, 0) == "" + w + JoinFrom(atoms, 1);
    assert "" + w + (" " + a.text + more) == (w + " ") + (a.text + more);
  }

  /** A tab behind `task` hides a declaration until respacing has replaced it. */
  lemma TabHidesDeclaration(rest: string, u: Alphabet)
    requires rest != "" && IsWordChar(rest[0], u)
    ensures !IsDeclaration("task\t" + rest) && IsDeclaration(Respace("task\t" + rest, u))
  {
    var cs := "task\t" + rest;
    assert cs[0] == 't' && cs[4] == '\t';
    assert cs == "task" + (['\t'] + rest);
    TabbedWord("task", rest, u);
    assert "task" + " " == "task ";
  }

  lemma PlainLine(c: string, u: Alphabet)
    requires IsPlain(c)
    ensures FormatLine(c, [0], u) == FLine(Respace(c, u), 0, false, false, IsDeclaration(c))
    ensures StackAfter(c, [0]) == [0]
  {
    assert TrimEnd(c) == c && BlankLen(c) == 0 && c[0..] == c && IndentWidth(c) == 0;
  }

  lemma TwoLines(a: FLine, b: FLine)
    requires !a.blank && !b.blank && !b.comment && !b.decl
    ensures Separated(BLANK, NormalizeBlanks([a, b])) == [a, b]
  {
    assert [a, b][1..] == [b] && [b][1..] == [];
    assert Squeeze(true, [a, b]) == [a] + Squeeze(false, [b]);
    assert Squeeze(false, [b]) == [b] + Squeeze(false, []);
    assert NormalizeBlanks([a, b]) == [a, b];
    assert Separated(a, [b]) == [b] + Separated(b, []);
    assert Separated(BLANK, [a, b]) == [a] + Separated(a, [b]);
  }

  /** A line that starts with code at the margin and has no trailing whitespace. */
  predicate IsPlain(x: string) {
    OneLine(x) && x != "" && !IsBlank(x[0]) && x[0] != '#' && !IsWhitespace(Last(x))
  }

  /** Behind any line of code, the second pass inserts the blank line that the first one missed. */
  lemma NotIdempotent(x: string, rest: string, u: Alphabet)
    requires IsPlain(x) && IsPlain(rest) && IsWordChar(rest[0], u)
    ensures var source := x + ['\n'] + ("task\t" + rest + ['\n']);
            Normalize(Normalize(source, u), u) != Normalize(source, u)
  {
    var c := "task\t" + rest;
    var source := x + ['\n'] + (c + ['\n']);
    TabHidesDeclaration(rest, u);
    assert c[0] == 't' && Last(c) == Last(rest);
    TwoLineOutput(x, c, u);
    SecondPassIdle(source, u);
    Unsettled(FormatLine(x, [0], u), FormatLine(c, [0], u));
  }

  lemma TwoLineOutput(x: string, c: string, u: Alphabet)
    requires IsPlain(x) && IsPlain(c) && !IsDeclaration(c)
    ensures OutputLines(x + ['\n'] + (c + ['\n']), u) == [FormatLine(x, [0], u), FormatLine(c, [0], u)]
    ensures FormatLine(x, [0], u) == FLine(Respace(x, u), 0, false, false, IsDeclaration(x))
    ensures FormatLine(c, [0], u) == FLine(Respace(c, u), 0, false, false, IsDeclaration(c))
  {
    var raws := [x, c];
    TextOfTwo(x, c);
    SplitUnlines(raws);
    PlainLine(x, u);
    PlainLine(c, u);
    FormatTwo(x, c, u);
    TwoLines(FormatLine(x, [0], u), FormatLine(c, [0], u));
  }

  lemma TextOfTwo(x: string, c: string)
    ensures Unlines([x, c]) == x + ['\n'] + (c + ['\n'])
  {
    assert [x, c][1..] == [c] && [c][1..] == [];
    assert Unlines([c]) == c + ['\n'] + Unlines([]) == c + ['\n'];
  }

  lemma FormatTwo(x: string, c: string, u: Alphabet)
    requires StackAfter(x, [0]) == [0]
    ensures FormatLines([x, c], [0], u) == [FormatLine(x, [0], u), FormatLine(c, [0], u)]
  {
    assert [x, c] == [x] + [c] && [c] == [c] + [];
    FormatLinesCons(x, [c], [0], u);
    FormatLinesCons(c, [], [0], u);
  }

  lemma Unsettled(a: FLine, b: FLine)
    requires !a.blank && !a.comment && !b.blank && !b.comment && b.depth == 0 && IsDeclaration(b.content)
    ensures !Settled(BLANK, RereadAll([a, b]))
  {
    var again := RereadAll([a, b]);
    assert again[0] == Reread(a) && again[1] == Reread(b);
    assert again[1..][0] == Reread(b);
    assert Inserts(again[0], again[1..]);
  }

  // --- A block that printing loses ---

  /** A line of code behind `w` spaces whose tokens open `opens` more delimiters than they close. */
  predicate IsLine(raw: string, w: nat, from: nat, to: nat, u: Alphabet) {
    && LineOk(raw, u) && IsCodeLine(raw) && SpaceLen(raw) == BlankLen(raw) == w
    && LexLine(raw).Kinds? && NestAll(from, LexLine(raw).kinds) == to
  }

  lemma LineAt(raw: string, w: nat, from: nat, to: nat, st: LexState, u: Alphabet)
    requires IsLine(raw, w, from, to, u) && st.nesting == from
    requires st.lineStart ==> !MoveOf(st.stack, w).Nowhere?
    ensures LineStep(raw, st).Next? && IndentWidth(TrimEnd(raw)) == w
    ensures var next := LineStep(raw, st).st;
            && next.nesting == to && next.lineStart == (to == 0)
            && next.stack == if st.lineStart then CodeStack(w, st.stack) else st.stack
  {
    IndentFacts(raw);
    RawEntry(raw, st);
    IndentMoves(st.(lineStart := false), w);
    EmitAllFlag(EnterLine(raw, st).st, LexLine(raw).kinds);
    EmitAllNests(EnterLine(raw, st).st, LexLine(raw).kinds);
    TidyStack(raw, st);
  }

  lemma StepFirst(l: string, ls: seq<string>, st: LexState, stack: seq<nat>, levels: seq<nat>)
    requires LineStep(l, st).Next?
    ensures LinesStep([l] + ls, st) == LinesStep(ls, LineStep(l, st).st)
    ensures SpacesOnly([l] + ls, st) <==> SpaceLed(l, st) && SpacesOnly(ls, LineStep(l, st).st)
    ensures LayoutMatches([l] + ls, st, stack, levels) <==>
            && LineMatches(l, st, stack, levels)
            && LayoutMatches(ls, LineStep(l, st).st, StackAfter(l, stack), LevelsAfter(l, st, stack, levels))
  {
    assert ([l] + ls)[1..] == ls;
  }

  /** The states and stacks behind a header and its continuation. */
  lemma BehindHeader(x: string, y: string, d: nat, u: Alphabet) returns (s1: LexState, s2: LexState)
    requires IsLine(x, 0, 0, 1, u) && IsLine(y, d, 1, 0, u) && d > 0
    ensures LineStep(x, START) == Next(s1) && LineStep(y, s1) == Next(s2)
    ensures s1.stack == [0] && !s1.lineStart && s2.stack == [0] && s2.lineStart && s2.nesting == 0
    ensures StackAfter(x, [0]) == [0] && StackAfter(y, [0]) == [0, d]
    ensures LevelsAfter(x, START, [0], [0]) == [0] && LineMatches(x, START, [0], [0])
  {
    LineAt(x, 0, 0, 1, START, u);
    s1 := LineStep(x, START).st;
    LineAt(y, d, 1, 0, s1, u);
    s2 := LineStep(y, s1).st;
  }

  /** The three lines step through; the last moves alike unless it is between the other two. */
  lemma HeaderAndBlock(x: string, y: string, z: string, d: nat, w: nat, u: Alphabet)
    requires IsLine(x, 0, 0, 1, u) && IsLine(y, d, 1, 0, u) && IsLine(z, w, 0, 0, u) && d > 0
    ensures LinesOk([x, y, z], u) && LinesStep([x, y, z], START).Next? && SpacesOnly([x, y, z], START)
    ensures LayoutMatches([x, y, z], START, [0], [0]) <==> !(0 < w < d)
  {
    var s1, s2 := BehindHeader(x, y, d, u);
    LineAt(z, w, 0, 0, s2, u);
    Between(d, w);
    assert [x, y, z] == [x] + [y, z] && [y, z] == [y] + [z] && [z] == [z] + [];
    StepFirst(x, [y, z], START, [0], [0]);
    StepFirst(y, [z], s1, [0], [0]);
    StepFirst(z, [], s2, [0, d], [0]);
  }

  lemma Between(d: nat, w: nat)
    requires d > 0
    ensures !MoveOf([0], w).Nowhere?
    ensures MoveOf([0], 4 * DepthOf(CodeStack(w, [0, d]))) == MoveOf([0], w) <==> !(0 < w < d)
  {
    var s := [0, d];
    assert Top(s) == d && Init(s) == [0] && Top([0]) == 0;
    if w < d {
      assert PopTo(s, w) == PopTo([0], w) == [0];
    }
  }

  /**
   * A header that continues on a line `d` wide, and a line behind it that is `w` wide:
   * formatting keeps the tokens exactly unless the line is between the two; then it
   * opens a block that printing puts at the margin.
   */
  lemma BlockLostInText(x: string, y: string, z: string, d: nat, w: nat, u: Alphabet)
    requires IsLine(x, 0, 0, 1, u) && IsLine(y, d, 1, 0, u) && IsLine(z, w, 0, 0, u) && d > 0
    ensures Tokenize(Unlines([x, y, z])).Done?
    ensures Kept(Unlines([x, y, z]), u) <==> !(0 < w < d)
  {
    var raws := [x, y, z];
    HeaderAndBlock(x, y, z, d, w, u);
    LinesText(raws, u);
    KeptExactly(Unlines(raws), u);
  }

  /** A text given by its lines. */
  lemma LinesText(raws: seq<string>, u: Alphabet)
    requires LinesOk(raws, u) && LinesStep(raws, START).Next?
    ensures NoCR(Unlines(raws)) && SplitLines(Unlines(raws)) == raws && Tokenize(Unlines(raws)).Done?
  {
    UnlinesNoCR(raws);
    ToLFIdle(Unlines(raws));
    SplitUnlines(raws);
    assert Unlines(raws) + "" == Unlines(raws);
    LexFromLines(raws, "", START);
  }

  /** Such texts: a header `f(`, a continuation `a)` and a line `b`, for all names. */
  lemma BlockLostAt(f: string, a: string, b: string, d: nat, w: nat, u: Alphabet)
    requires IsName(f) && IsName(a) && IsName(b) && d > 0
    ensures var source := Unlines([f + "(", Spaces(d) + (a + ")"), Spaces(w) + b]);
            Tokenize(source).Done? && (Kept(source, u) <==> !(0 < w < d))
  {
    HeaderLine(f, u);
    ContinuationLine(a, d, u);
    BlockLine(b, w, u);
    BlockLostInText(f + "(", Spaces(d) + (a + ")"), Spaces(w) + b, d, w, u);
  }

  /** Text without blanks, dots and question marks, behind `w` spaces. */
  lemma IndentedLine(t: string, w: nat, ks: seq<Kind>, from: nat, u: Alphabet)
    requires t != "" && LexLine(t) == Kinds(ks) && TightText(t)
    requires t[0] != '#' && !IsWhitespace(Last(t))
    ensures IsLine(Spaces(w) + t, w, from, NestAll(from, ks), u)
  {
    IndentedShape(t, w);
    TextTokens(w, t);
    PiecesWellScanned(t, false, u);
    TightPieces(t, false, u);
    TightDotsNoFusing(Pieces(t, false, u), u);
  }

  lemma IndentedShape(t: string, w: nat)
    requires t != "" && TightText(t) && t[0] != '#' && !IsWhitespace(Last(t))
    ensures var raw := Spaces(w) + t;
            && OneLine(raw) && NoCR(raw) && TrimEnd(raw) == raw && Stripped(raw) == t && IsCodeLine(raw)
            && SpaceLen(raw) == BlankLen(raw) == w
  {
    var raw := Spaces(w) + t;
    assert Last(raw) == Last(t) && TrimEnd(raw) == raw;
    SpaceOfText(w, t);
    IndentOfText(w, t);
    assert Stripped(raw) == t;
  }

  /** No blank and no line end anywhere. */
  predicate TightText(t: string) {
    forall i :: 0 <= i < |t| ==> !IsBlank(t[i]) && t[i] != '\n' && t[i] != '\r'
  }

  lemma {:induction false} TightPieces(t: string, gap: bool, u: Alphabet)
    requires TightText(t)
    ensures TightDots(Pieces(t, gap, u)) && (!gap && Pieces(t, gap, u) != [] ==> !Pieces(t, gap, u)[0].gap)
    decreases |t|
  {
    if t != "" {
      var n := |FirstAtom(t, u).text|;
      TightPieces(t[n..], false, u);
      FirstPiece(t, gap, u);
    }
  }

  lemma NameThenSym(n: string, c: char)
    requires IsName(n) && (c == '(' || c == ')')
    ensures LexLine(n + [c]) == Kinds([Name(n), Sym([c])])
  {
    NameTokens(n, [c]);
    assert [c][1..] == "" && [c][..1] == [c];
    assert LexLine([c]) == Append(Kinds([Sym([c])]), LexLine(""));
  }

  lemma NestTwo(from: nat, n: string, c: char)
    requires c == '(' || c == ')'
    ensures NestAll(from, [Name(n), Sym([c])]) == if c == '(' then from + 1 else if from > 0 then from - 1 else 0
  {
    var ks := [Name(n), Sym([c])];
    assert ks[1..] == [Sym([c])] && [Sym([c])][1..] == [];
    assert Nest(from, Name(n)) == from;
    assert NestAll(from, [Sym([c])]) == NestAll(Nest(from, Sym([c])), []);
  }

  lemma NameLine(n: string, c: char, w: nat, from: nat, u: Alphabet)
    requires IsName(n) && (c == '(' || c == ')')
    ensures IsLine(Spaces(w) + (n + [c]), w, from, if c == '(' then from + 1 else if from > 0 then from - 1 else 0, u)
  {
    var t, ks := n + [c], [Name(n), Sym([c])];
    NameThenSym(n, c);
    NestTwo(from, n, c);
    assert Last(t) == c && t[0] == n[0];
    assert TightText(t) by {
      assert forall i :: 0 <= i < |n| ==> t[i] == n[i];
    }
    IndentedLine(t, w, ks, from, u);
  }

  lemma HeaderLine(f: string, u: Alphabet)
    requires IsName(f)
    ensures IsLine(f + "(", 0, 0, 1, u)
  {
    NameLine(f, '(', 0, 0, u);
    assert Spaces(0) + (f + ['(']) == f + "(";
  }

  lemma ContinuationLine(a: string, d: nat, u: Alphabet)
    requires IsName(a)
    ensures IsLine(Spaces(d) + (a + ")"), d, 1, 0, u)
  {
    NameLine(a, ')', d, 1, u);
  }

  lemma BlockLine(b: string, w: nat, u: Alphabet)
    requires IsName(b)
    ensures IsLine(Spaces(w) + b, w, 0, 0, u)
  {
    OneName(b);
    IndentedLine(b, w, [Name(b)], 0, u);
    assert [Name(b)][1..] == [] && Nest(0, Name(b)) == 0;
    assert NestAll(0, [Name(b)]) == NestAll(0, []);
  }
}
