/**
 * Programs written down and read back: the layout the lexer finds in indented lines
 * (src/lexer.rs, `handle_indentation`, `handle_newline`, `should_suppress_newline`).
 */
module Written {
  import opened Chars
  import opened Lexemes
  import opened Layout
  import opened Lines
  import opened Literals
  import Config
  import Formatter
  import Meaning

  // --- Tokens ---

  /** `t` is digits, a dot and digits. */
  predicate IsFloatText(t: string) {
    exists i :: 0 < i < |t| - 1 && t[i] == '.' && AllDigits(t[..i]) && AllDigits(t[i + 1..])
  }

  predicate Writable(k: Kind) {
    match k
    case Integer(n) => n <= MAX_I64
    case Float(t) => IsFloatText(t)
    case Text(_) => true
    case Name(w) => IsName(w)
    case Sym(t) => IsSymbol(t)
    case _ => false
  }

  function Spelled(k: Kind): string
    requires Writable(k)
  {
    match k
    case Integer(n) => Config.Decimal(n)
    case Float(t) => t
    case Text(s) => "\"" + Escaped(s, false) + "\""
    case Name(w) => w
    case Sym(t) => t
  }

  /** No character of a line end. */
  predicate Unbroken(s: string) {
    forall i :: 0 <= i < |s| ==> s[i] != '\n' && s[i] != '\r'
  }

  lemma {:induction false} EscapedUnbroken(s: string)
    ensures Unbroken(Escaped(s, false))
  {
    if s != "" {
      EscapedUnbroken(s[1..]);
    }
  }

  lemma SpelledUnbroken(k: Kind)
    requires Writable(k)
    ensures Unbroken(Spelled(k)) && Spelled(k) != "" && Spelled(k)[0] !in {' ', '\t', '#'}
  {
    match k
    case Text(s) => EscapedUnbroken(s);
    case Float(t) => FloatUnbroken(t);
    case Sym(t) => SymbolUnbroken(t);
    case Name(w) => assert w[0] != ' ';
    case _ =>
  }

  lemma FloatUnbroken(t: string)
    requires IsFloatText(t)
    ensures Unbroken(t) && t != "" && t[0] !in {' ', '\t', '#'}
  {
    var i :| 0 < i < |t| - 1 && t[i] == '.' && AllDigits(t[..i]) && AllDigits(t[i + 1..]);
    assert forall j :: 0 <= j < i ==> t[j] == t[..i][j];
    assert forall j :: i < j < |t| ==> t[j] == t[i + 1..][j - i - 1];
  }

  lemma SymbolUnbroken(t: string)
    requires IsSymbol(t)
    ensures Unbroken(t) && t != "" && t[0] !in {' ', '\t', '#'}
  {
  }

  /** A written token is read back in front of a blank and at the end of a line. */
  lemma SpelledReadsBack(k: Kind, rest: string)
    requires Writable(k) && (rest == "" || rest[0] == ' ')
    ensures ReadItem(Spelled(k) + rest) == Tok(k, |Spelled(k)|)
  {
    match k
    case Integer(n) =>
      IntegerReadsBack(0, n, rest);
      assert Zeros(0) + Config.Decimal(n) == Config.Decimal(n);
    case Float(t) => FloatTextReadsBack(t, rest);
    case Text(s) => TextReadsBack(s, false, rest);
    case Name(w) => NameReadsBack(w, rest);
    case Sym(t) => SymbolBeforeBlank(t, rest);
  }

  lemma FloatTextReadsBack(t: string, rest: string)
    requires IsFloatText(t) && (rest == "" || rest[0] == ' ')
    ensures ReadItem(t + rest) == Tok(Float(t), |t|)
  {
    var i :| 0 < i < |t| - 1 && t[i] == '.' && AllDigits(t[..i]) && AllDigits(t[i + 1..]);
    assert t == t[..i] + "." + t[i + 1..];
    FloatReadsBack(t[..i], t[i + 1..], rest);
  }

  lemma SymbolBeforeBlank(t: string, rest: string)
    requires IsSymbol(t) && (rest == "" || rest[0] == ' ')
    ensures ReadItem(t + rest) == Tok(Sym(t), |t|)
  {
    forall n | |t| < n <= |t + rest| ensures !IsSymbol((t + rest)[..n]) {
      assert (t + rest)[..n][|t|] == ' ';
    }
    SymbolReadsBack(t, rest);
  }

  // --- Lines ---

  predicate AllWritable(ks: seq<Kind>) {
    forall i :: 0 <= i < |ks| ==> Writable(ks[i])
  }

  /** Tokens with one blank between them. */
  function Line(ks: seq<Kind>): string
    requires AllWritable(ks)
  {
    if ks == [] then ""
    else if |ks| == 1 then Spelled(ks[0])
    else Spelled(ks[0]) + (" " + Line(ks[1..]))
  }

  lemma {:induction false} LineUnbroken(ks: seq<Kind>)
    requires AllWritable(ks)
    ensures Unbroken(Line(ks)) && (ks != [] ==> Line(ks) != "" && Line(ks)[0] !in {' ', '\t', '#'})
  {
    if ks != [] {
      SpelledUnbroken(ks[0]);
      LineUnbroken(ks[1..]);
    }
  }

  lemma FirstReadsBack(k: Kind, rest: string)
    requires Writable(k) && (rest == "" || rest[0] == ' ')
    ensures LexLine(Spelled(k) + rest) == Append(Kinds([k]), LexLine(rest))
  {
    var first := Spelled(k);
    SpelledUnbroken(k);
    SpelledReadsBack(k, rest);
    assert (first + rest)[|first|..] == rest && (first + rest)[0] == first[0];
  }

  lemma BlankSkipped(t: string)
    ensures LexLine(" " + t) == LexLine(t)
  {
    assert (" " + t)[1..] == t;
  }

  /** Any tokens, written on one line, are read back. */
  lemma {:induction false} LineReadsBack(ks: seq<Kind>)
    requires AllWritable(ks)
    ensures LexLine(Line(ks)) == Kinds(ks)
    decreases |ks|
  {
    if ks != [] {
      var first, rest := Spelled(ks[0]), if |ks| == 1 then "" else " " + Line(ks[1..]);
      assert Line(ks) == first + rest;
      LineReadsBack(ks[1..]);
      FirstReadsBack(ks[0], rest);
      if |ks| > 1 {
        BlankSkipped(Line(ks[1..]));
      }
      assert [ks[0]] + ks[1..] == ks;
    }
  }

  // --- Indented lines ---

  /** A line of a program: its tokens, `depth` levels deep. */
  datatype Row = Row(depth: nat, kinds: seq<Kind>)

  /** Every delimiter that is opened is closed again. */
  predicate Balanced(ks: seq<Kind>, open: nat)
    decreases |ks|
  {
    if ks == [] then open == 0
    else if ks[0].Sym? && ks[0].text in {"(", "[", "{"} then Balanced(ks[1..], open + 1)
    else if ks[0].Sym? && ks[0].text in {")", "]", "}"} then open > 0 && Balanced(ks[1..], open - 1)
    else Balanced(ks[1..], open)
  }

  predicate GoodRow(r: Row) {
    r.kinds != [] && AllWritable(r.kinds) && Balanced(r.kinds, 0)
  }

  /** Rows behind one of depth `d`: no row goes more than one level deeper than the one before it. */
  predicate GoodRows(rows: seq<Row>, d: nat)
    decreases |rows|
  {
    rows == [] || (GoodRow(rows[0]) && rows[0].depth <= d + 1 && GoodRows(rows[1..], rows[0].depth))
  }

  function RowText(r: Row): string
    requires GoodRow(r)
  {
    Formatter.Spaces(4 * r.depth) + Line(r.kinds)
  }

  function RowTexts(rows: seq<Row>, d: nat): (ts: seq<string>)
    requires GoodRows(rows, d)
    ensures |ts| == |rows|
    decreases |rows|
  {
    if rows == [] then [] else [RowText(rows[0])] + RowTexts(rows[1..], rows[0].depth)
  }

  predicate StartsPipe(r: Row) {
    r.kinds != [] && r.kinds[0] == Sym(">>")
  }

  /** A statement that ends in one of these goes on in the next line. */
  predicate AsksForMore(r: Row) {
    r.kinds != [] && Last(r.kinds).Sym? && Last(r.kinds).text in {">>", "*>>", "->", "=>", ","}
  }

  /** The block tokens between a line of depth `d` and one of depth `e`. */
  function Blocks(d: nat, e: nat): seq<Kind> {
    if e > d then [Indent] else seq(d - e, _ => Dedent)
  }

  /**
   * The tokens of the rows: blocks open and close with the depth, and a row ends in a newline
   * unless it asks for more or the next one starts with a pipe.
   */
  function Stream(rows: seq<Row>, d: nat): seq<Kind>
    decreases |rows|
  {
    if rows == [] then Blocks(d, 0) + [Eof]
    else
      Blocks(d, rows[0].depth) + rows[0].kinds
      + (if AsksForMore(rows[0]) || (|rows| > 1 && StartsPipe(rows[1])) then [] else [Newline])
      + Stream(rows[1..], rows[0].depth)
  }

  // --- What the lexer makes of them ---

  function Levels(d: nat): (s: seq<nat>)
    ensures |s| == d + 1 && forall i :: 0 <= i <= d ==> s[i] == 4 * i
  {
    seq(d + 1, i requires 0 <= i <= d => 4 * i)
  }

  lemma {:induction false} PopToLevels(d: nat, e: nat)
    requires e <= d
    ensures PopTo(Levels(d), 4 * e) == Levels(e)
    decreases d
  {
    if e < d {
      assert Init(Levels(d)) == Levels(d - 1);
      PopToLevels(d - 1, e);
    }
  }

  lemma {:induction false} DedentsAll(n: nat)
    ensures Dedents(n) == seq(n, _ => Dedent)
  {
    if n > 0 {
      DedentsAll(n - 1);
    }
  }

  lemma SpacesCounted(n: nat, rest: string)
    requires rest != "" && rest[0] != ' '
    ensures SpaceLen(Formatter.Spaces(n) + rest) == n && (Formatter.Spaces(n) + rest)[n..] == rest
  {
  }

  /** The first token of a row decides about the newline before it; none of the others matters. */
  lemma {:induction false} EmitRow(st: LexState, ks: seq<Kind>, open: nat)
    requires ks != [] && AllWritable(ks) && Balanced(ks, open) && st.nesting == open
    ensures var r := EmitAll(st, ks);
            && r.tokens == (if ks[0] == Sym(">>") then DropNewline(st.tokens) else st.tokens) + ks
            && r.nesting == 0 && r.stack == st.stack && r.lineStart == st.lineStart
    decreases |ks|
  {
    var next := Emit(st, ks[0]);
    EmitOne(st, ks[0]);
    assert ks == [ks[0]] + ks[1..] && EmitAll(st, ks) == EmitAll(next, ks[1..]);
    if |ks| == 1 {
      assert ks[1..] == [];
    } else {
      EmitRow(next, ks[1..], Opened(ks[0], open));
      InFrontOf(if ks[0] == Sym(">>") then DropNewline(st.tokens) else st.tokens, ks[0], ks[1..]);
    }
  }

  lemma InFrontOf(ts: seq<Kind>, k: Kind, rest: seq<Kind>)
    ensures ts + [k] + rest == ts + ([k] + rest)
  {
  }

  /** The number of open delimiters behind a token. */
  function Opened(k: Kind, open: nat): nat {
    if k.Sym? && k.text in {"(", "[", "{"} then open + 1
    else if k.Sym? && k.text in {")", "]", "}"} && open > 0 then open - 1
    else open
  }

  lemma EmitOne(st: LexState, k: Kind)
    requires Writable(k)
    ensures var r := Emit(st, k);
            && r.tokens == (if k == Sym(">>") then DropNewline(st.tokens) else st.tokens) + [k]
            && r.nesting == Opened(k, st.nesting) && r.stack == st.stack && r.lineStart == st.lineStart
            && DropNewline(r.tokens) == r.tokens
  {
  }

  lemma {:induction false} DropBehindBlocks(ts: seq<Kind>, bs: seq<Kind>)
    requires forall i :: 0 <= i < |bs| ==> IsLayout(bs[i])
    ensures DropNewline(ts + bs) == DropNewline(ts) + bs
    decreases |bs|
  {
    if bs == [] {
      assert ts + bs == ts && DropNewline(ts) + bs == DropNewline(ts);
    } else {
      assert Init(ts + bs) == ts + Init(bs) && Last(ts + bs) == Last(bs);
      DropBehindBlocks(ts, Init(bs));
      assert DropNewline(ts) + Init(bs) + [Last(bs)] == DropNewline(ts) + bs;
    }
  }

  lemma BlocksAreLayout(d: nat, e: nat)
    ensures forall i :: 0 <= i < |Blocks(d, e)| ==> IsLayout(Blocks(d, e)[i])
  {
  }

  /** The head of a row moves the stack to its depth and leaves the block tokens. */
  lemma EnterRow(r: Row, d: nat, st: LexState)
    requires GoodRow(r) && r.depth <= d + 1 && st.lineStart && st.stack == Levels(d)
    ensures EnterLine(RowText(r), st)
         == Level(st.(lineStart := false, stack := Levels(r.depth), tokens := st.tokens + Blocks(d, r.depth)))
  {
    var e, line := r.depth, Line(r.kinds);
    LineUnbroken(r.kinds);
    SpacesCounted(4 * e, line);
    assert Top(Levels(d)) == 4 * d;
    if e > d {
      assert Levels(d) + [4 * e] == Levels(e);
    } else if e < d {
      PopToLevels(d, e);
      DedentsAll(d - e);
    } else {
      assert st.tokens + Blocks(d, e) == st.tokens;
    }
  }

  /** The tokens in front of a row: a pipe takes back the newline there. */
  function Front(ts: seq<Kind>, rows: seq<Row>): seq<Kind> {
    if rows != [] && StartsPipe(rows[0]) then DropNewline(ts) else ts
  }

  lemma RowStep(r: Row, d: nat, st: LexState)
    requires GoodRow(r) && r.depth <= d + 1 && st.lineStart && st.stack == Levels(d) && st.nesting == 0
    ensures LineStep(RowText(r), st)
         == Next(LexState(Front(st.tokens, [r]) + Blocks(d, r.depth) + r.kinds
                          + if AsksForMore(r) then [] else [Newline],
                          Levels(r.depth), 0, true))
  {
    var line, bs := Line(r.kinds), Blocks(d, r.depth);
    EnterRow(r, d, st);
    LineUnbroken(r.kinds);
    SpacesCounted(4 * r.depth, line);
    LexLineSkips(RowText(r), 4 * r.depth);
    LineReadsBack(r.kinds);
    EmitRow(EnterLine(RowText(r), st).st, r.kinds, 0);
    BlocksAreLayout(d, r.depth);
    DropBehindBlocks(st.tokens, bs);
    NewlineBehind(EmitAll(EnterLine(RowText(r), st).st, r.kinds), Front(st.tokens, [r]) + bs, r);
  }

  lemma NewlineBehind(st: LexState, pre: seq<Kind>, r: Row)
    requires GoodRow(r) && st.nesting == 0 && st.tokens == pre + r.kinds
    ensures NewlineStep(st)
         == st.(tokens := st.tokens + if AsksForMore(r) then [] else [Newline], lineStart := true)
  {
    assert Writable(Last(r.kinds)) && Last(st.tokens) == Last(r.kinds);
    if AsksForMore(r) {
      assert st.tokens + [] == st.tokens;
    }
  }

  /** The next row, if it starts with a pipe, takes back the newline of this one. */
  lemma FrontBehind(pre: seq<Kind>, r: Row, rest: seq<Row>)
    requires GoodRow(r)
    ensures Front(pre + r.kinds + (if AsksForMore(r) then [] else [Newline]), rest)
         == pre + r.kinds + if AsksForMore(r) || (rest != [] && StartsPipe(rest[0])) then [] else [Newline]
  {
    var ts := pre + r.kinds;
    assert Writable(Last(r.kinds)) && Last(ts) == Last(r.kinds);
    assert Init(ts + [Newline]) == ts && ts + [] == ts;
  }

  lemma {:induction false} RowsStep(rows: seq<Row>, d: nat, st: LexState)
    requires GoodRows(rows, d) && st.lineStart && st.stack == Levels(d) && st.nesting == 0
    ensures var r := LinesStep(RowTexts(rows, d), st);
            r.Next? && Finish(r.st) == Front(st.tokens, rows) + Stream(rows, d)
    decreases |rows|
  {
    if rows == [] {
      DedentsAll(d);
      assert st.tokens + Dedents(d) + [Eof] == st.tokens + (Dedents(d) + [Eof]);
    } else {
      var row, rest := rows[0], rows[1..];
      RowStep(row, d, st);
      var st' := LineStep(RowText(row), st).st;
      RowsStep(rest, row.depth, st');
      var pre := Front(st.tokens, rows) + Blocks(d, row.depth);
      FrontBehind(pre, row, rest);
      assert RowTexts(rows, d)[1..] == RowTexts(rest, row.depth);
      Grouped(Front(st.tokens, rows), Blocks(d, row.depth), row.kinds,
              if AsksForMore(row) || (rest != [] && StartsPipe(rest[0])) then [] else [Newline],
              Stream(rest, row.depth));
    }
  }

  lemma Grouped(a: seq<Kind>, b: seq<Kind>, c: seq<Kind>, d: seq<Kind>, e: seq<Kind>)
    ensures a + b + c + d + e == a + (b + c + d + e)
  {
  }

  // --- Inside delimiters ---

  /** The number of open delimiters behind some tokens. */
  function OpenAfter(ks: seq<Kind>, open: nat): nat
    decreases |ks|
  {
    if ks == [] then open else OpenAfter(ks[1..], Opened(ks[0], open))
  }

  lemma {:induction false} EmitNests(st: LexState, ks: seq<Kind>)
    requires AllWritable(ks)
    ensures EmitAll(st, ks).nesting == OpenAfter(ks, st.nesting)
    decreases |ks|
  {
    if ks != [] {
      EmitOne(st, ks[0]);
      EmitNests(Emit(st, ks[0]), ks[1..]);
    }
  }

  lemma {:induction false} EmitBoth(st: LexState, a: seq<Kind>, b: seq<Kind>)
    ensures EmitAll(st, a + b) == EmitAll(EmitAll(st, a), b)
    decreases |a|
  {
    if a == [] {
      assert a + b == b;
    } else {
      assert (a + b)[0] == a[0] && (a + b)[1..] == a[1..] + b;
      EmitBoth(Emit(st, a[0]), a[1..], b);
    }
  }

  /**
   * Where a delimiter is open, a line may be broken: the newline is no token, and however the
   * next line is indented, the two read as one.
   */
  lemma {:induction false} BrokenInside(a: seq<Kind>, b: seq<Kind>, n: nat, st: LexState)
    requires AllWritable(a) && AllWritable(b) && !st.lineStart && OpenAfter(a, st.nesting) > 0
    ensures LinesStep([Line(a), Formatter.Spaces(n) + Line(b)], st) == LineStep(Line(a + b), st)
  {
    var second, mid := Formatter.Spaces(n) + Line(b), EmitAll(st, a);
    EmitNests(st, a);
    EmitAllFlag(st, a);
    EmitBoth(st, a, b);
    assert AllWritable(a + b);
    LineInside("", a, st);
    LineInside(Formatter.Spaces(n), b, mid);
    LineInside("", a + b, st);
    assert "" + Line(a) == Line(a) && "" + Line(a + b) == Line(a + b);
    TwoLines(Line(a), second, st);
  }

  lemma TwoLines(a: string, b: string, st: LexState)
    ensures LinesStep([a, b], st) == if LineStep(a, st).Stop? then LineStep(a, st) else LineStep(b, LineStep(a, st).st)
  {
    assert [a, b][1..] == [b] && [b][1..] == [];
    var first := LineStep(a, st);
    if first.Next? {
      assert LinesStep([], first.st) == Next(first.st);
      assert LinesStep([b], first.st) == LineStep(b, first.st);
    }
  }

  /** A line that goes on inside delimiters, or on the line of something else. */
  lemma LineInside(lead: string, ks: seq<Kind>, st: LexState)
    requires AllWritable(ks) && !st.lineStart && forall i :: 0 <= i < |lead| ==> lead[i] == ' '
    ensures LineStep(lead + Line(ks), st) == Next(NewlineStep(EmitAll(st, ks)))
  {
    LexLineSkips(lead + Line(ks), |lead|);
    assert (lead + Line(ks))[|lead|..] == Line(ks);
    LineReadsBack(ks);
    assert st.(lineStart := false) == st;
  }

  // --- Whole texts ---

  lemma {:induction false} RowTextsClosed(rows: seq<Row>, d: nat)
    requires GoodRows(rows, d)
    ensures forall i :: 0 <= i < |rows| ==> ClosesStrings(RowTexts(rows, d)[i]) && Unbroken(RowTexts(rows, d)[i])
    decreases |rows|
  {
    if rows != [] {
      var r := rows[0];
      LineUnbroken(r.kinds);
      SpacesCounted(4 * r.depth, Line(r.kinds));
      LexLineSkips(RowText(r), 4 * r.depth);
      LineReadsBack(r.kinds);
      RowTextsClosed(rows[1..], r.depth);
    }
  }

  lemma {:induction false} UnlinesNoCR(lines: seq<string>)
    requires forall i :: 0 <= i < |lines| ==> Unbroken(lines[i])
    ensures Meaning.NoCR(Unlines(lines))
  {
    if lines != [] {
      UnlinesNoCR(lines[1..]);
    }
  }

  /**
   * Any program of balanced rows, written down with four blanks for each level, is read back:
   * token by token, with blocks where the depth changes and newlines where statements end.
   */
  lemma ProgramReadsBack(rows: seq<Row>)
    requires GoodRows(rows, 0)
    ensures Tokenize(Unlines(RowTexts(rows, 0))) == Done(Stream(rows, 0))
  {
    var lines := RowTexts(rows, 0);
    RowTextsClosed(rows, 0);
    UnlinesNoCR(lines);
    Meaning.ToLFIdle(Unlines(lines));
    assert Levels(0) == [0];
    RowsStep(rows, 0, START);
    assert Unlines(lines) == Unlines(lines) + "";
    LexFromLines(lines, "", START);
    assert Front([], rows) + Stream(rows, 0) == Stream(rows, 0);
  }
}
