/** The tokenizer object, whose methods update its fields in place (src/lexer.rs). */
module LexerObject {
  import opened Chars
  import opened Lexemes
  import opened Layout

  /** A string literal of which `v` has been read from `n` characters, with `q` still to come. */
  function Behind(v: string, n: nat, q: Quoted): Quoted {
    if q.Open? then Open else Closed(v + q.value, n + q.len)
  }

  lemma BehindStep(v: string, n: nat, w: string, m: nat, q: Quoted)
    ensures Behind(v, n, Behind(w, m, q)) == Behind(v + w, n + m, q)
  {
    if q.Closed? {
      assert v + (w + q.value) == v + w + q.value;
    }
  }

  /** Of the literal `cs`, all but `rest` has been read, and stands for `v`. */
  ghost predicate ReadUpTo(cs: string, v: string, n: nat, rest: string) {
    ReadString(cs) == Behind(v, n, ReadString(rest))
  }

  lemma StringStep(cs: string, v: string, n: nat, rest: string)
    requires ReadUpTo(cs, v, n, rest) && rest != "" && rest[0] != '"' && rest[0] != '\n'
    ensures rest[0] != '\\' ==> ReadUpTo(cs, v + [rest[0]], n + 1, rest[1..])
    ensures rest[0] == '\\' && |rest| > 1 ==> ReadUpTo(cs, v + Unescape(rest[1]), n + 2, rest[2..])
    ensures rest == "\\" ==> ReadString(cs).Open?
  {
    if rest[0] != '\\' {
      BehindStep(v, n, [rest[0]], 1, ReadString(rest[1..]));
    } else if |rest| > 1 {
      BehindStep(v, n, Unescape(rest[1]), 2, ReadString(rest[2..]));
    }
  }

  lemma StringStarts(cs: string)
    ensures ReadUpTo(cs, "", 0, cs)
  {
    if ReadString(cs).Closed? {
      assert "" + ReadString(cs).value == ReadString(cs).value;
    }
  }

  lemma StringEnds(cs: string, v: string, n: nat, rest: string)
    requires ReadUpTo(cs, v, n, rest) && rest != "" && rest[0] == '"'
    ensures ReadString(cs) == Closed(v, n + 1)
  {
    assert v + "" == v;
  }

  /** A number of which `n` characters have been read, with `s` still to come. */
  function Further(n: nat, s: Span): Span {
    if s.Span? then Span(n + s.len, s.dotted) else s
  }

  predicate NumberUpTo(cs: string, n: nat, rest: string, dotted: bool) {
    NumSpan(cs, false) == Further(n, NumSpan(rest, dotted))
  }

  lemma NumberStep(cs: string, n: nat, rest: string, dotted: bool)
    requires NumberUpTo(cs, n, rest, dotted) && rest != ""
    ensures IsDigit(rest[0]) ==> NumberUpTo(cs, n + 1, rest[1..], dotted)
    ensures rest[0] == '.' && |rest| > 1 && IsDigit(rest[1]) ==>
              if dotted then ReadNumber(cs) == Bad(InvalidNumber) else NumberUpTo(cs, n + 1, rest[1..], true)
  {
  }

  /** A number ends in front of anything but a digit or a dot with a digit behind it. */
  lemma NumberEnds(cs: string, n: nat, rest: string, dotted: bool)
    requires NumberUpTo(cs, n, rest, dotted) && n <= |cs|
    requires rest != "" ==> !IsDigit(rest[0]) && !(rest[0] == '.' && |rest| > 1 && IsDigit(rest[1]))
    ensures ReadNumber(cs) == if dotted then Tok(Float(cs[..n]), n)
                              else if DecValue(cs[..n]) <= MAX_I64 then Tok(Integer(DecValue(cs[..n])), n)
                              else Bad(InvalidNumber)
  {
  }

  datatype Outcome = None | Some(result: LexResult)

  class Lexer {
    const source: string
    var pos: nat
    var tokens: seq<Kind>
    var indentStack: seq<nat>
    var nesting: nat
    var atLineStart: bool

    ghost predicate Valid()
      reads this
    {
      pos <= |source|
    }

    ghost function State(): LexState
      reads this
    {
      LexState(tokens, indentStack, nesting, atLineStart)
    }

    ghost function Rest(): string
      requires Valid()
      reads this
    {
      source[pos..]
    }

    constructor (text: string)
      ensures Valid() && source == ToLF(text) && pos == 0 && State() == START
    {
      source, pos := ToLF(text), 0;
      tokens, indentStack, nesting, atLineStart := [], [0], 0, true;
    }

    /** Runs the lexer to the end of the source. */
    method Run() returns (r: LexResult)
      requires Valid() && pos == 0 && State() == START
      modifies this
      ensures r == LexFrom(source, START)
    {
      assert source[0..] == source;
      while pos < |source|
        invariant Valid()
        invariant LexFrom(Rest(), State()) == LexFrom(source, START)
        decreases |source| - pos
      {
        var stop := Round();
        if stop.Some? {
          return stop.result;
        }
      }
      assert Rest() == "";
      r := CloseBlocks();
    }

    /** One round of the loop: indentation when a line starts, then a newline or an item. */
    method Round() returns (stop: Outcome)
      requires pos < |source|
      modifies this
      ensures Valid()
      ensures stop.None? ==> pos > old(pos) && LexFrom(Rest(), State()) == LexFrom(old(Rest()), old(State()))
      ensures stop.Some? ==> LexFrom(old(Rest()), old(State())) == stop.result
    {
      if atLineStart {
        ghost var cs := Rest();
        var ok := HandleIndentation();
        assert source[pos..] == cs[SpaceLen(cs)..];
        if !ok {
          return Some(Failed(InvalidIndentation));
        }
        if pos == |source| {
          return Some(Panicked);
        }
      }
      ghost var rest, st := Rest(), State();
      assert LexFrom(rest, st) == LexFrom(old(Rest()), old(State())) && !st.lineStart;
      if source[pos] == '\n' {
        HandleNewline();
        assert Rest() == rest[1..];
      } else {
        var it := ReadOne();
        if it.Bad? {
          return Some(Failed(it.error));
        }
        assert Rest() == rest[it.len..];
      }
      stop := None;
    }

    /** Closes the blocks that are still open at the end of the source. */
    method CloseBlocks() returns (r: LexResult)
      modifies this
      ensures r == Done(Finish(old(State())))
    {
      while |indentStack| > 1
        invariant Finish(State()) == Finish(old(State()))
        decreases |indentStack|
      {
        DedentsFront(tokens, |indentStack| - 1);
        indentStack, tokens := Init(indentStack), tokens + [Dedent];
      }
      assert tokens + Dedents(0) == tokens;
      tokens := tokens + [Eof];
      r := Done(tokens);
    }

    /** Indentation of a line that holds code; `ok` is false on an unknown level. */
    method HandleIndentation() returns (ok: bool)
      requires Valid() && atLineStart
      modifies this
      ensures Valid() && pos == old(pos) + SpaceLen(old(Rest()))
      ensures pos == |source| ==> ok
      ensures pos < |source| ==> ok == EnterLine(old(Rest()), old(State())).Level?
      ensures pos < |source| && ok ==> State() == EnterLine(old(Rest()), old(State())).st && !atLineStart
    {
      ghost var cs := Rest();
      var spaces := SkipSpaces();
      assert source[pos..] == cs[spaces..];
      atLineStart := false;
      if pos == |source| || source[pos] == '\n' || source[pos] == '#' {
        return true;
      }
      ok := ChangeIndent(spaces);
    }

    method SkipSpaces() returns (spaces: nat)
      requires pos <= |source|
      modifies this`pos
      ensures spaces == SpaceLen(old(Rest())) && pos == old(pos) + spaces <= |source|
    {
      ghost var cs := Rest();
      var start := pos;
      while pos < |source| && source[pos] == ' '
        invariant start <= pos <= |source|
        invariant SpaceLen(cs) == pos - start + SpaceLen(source[pos..])
      {
        assert source[pos..][1..] == source[pos + 1..];
        pos := pos + 1;
      }
      spaces := pos - start;
    }

    method ChangeIndent(spaces: nat) returns (ok: bool)
      modifies this`tokens, this`indentStack
      ensures ok == IndentStep(old(State()), spaces).Level?
      ensures ok ==> State() == IndentStep(old(State()), spaces).st
    {
      var current := Top(indentStack);
      if spaces > current {
        indentStack, tokens := indentStack + [spaces], tokens + [Indent];
      } else if spaces < current {
        assert tokens + Dedents(0) == tokens;
        while |indentStack| > 1 && Top(indentStack) > spaces
          invariant |indentStack| <= |old(indentStack)|
          invariant PopTo(indentStack, spaces) == PopTo(old(indentStack), spaces)
          invariant tokens == old(tokens) + Dedents(|old(indentStack)| - |indentStack|)
          decreases |indentStack|
        {
          indentStack, tokens := Init(indentStack), tokens + [Dedent];
        }
        return Top(indentStack) == spaces;
      }
      ok := true;
    }

    method HandleNewline()
      requires pos < |source|
      modifies this
      ensures Valid() && pos == old(pos) + 1 && State() == NewlineStep(old(State()))
    {
      pos := pos + 1;
      if nesting > 0 {
        atLineStart := false;
        return;
      }
      var suppress := ShouldSuppressNewline();
      if !suppress {
        var lastIsNewline := tokens != [] && Last(tokens).Newline?;
        if !lastIsNewline && tokens != [] {
          tokens := tokens + [Newline];
        }
      }
      atLineStart := true;
    }

    method ShouldSuppressNewline() returns (b: bool)
      ensures b == Suppressed(tokens)
    {
      var i := |tokens|;
      assert tokens[..i] == tokens;
      while i > 0
        invariant 0 <= i <= |tokens|
        invariant Suppressed(tokens[..i]) == Suppressed(tokens)
      {
        var t := tokens[i - 1];
        assert Init(tokens[..i]) == tokens[..i - 1];
        if t.Indent? || t.Dedent? || t.Newline? {
          i := i - 1;
        } else {
          return Continues(t);
        }
      }
      b := true;
    }

    /** Reads one item; a token is emitted, anything else is skipped or reported. */
    method ReadOne() returns (it: Item)
      requires pos < |source| && source[pos] != '\n'
      modifies this
      ensures Valid() && it == ReadItem(old(Rest()))
      ensures !it.Bad? ==> pos == old(pos) + it.len
      ensures it.Skip? ==> State() == old(State())
      ensures it.Tok? ==> State() == Emit(old(State()), it.kind)
    {
      ghost var cs := Rest();
      var c := source[pos];
      if IsBlank(c) || c == '\r' {
        it := Skip(1);
      } else if c == '#' {
        it := SkipComment();
      } else if c == '"' {
        it := ReadStringLiteral();
      } else if IsDigit(c) {
        it := ReadNumberLiteral();
      } else if IsLetter(c) {
        it := ReadIdentifier();
      } else {
        var n := SymLen(source[pos..]);
        it := if n > 0 then Tok(Sym(source[pos..][..n]), n) else Bad(UnexpectedCharacter(c));
      }
      if it.Bad? {
        return;
      }
      if it.Tok? {
        EmitToken(it.kind);
      }
      pos := pos + it.len;
    }

    /** A `>>` at the head of a line takes back the newline before it. */
    method EmitToken(k: Kind)
      modifies this`tokens, this`nesting
      ensures State() == Emit(old(State()), k)
    {
      if k == Sym(">>") {
        TakeBackNewline();
      }
      nesting := Nest(nesting, k);
      tokens := tokens + [k];
    }

    method TakeBackNewline()
      modifies this`tokens
      ensures tokens == DropNewline(old(tokens))
    {
      var i := |tokens|;
      assert tokens[..i] == tokens && tokens[i..] == [];
      while i > 0 && IsLayout(tokens[i - 1])
        invariant 0 <= i <= |tokens|
        invariant DropNewline(tokens) == DropNewline(tokens[..i]) + tokens[i..]
      {
        assert Init(tokens[..i]) == tokens[..i - 1];
        assert [tokens[i - 1]] + tokens[i..] == tokens[i - 1..];
        i := i - 1;
      }
      if i > 0 && tokens[i - 1].Newline? {
        assert Init(tokens[..i]) == tokens[..i - 1];
        tokens := tokens[..i - 1] + tokens[i..];
      } else {
        assert DropNewline(tokens[..i]) == tokens[..i];
        assert tokens[..i] + tokens[i..] == tokens;
      }
    }

    method SkipComment() returns (it: Item)
      requires pos < |source| && source[pos] == '#'
      ensures it == ReadItem(Rest())
    {
      var j := pos;
      while j < |source| && source[j] != '\n'
        invariant pos <= j <= |source|
        invariant CommentLen(Rest()) == j - pos + CommentLen(source[j..])
      {
        assert source[j..][1..] == source[j + 1..];
        j := j + 1;
      }
      it := Skip(j - pos);
    }

    method ReadIdentifier() returns (it: Item)
      requires pos < |source| && IsLetter(source[pos])
      ensures it == ReadItem(Rest())
    {
      var j := pos;
      while j < |source| && IsIdChar(source[j])
        invariant pos <= j <= |source|
        invariant IdLen(Rest()) == j - pos + IdLen(source[j..])
      {
        assert source[j..][1..] == source[j + 1..];
        j := j + 1;
      }
      assert source[pos..j] == Rest()[..j - pos];
      it := Tok(Name(source[pos..j]), j - pos);
    }

    method ReadStringLiteral() returns (it: Item)
      requires pos < |source| && source[pos] == '"'
      ensures it == ReadItem(Rest())
    {
      var q := ReadQuoted(pos + 1);
      assert Rest()[1..] == source[pos + 1..];
      it := if q.Open? then Bad(UnterminatedString) else Tok(Text(q.value), 1 + q.len);
    }

    lemma Suffix(j: nat, n: nat)
      requires j + n <= |source|
      ensures source[j..][n..] == source[j + n..]
    {
    }

    lemma Piece(i: nat, j: nat)
      requires i <= j <= |source|
      ensures source[i..][..j - i] == source[i..j]
    {
    }

    method ReadQuoted(start: nat) returns (q: Quoted)
      requires start <= |source|
      ensures q == ReadString(source[start..])
    {
      ghost var cs := source[start..];
      var j, value := start, "";
      StringStarts(cs);
      while j < |source| && source[j] != '"'
        invariant start <= j <= |source|
        invariant ReadUpTo(cs, value, j - start, source[j..])
      {
        ghost var rest := source[j..];
        if source[j] == '\n' {
          return Open;
        }
        StringStep(cs, value, j - start, rest);
        if source[j] == '\\' {
          if j + 1 == |source| {
            return Open;
          }
          Suffix(j, 2);
          value := value + Unescape(source[j + 1]);
          j := j + 2;
        } else {
          Suffix(j, 1);
          value := value + [source[j]];
          j := j + 1;
        }
      }
      if j == |source| {
        return Open;
      }
      StringEnds(cs, value, j - start, source[j..]);
      q := Closed(value, j + 1 - start);
    }

    method ReadNumberLiteral() returns (it: Item)
      requires pos < |source| && IsDigit(source[pos])
      ensures it == ReadNumber(Rest())
    {
      ghost var cs := Rest();
      var j, hasDot := pos, false;
      while j < |source| && (IsDigit(source[j]) || source[j] == '.')
        invariant pos <= j <= |source|
        invariant NumberUpTo(cs, j - pos, source[j..], hasDot)
      {
        NumberStep(cs, j - pos, source[j..], hasDot);
        Suffix(j, 1);
        if source[j] == '.' {
          if j + 1 < |source| && IsDigit(source[j + 1]) {
            if hasDot {
              return Bad(InvalidNumber);
            }
            hasDot := true;
          } else {
            break;
          }
        }
        j := j + 1;
      }
      NumberEnds(cs, j - pos, source[j..], hasDot);
      Piece(pos, j);
      var lexeme := source[pos..j];
      if hasDot {
        it := Tok(Float(lexeme), j - pos);
      } else if DecValue(lexeme) <= MAX_I64 {
        it := Tok(Integer(DecValue(lexeme)), j - pos);
      } else {
        it := Bad(InvalidNumber);
      }
    }
  }

  lemma {:induction false} DedentsFront(ts: seq<Kind>, n: nat)
    requires n > 0
    ensures ts + [Dedent] + Dedents(n - 1) == ts + Dedents(n)
  {
    if n == 1 {
      assert Dedents(1) == Dedents(0) + [Dedent] == [Dedent];
    } else {
      DedentsFront(ts, n - 1);
      assert ts + [Dedent] + Dedents(n - 1) == ts + [Dedent] + Dedents(n - 2) + [Dedent];
    }
  }

  /** Lexing a source text with a fresh object. */
  method TokenizeSource(text: string) returns (r: LexResult)
    ensures r == Tokenize(text)
  {
    var lexer := new Lexer(text);
    r := lexer.Run();
  }
}
