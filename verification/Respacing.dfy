/**
 * Respacing against the lexer: exactly when printing the atoms of a code line keeps
 * the tokens the lexer reads from it.
 */
module Respacing {
  import opened Chars
  import opened Lexemes
  import opened Atoms
  import opened AtomsRoundTrip

  /** An atom of a line, and whether blanks precede it there. */
  datatype Piece = Piece(gap: bool, atom: Atom)

  function Pieces(cs: string, gap: bool, u: Alphabet): seq<Piece>
    decreases |cs|
  {
    if cs == "" then []
    else if IsBlank(cs[0]) then Pieces(cs[1..], true, u)
    else var a := FirstAtom(cs, u); [Piece(gap, a)] + Pieces(cs[|a.text|..], false, u)
  }

  predicate IsGlueChar(c: char, u: Alphabet) {
    IsWordChar(c, u) || c == '.' || c == '?'
  }

  /** Atoms the lexer may read as parts of one token: words, `.` and `?`. */
  predicate IsGlue(a: Atom) {
    a.Word? || IsOp(a, '.') || IsOp(a, '?')
  }

  /** How many pieces at the head touch each other and are read as one text. */
  function ChunkLen(ps: seq<Piece>): (n: nat)
    requires ps != []
    ensures 1 <= n <= |ps|
  {
    if |ps| > 1 && !ps[1].gap && IsGlue(ps[0].atom) && IsGlue(ps[1].atom) then 1 + ChunkLen(ps[1..])
    else 1
  }

  function TextOf(ps: seq<Piece>): string {
    if ps == [] then "" else ps[0].atom.text + TextOf(ps[1..])
  }

  /** The tokens of a line, read chunk by chunk. */
  function PieceTokens(ps: seq<Piece>): Lexed {
    if ps == [] then Kinds([])
    else
      var n := ChunkLen(ps);
      Append(LexLine(TextOf(ps[..n])), PieceTokens(ps[n..]))
  }

  // --- Items that do not reach past a boundary ---

  predicate NumStays(g: string, h: string, dotted: bool)
    requires h != ""
  {
    match NumSpan(g, dotted)
    case TwoDots => true
    case Span(n, _) =>
      if n < |g| then !(n + 1 == |g| && g[n] == '.' && IsDigit(h[0]))
      else !IsDigit(h[0]) && !(h[0] == '.' && |h| > 1 && IsDigit(h[1]))
  }

  lemma {:induction false} NumSpanExtends(g: string, h: string, dotted: bool)
    requires h != "" && NumStays(g, h, dotted)
    ensures NumSpan(g + h, dotted) == NumSpan(g, dotted)
    decreases |g|
  {
    if g == "" {
      assert g + h == h;
    } else if (g[0] == '.' && |g| > 1 && IsDigit(g[1]) && !dotted) || IsDigit(g[0]) {
      assert (g + h)[1..] == g[1..] + h;
      NumSpanExtends(g[1..], h, dotted || g[0] == '.');
    }
  }

  lemma {:induction false} IdLenExtends(g: string, h: string)
    requires IdLen(g) < |g| || h == "" || !IsIdChar(h[0])
    ensures IdLen(g + h) == IdLen(g)
  {
    if g == "" {
      assert g + h == h;
    } else {
      assert (g + h)[1..] == g[1..] + h;
      if IsIdChar(g[0]) {
        IdLenExtends(g[1..], h);
      }
    }
  }

  predicate IsGlueText(g: string, u: Alphabet) {
    forall i :: 0 <= i < |g| ==> IsGlueChar(g[i], u)
  }

  /** The first item of `g` is not changed by putting `h` after `g`. */
  predicate ItemStays(g: string, h: string)
    requires g != ""
  {
    || h == ""
    || (IsLetter(g[0]) && (IdLen(g) < |g| || !IsIdChar(h[0])))
    || (IsDigit(g[0]) && NumStays(g, h, false))
    || (!IsLetter(g[0]) && !IsDigit(g[0]))
  }

  lemma ItemExtends(g: string, h: string, u: Alphabet)
    requires g != "" && IsGlueText(g, u) && ItemStays(g, h)
    ensures ReadItem(g + h) == ReadItem(g)
  {
    if h == "" {
      assert g + h == g;
    } else if IsLetter(g[0]) {
      IdLenExtends(g, h);
      assert (g + h)[..IdLen(g)] == g[..IdLen(g)];
    } else if IsDigit(g[0]) {
      NumSpanExtends(g, h, false);
      var s := NumSpan(g, false);
      assert s.Span? ==> (g + h)[..s.len] == g[..s.len];
    } else {
      assert (g + h)[..1] == g[..1];
    }
  }

  lemma AppendAssociates(a: Lexed, b: Lexed, c: Lexed)
    ensures Append(Append(a, b), c) == Append(a, Append(b, c))
  {
    if a.Kinds? && b.Kinds? && c.Kinds? {
      assert a.kinds + b.kinds + c.kinds == a.kinds + (b.kinds + c.kinds);
    }
  }

  lemma AppendNothing(a: Lexed)
    ensures Append(Kinds([]), a) == a == Append(a, Kinds([]))
  {
  }

  /** Reading `g + h` when the first item of `g` stays the same. */
  lemma LexSplitsOnce(g: string, h: string, u: Alphabet)
    requires g != "" && IsGlueText(g, u) && ItemStays(g, h)
    ensures ReadItem(g).Bad? ==> LexLine(g) == LexLine(g + h) == Fails(ReadItem(g).error)
    ensures ReadItem(g).Tok? ==> LexLine(g) == Append(Kinds([ReadItem(g).kind]), LexLine(g[ReadItem(g).len..]))
    ensures ReadItem(g).Tok? ==>
              LexLine(g + h) == Append(Kinds([ReadItem(g).kind]), LexLine(g[ReadItem(g).len..] + h))
    ensures !ReadItem(g).Skip?
  {
    ItemExtends(g, h, u);
    var it := ReadItem(g);
    if it.Tok? {
      assert (g + h)[it.len..] == g[it.len..] + h;
    }
  }

  /** A glue text is read on its own when no glue character follows it. */
  lemma {:induction false} GlueSplits(g: string, h: string, u: Alphabet)
    requires IsGlueText(g, u)
    requires h != "" ==> !IsGlueChar(h[0], u)
    ensures LexLine(g + h) == Append(LexLine(g), LexLine(h))
    decreases |g|
  {
    if g == "" {
      assert g + h == h;
      AppendNothing(LexLine(h));
    } else {
      LexSplitsOnce(g, h, u);
      var it := ReadItem(g);
      if it.Tok? {
        GlueSplits(g[it.len..], h, u);
        AppendAssociates(Kinds([it.kind]), LexLine(g[it.len..]), LexLine(h));
      }
    }
  }

  // --- Every other atom is read on its own ---

  lemma {:induction false} ReadStringAgrees(cs: string, r: string)
    requires OneLine(cs)
    ensures ReadString(cs).Closed? <==> StrCloses(cs)
    ensures StrCloses(cs) ==> ReadString(cs).len == StrLen(cs) && ReadString(cs + r) == ReadString(cs)
    decreases |cs|
  {
    if cs == "" || cs[0] == '"' || cs == "\\" {
    } else {
      var n := if cs[0] == '\\' then 2 else 1;
      assert (cs + r)[n..] == cs[n..] + r;
      ReadStringAgrees(cs[n..], r);
    }
  }

  lemma OpItem(a: Atom, r: string, u: Alphabet)
    requires a.Op? && Standalone(a, u) && StaysApart(a, r, u) && !IsGlue(a) && OneLine(a.text)
    ensures ReadItem(a.text + r) == ReadItem(a.text)
    ensures !ReadItem(a.text).Bad? ==> ReadItem(a.text).len == |a.text|
  {
    var t := a.text;
    assert forall i :: 0 <= i < |t| ==> (t + r)[i] == t[i];
    assert |t| < |t + r| ==> (t + r)[|t|] == r[0];
    assert (t + r)[..|t|] == t;
  }

  /** A text whose first item is the whole of `t`, also with `r` behind it. */
  lemma WholeItemSplits(t: string, r: string)
    requires t != "" && t[0] != '\n'
    requires ReadItem(t + r) == ReadItem(t)
    requires !ReadItem(t).Bad? ==> ReadItem(t).len == |t|
    ensures LexLine(t + r) == Append(LexLine(t), LexLine(r))
  {
    var it := ReadItem(t);
    assert (t + r)[0] == t[0];
    if !it.Bad? {
      assert (t + r)[it.len..] == r && t[it.len..] == "";
      assert LexLine("") == Kinds([]);
      if it.Tok? {
        AppendNothing(Kinds([it.kind]));
      } else {
        AppendNothing(LexLine(r));
      }
    }
  }

  lemma StrSplits(a: Atom, r: string, u: Alphabet)
    requires a.Str? && Standalone(a, u) && StaysApart(a, r, u) && OneLine(a.text)
    ensures LexLine(a.text + r) == Append(LexLine(a.text), LexLine(r))
  {
    var t := a.text;
    ReadStringAgrees(t[1..], r);
    assert (t + r)[1..] == t[1..] + r;
    if StrCloses(t[1..]) {
      WholeItemSplits(t, r);
    } else {
      assert t + r == t;
    }
  }

  lemma AtomSplits(a: Atom, r: string, u: Alphabet)
    requires Standalone(a, u) && StaysApart(a, r, u) && !IsGlue(a) && OneLine(a.text)
    ensures LexLine(a.text + r) == Append(LexLine(a.text), LexLine(r))
  {
    match a
    case Str(_) => StrSplits(a, r, u);
    case Comment(t) =>
      assert t + r == t;
      AppendNothing(LexLine(t));
    case Op(t) =>
      OpItem(a, r, u);
      WholeItemSplits(t, r);
  }

  // --- A line is read chunk by chunk ---

  function GlueLen(cs: string, u: Alphabet): (n: nat)
    ensures n <= |cs| && IsGlueText(cs[..n], u)
    ensures n < |cs| ==> !IsGlueChar(cs[n], u)
  {
    if cs == "" || !IsGlueChar(cs[0], u) then 0
    else
      var n := GlueLen(cs[1..], u);
      assert cs[..1 + n] == [cs[0]] + cs[1..][..n];
      1 + n
  }

  lemma {:induction false} GlueLenAfter(cs: string, k: nat, u: Alphabet)
    requires k <= |cs| && IsGlueText(cs[..k], u)
    ensures GlueLen(cs, u) == k + GlueLen(cs[k..], u)
  {
    if k > 0 {
      assert cs[0] == cs[..k][0];
      assert cs[1..][..k - 1] == cs[..k][1..];
      assert cs[1..][k - 1..] == cs[k..];
      GlueLenAfter(cs[1..], k - 1, u);
    } else {
      assert cs[0..] == cs;
    }
  }

  lemma FirstAtomGlue(cs: string, u: Alphabet)
    requires cs != "" && !IsBlank(cs[0])
    ensures IsGlue(FirstAtom(cs, u)) <==> IsGlueChar(cs[0], u)
    ensures IsGlueChar(cs[0], u) ==> IsGlueText(FirstAtom(cs, u).text, u)
  {
  }

  /** A piece joins the chunk behind it, or is a chunk alone. */
  lemma ChunkCons(p: Piece, more: seq<Piece>)
    ensures
      var ps := [p] + more;
      if more != [] && !more[0].gap && IsGlue(p.atom) && IsGlue(more[0].atom) then
        var n := ChunkLen(more);
        ChunkLen(ps) == 1 + n && TextOf(ps[..1 + n]) == p.atom.text + TextOf(more[..n]) && ps[1 + n..] == more[n..]
      else
        ChunkLen(ps) == 1 && TextOf(ps[..1]) == p.atom.text && ps[1..] == more
  {
    var ps := [p] + more;
    assert ps[1..] == more;
    if more != [] && !more[0].gap && IsGlue(p.atom) && IsGlue(more[0].atom) {
      var n := ChunkLen(more);
      assert ps[..1 + n][1..] == more[..n];
    } else {
      assert ps[..1] == [p] && [p][1..] == [];
    }
  }

  lemma FirstPiece(cs: string, gap: bool, u: Alphabet)
    requires cs != "" && !IsBlank(cs[0])
    ensures Pieces(cs, gap, u) == [Piece(gap, FirstAtom(cs, u))] + Pieces(cs[|FirstAtom(cs, u).text|..], false, u)
  {
  }

  /** `ps` starts with a chunk of text `t` and continues with `tail`. */
  predicate StartsWithChunk(ps: seq<Piece>, t: string, tail: seq<Piece>) {
    ps != [] && TextOf(ps[..ChunkLen(ps)]) == t && ps[ChunkLen(ps)..] == tail
  }

  predicate Touches(ps: seq<Piece>) {
    ps != [] && !ps[0].gap && IsGlue(ps[0].atom)
  }

  lemma ChunkStep(p: Piece, more: seq<Piece>, t: string, tail: seq<Piece>)
    requires IsGlue(p.atom)
    requires if Touches(more) then StartsWithChunk(more, t, tail) else t == "" && more == tail
    ensures StartsWithChunk([p] + more, p.atom.text + t, tail)
  {
    ChunkCons(p, more);
  }

  /** The glue text at the head of a line is its first atom and the glue text behind that. */
  lemma GlueStep(cs: string, u: Alphabet) returns (a: Atom, rest: string, m: nat)
    requires cs != "" && IsGlueChar(cs[0], u)
    ensures a == FirstAtom(cs, u) && IsGlue(a) && rest == cs[|a.text|..] && m == GlueLen(rest, u)
    ensures cs[..GlueLen(cs, u)] == a.text + rest[..m] && cs[GlueLen(cs, u)..] == rest[m..]
  {
    a := FirstAtom(cs, u);
    FirstAtomGlue(cs, u);
    rest := cs[|a.text|..];
    m := GlueLen(rest, u);
    GlueLenAfter(cs, |a.text|, u);
    JoinSlices(cs, |a.text|, m);
  }

  lemma TouchesIffGlue(cs: string, u: Alphabet)
    ensures Touches(Pieces(cs, false, u)) <==> cs != "" && IsGlueChar(cs[0], u)
  {
    if cs != "" && IsGlueChar(cs[0], u) {
      FirstAtomGlue(cs, u);
    } else {
      PiecesAfterGlue(cs, u);
    }
  }

  /** The first chunk of a line that starts with a glue character is its longest glue text. */
  lemma {:induction false} ChunkIsGlue(cs: string, gap: bool, u: Alphabet)
    requires cs != "" && IsGlueChar(cs[0], u)
    ensures StartsWithChunk(Pieces(cs, gap, u), cs[..GlueLen(cs, u)], Pieces(cs[GlueLen(cs, u)..], false, u))
    decreases |cs|
  {
    var a, rest, m := GlueStep(cs, u);
    TouchesIffGlue(rest, u);
    if Touches(Pieces(rest, false, u)) {
      ChunkIsGlue(rest, false, u);
    }
    ChunkStep(Piece(gap, a), Pieces(rest, false, u), rest[..m], Pieces(rest[m..], false, u));
  }

  lemma JoinSlices(cs: string, k: nat, m: nat)
    requires k + m <= |cs|
    ensures cs[..k + m] == cs[..k] + cs[k..][..m]
    ensures cs[k + m..] == cs[k..][m..]
  {
  }

  /** Where a glue text ends, the next piece is not one that touches it as glue. */
  lemma PiecesAfterGlue(cs: string, u: Alphabet)
    requires cs != "" ==> !IsGlueChar(cs[0], u)
    ensures var ps := Pieces(cs, false, u); ps == [] || ps[0].gap || !IsGlue(ps[0].atom)
  {
    if cs != "" && IsBlank(cs[0]) {
      PiecesKeepGap(cs[1..], u);
    } else if cs != "" {
      FirstAtomGlue(cs, u);
    }
  }

  lemma {:induction false} PiecesKeepGap(cs: string, u: Alphabet)
    ensures var ps := Pieces(cs, true, u); ps == [] || ps[0].gap
  {
    if cs != "" && IsBlank(cs[0]) {
      PiecesKeepGap(cs[1..], u);
    }
  }

  lemma ScannedStaysApart(cs: string, u: Alphabet)
    requires cs != "" && !IsBlank(cs[0])
    ensures var a := FirstAtom(cs, u); Standalone(a, u) && StaysApart(a, cs[|a.text|..], u)
  {
    FirstAtomStandsAlone(cs, u);
  }

  /** Reading a line is reading its chunks one after the other. */
  lemma {:induction false} LexLineByPieces(cs: string, gap: bool, u: Alphabet)
    requires OneLine(cs)
    ensures LexLine(cs) == PieceTokens(Pieces(cs, gap, u))
    decreases |cs|
  {
    if cs == "" {
    } else if IsBlank(cs[0]) {
      LexLineByPieces(cs[1..], true, u);
    } else {
      var m := if IsGlueChar(cs[0], u) then GlueLen(cs, u) else |FirstAtom(cs, u).text|;
      FirstChunkSplits(cs, gap, u);
      LexLineByPieces(cs[m..], false, u);
    }
  }

  lemma FirstChunkSplits(cs: string, gap: bool, u: Alphabet)
    requires cs != "" && !IsBlank(cs[0]) && OneLine(cs)
    ensures var m := if IsGlueChar(cs[0], u) then GlueLen(cs, u) else |FirstAtom(cs, u).text|;
            && 1 <= m <= |cs|
            && LexLine(cs) == Append(LexLine(cs[..m]), LexLine(cs[m..]))
            && PieceTokens(Pieces(cs, gap, u)) ==
                 Append(LexLine(cs[..m]), PieceTokens(Pieces(cs[m..], false, u)))
  {
    if IsGlueChar(cs[0], u) {
      FirstRunSplits(cs, gap, u);
    } else {
      FirstOtherSplits(cs, gap, u);
    }
  }

  lemma FirstRunSplits(cs: string, gap: bool, u: Alphabet)
    requires cs != "" && !IsBlank(cs[0]) && OneLine(cs) && IsGlueChar(cs[0], u)
    ensures var m := GlueLen(cs, u);
            && 1 <= m <= |cs|
            && LexLine(cs) == Append(LexLine(cs[..m]), LexLine(cs[m..]))
            && PieceTokens(Pieces(cs, gap, u)) ==
                 Append(LexLine(cs[..m]), PieceTokens(Pieces(cs[m..], false, u)))
  {
    var m := GlueLen(cs, u);
    ChunkIsGlue(cs, gap, u);
    GlueSplits(cs[..m], cs[m..], u);
    assert cs[..m] + cs[m..] == cs;
  }

  lemma FirstOtherSplits(cs: string, gap: bool, u: Alphabet)
    requires cs != "" && !IsBlank(cs[0]) && OneLine(cs) && !IsGlueChar(cs[0], u)
    ensures var m := |FirstAtom(cs, u).text|;
            && LexLine(cs) == Append(LexLine(cs[..m]), LexLine(cs[m..]))
            && PieceTokens(Pieces(cs, gap, u)) ==
                 Append(LexLine(cs[..m]), PieceTokens(Pieces(cs[m..], false, u)))
  {
    var a := FirstAtom(cs, u);
    var rest := cs[|a.text|..];
    assert a.text + rest == cs by {
      assert a.text == cs[..|a.text|];
    }
    ScannedStaysApart(cs, u);
    FirstAtomGlue(cs, u);
    AtomSplits(a, rest, u);
    FirstPiece(cs, gap, u);
    ChunkCons(Piece(gap, a), Pieces(rest, false, u));
  }
}
