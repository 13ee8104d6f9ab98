/**
 * Respacing removes the blanks around `.` and `?`. This module says exactly when the
 * lexer then fuses what the blanks kept apart.
 */
module Fusing {
  import opened Chars
  import opened Lexemes
  import opened Atoms
  import opened AtomsRoundTrip
  import opened Respacing

  predicate NumberAt(ks: seq<Kind>, fromEnd: nat) {
    1 <= fromEnd <= |ks| && (ks[|ks| - fromEnd].Integer? || ks[|ks| - fromEnd].Float?)
  }

  /**
   * Text `h` set directly behind the glue text `g` changes how `g` is read: an identifier
   * goes on, or a number finds a fraction behind its dot.
   */
  predicate Fuses(g: string, h: string) {
    && g != "" && h != "" && LexLine(g).Kinds?
    && var ks, last := LexLine(g).kinds, g[|g| - 1];
       || (IsIdChar(h[0]) && last != '.')
       || (IsDigit(h[0]) && last == '.' && NumberAt(ks, 2))
       || (h[0] == '.' && |h| > 1 && IsDigit(h[1]) && NumberAt(ks, 1))
  }

  lemma {:induction false} NumEndsInDigit(g: string, dotted: bool)
    requires NumSpan(g, dotted).Span? && NumSpan(g, dotted).len > 0
    ensures IsDigit(g[NumSpan(g, dotted).len - 1])
    decreases |g|
  {
    var d := dotted || g[0] == '.';
    if NumSpan(g[1..], d).len > 0 {
      NumEndsInDigit(g[1..], d);
    }
  }

  /** The first item of a glue text: a number, a word or a dot. */
  lemma ItemOfGlue(g: string, u: Alphabet)
    requires g != "" && IsGlueText(g, u) && !ReadItem(g).Bad?
    ensures ReadItem(g).Tok?
    ensures IsDigit(g[0]) || IsLetter(g[0]) || g[0] == '.'
    ensures var k, n := ReadItem(g).kind, ReadItem(g).len;
            && (IsDigit(g[0]) <==> k.Integer? || k.Float?)
            && (IsDigit(g[0]) ==> NumSpan(g, false).Span? && n == NumSpan(g, false).len && IsDigit(g[n - 1]))
            && (IsLetter(g[0]) ==> n == IdLen(g) && k == Name(g[..n]) && IsIdChar(g[n - 1]))
            && (g[0] == '.' ==> n == 1 && k == Sym("."))
  {
    if IsDigit(g[0]) {
      if NumSpan(g, false).Span? {
        NumEndsInDigit(g, false);
      }
    } else {
      assert g[..1] == [g[0]];
    }
  }

  lemma FirstOfGlue(g: string, u: Alphabet)
    requires g != "" && IsGlueText(g, u) && LexLine(g).Kinds?
    ensures ReadItem(g).Tok? && LexLine(g[ReadItem(g).len..]).Kinds?
    ensures LexLine(g).kinds == [ReadItem(g).kind] + LexLine(g[ReadItem(g).len..]).kinds
  {
    ItemOfGlue(g, u);
  }

  lemma DotAlone()
    ensures LexLine(".") == Kinds([Sym(".")])
  {
    assert "."[..1] == ".";
    assert LexLine("."[1..]) == Kinds([]);
  }

  lemma LastKind(g: string, u: Alphabet)
    requires g != "" && IsGlueText(g, u) && LexLine(g).Kinds?
    ensures LexLine(g).kinds != []
  {
    FirstOfGlue(g, u);
  }

  lemma ItemStaysUnlessFuses(g: string, h: string, u: Alphabet)
    requires g != "" && h != "" && IsGlueText(g, u) && LexLine(g).Kinds?
    requires !Fuses(g, h)
    ensures ItemStays(g, h)
  {
    FirstOfGlue(g, u);
    ItemOfGlue(g, u);
    var n := ReadItem(g).len;
    if n == |g| {
      assert LexLine(g[n..]).kinds == [];
    } else if n + 1 == |g| && g[n] == '.' {
      assert g[n..] == ".";
      DotAlone();
    }
  }

  /** A glue text that is one token and ends in a dot is the dot. */
  lemma LoneDot(t: string, u: Alphabet)
    requires t != "" && IsGlueText(t, u) && LexLine(t).Kinds?
    requires |LexLine(t).kinds| == 1 && t[|t| - 1] == '.'
    ensures t == "."
  {
    FirstOfGlue(t, u);
    ItemOfGlue(t, u);
    var n := ReadItem(t).len;
    if n < |t| {
      LastKind(t[n..], u);
    }
  }

  lemma NumbersFromEnd(k: Kind, ks: seq<Kind>, i: nat)
    requires 1 <= i <= |ks|
    ensures NumberAt([k] + ks, i) == NumberAt(ks, i)
  {
  }

  lemma LastOfTail(g: string, n: nat)
    requires n < |g|
    ensures g[n..][|g| - n - 1] == g[|g| - 1]
  {
  }

  lemma FusesTail(g: string, h: string, u: Alphabet)
    requires g != "" && h != "" && IsGlueText(g, u) && LexLine(g).Kinds?
    requires ReadItem(g).Tok? && ReadItem(g).len < |g|
    ensures Fuses(g[ReadItem(g).len..], h) ==> Fuses(g, h)
    ensures Fuses(g, h) && ItemStays(g, h) ==> Fuses(g[ReadItem(g).len..], h)
  {
    var t := g[ReadItem(g).len..];
    TailOfGlue(g, u);
    if |LexLine(t).kinds| >= 2 || g[|g| - 1] != '.' {
      FusesLikeTail(g, t, h, ReadItem(g).kind);
    } else {
      LoneDot(t, u);
      DotNeverFuses(t, h);
      FusesAtDot(g, h, u);
    }
  }

  lemma TailOfGlue(g: string, u: Alphabet)
    requires g != "" && IsGlueText(g, u) && LexLine(g).Kinds?
    requires ReadItem(g).Tok? && ReadItem(g).len < |g|
    ensures var t := g[ReadItem(g).len..];
            && IsGlueText(t, u) && t != "" && t[|t| - 1] == g[|g| - 1]
            && LexLine(t).Kinds? && LexLine(t).kinds != []
            && LexLine(g) == Kinds([ReadItem(g).kind] + LexLine(t).kinds)
  {
    var n := ReadItem(g).len;
    FirstOfGlue(g, u);
    LastOfTail(g, n);
    LastKind(g[n..], u);
  }

  lemma DotNeverFuses(t: string, h: string)
    requires t == "."
    ensures !Fuses(t, h)
  {
    DotAlone();
  }

  lemma FusesLikeTail(g: string, t: string, h: string, k: Kind)
    requires g != "" && t != "" && h != "" && g[|g| - 1] == t[|t| - 1]
    requires LexLine(t).Kinds? && LexLine(g) == Kinds([k] + LexLine(t).kinds) && LexLine(t).kinds != []
    requires |LexLine(t).kinds| >= 2 || g[|g| - 1] != '.'
    ensures Fuses(g, h) == Fuses(t, h)
  {
    NumbersFromEnd(k, LexLine(t).kinds, 1);
    if |LexLine(t).kinds| >= 2 {
      NumbersFromEnd(k, LexLine(t).kinds, 2);
    }
  }

  /** A number and a dot: a digit behind them makes the number go on. */
  lemma FusesAtDot(g: string, h: string, u: Alphabet)
    requires g != "" && h != "" && IsGlueText(g, u) && LexLine(g).Kinds? && ReadItem(g).Tok?
    requires ReadItem(g).len < |g| && g[ReadItem(g).len..] == "."
    ensures Fuses(g, h) ==> !ItemStays(g, h)
  {
    var n := ReadItem(g).len;
    assert g[n] == '.' && n + 1 == |g|;
    FirstOfGlue(g, u);
    DotAlone();
    NumberAtDot(g, h);
  }

  /** Only a number in front of the dot lets it fuse. */
  lemma NumberAtDot(g: string, h: string)
    requires g != "" && g[0] != '\n' && h != "" && ReadItem(g).Tok? && LexLine(g).Kinds?
    requires var n := ReadItem(g).len; n + 1 == |g| && g[n] == '.'
    requires LexLine(g).kinds == [ReadItem(g).kind, Sym(".")]
    ensures Fuses(g, h) ==> !ItemStays(g, h)
  {
  }

  /** Without fusing, the two texts are read one after the other. */
  lemma {:induction false} ApartUnlessFuses(g: string, h: string, u: Alphabet)
    requires g != "" && h != "" && IsGlueText(g, u) && LexLine(g).Kinds?
    requires !Fuses(g, h)
    ensures LexLine(g + h) == Append(LexLine(g), LexLine(h))
    decreases |g|
  {
    FirstOfGlue(g, u);
    ItemStaysUnlessFuses(g, h, u);
    LexSplitsOnce(g, h, u);
    var k, n := ReadItem(g).kind, ReadItem(g).len;
    var t := g[n..];
    if t == "" {
      assert t + h == h;
    } else {
      FusesTail(g, h, u);
      ApartUnlessFuses(t, h, u);
      AppendAssociates(Kinds([k]), LexLine(t), LexLine(h));
    }
  }

  lemma {:induction false} NumGrows(g: string, h: string, dotted: bool)
    requires h != "" && NumSpan(g, dotted).Span?
    requires var n := NumSpan(g, dotted).len;
             || (n == |g| && h[0] == '.' && |h| > 1 && IsDigit(h[1]))
             || (n + 1 == |g| && g[n] == '.' && IsDigit(h[0]))
    ensures var s := NumSpan(g + h, dotted); s.Span? ==> s.dotted && s.len > NumSpan(g, dotted).len
    decreases |g|
  {
    if g == "" {
      assert g + h == h;
      NumKeepsDot(h[1..]);
    } else {
      assert (g + h)[1..] == g[1..] + h;
      if g == "." {
        assert g[1..] + h == h;
        NumKeepsDot(h);
      } else {
        NumGrows(g[1..], h, dotted || g[0] == '.');
      }
    }
  }

  lemma {:induction false} NumKeepsDot(cs: string)
    ensures NumSpan(cs, true).Span? ==> NumSpan(cs, true).dotted
    decreases |cs|
  {
    if cs != "" && IsDigit(cs[0]) {
      NumKeepsDot(cs[1..]);
    }
  }

  lemma {:induction false} IdGrows(g: string, h: string)
    requires IdLen(g) == |g| && h != "" && IsIdChar(h[0])
    ensures IdLen(g + h) > |g|
  {
    if g == "" {
      assert g + h == h;
    } else {
      assert (g + h)[1..] == g[1..] + h;
      IdGrows(g[1..], h);
    }
  }

  /** The streams first differ at `j`, in tokens that are no symbols. */
  predicate ForksAt(a: seq<Kind>, b: seq<Kind>, j: nat) {
    && j < |a| && j < |b| && a[..j] == b[..j] && a[j] != b[j] && !a[j].Sym? && !b[j].Sym?
  }

  predicate Forks(a: seq<Kind>, b: seq<Kind>) {
    exists j :: 0 <= j < |a| && ForksAt(a, b, j)
  }

  /** A first item that does not stay is read as something else. */
  lemma FirstItemChanges(g: string, h: string, u: Alphabet)
    requires g != "" && h != "" && IsGlueText(g, u) && LexLine(g).Kinds?
    requires g[|g| - 1] == '.' || g[|g| - 1] == '?' || h[0] == '.'
    requires !ItemStays(g, h)
    ensures LexLine(g).kinds != []
    ensures LexLine(g + h).Kinds? ==> ForksAt(LexLine(g).kinds, LexLine(g + h).kinds, 0)
  {
    FirstOfGlue(g, u);
    ItemOfGlue(g, u);
    var gh := g + h;
    assert gh[0] == g[0];
    if IsLetter(g[0]) {
      IdGrows(g, h);
      assert |gh[..IdLen(gh)]| > |g|;
    } else {
      NumGrows(g, h, false);
    }
  }

  /** An item that is all of `g` and stays the same does not fuse. */
  lemma WholeItemApart(g: string, h: string, u: Alphabet)
    requires g != "" && h != "" && IsGlueText(g, u) && LexLine(g).Kinds?
    requires g[|g| - 1] == '.' || g[|g| - 1] == '?' || h[0] == '.'
    requires ItemStays(g, h) && ReadItem(g).len == |g|
    ensures !Fuses(g, h)
  {
    FirstOfGlue(g, u);
    ItemOfGlue(g, u);
    assert LexLine(g[|g|..]).kinds == [];
  }

  lemma ChangedLater(g: string, h: string, j: nat, u: Alphabet)
    requires IsGlueText(g, u) && LexLine(g).Kinds? && g != "" && h != "" && ItemStays(g, h)
    requires g[|g| - 1] == '.' || g[|g| - 1] == '?' || h[0] == '.'
    requires ReadItem(g).Tok? && ReadItem(g).len < |g|
    requires var t := LexLine(g[ReadItem(g).len..]); t.Kinds? && j < |t.kinds|
    ensures LexLine(g).kinds[j + 1] == LexLine(g[ReadItem(g).len..]).kinds[j]
    ensures LexLine(g + h).Kinds? ==>
              var rest := LexLine(g[ReadItem(g).len..] + h);
              rest.Kinds? && LexLine(g + h).kinds == [ReadItem(g).kind] + rest.kinds
  {
    FirstOfGlue(g, u);
    LexSplitsOnce(g, h, u);
  }

  /** With fusing, some token of `g` is read differently, and those before it are not. */
  lemma {:induction false} ChangedIfFuses(g: string, h: string, u: Alphabet) returns (j: nat)
    requires IsGlueText(g, u) && Fuses(g, h)
    requires g[|g| - 1] == '.' || g[|g| - 1] == '?' || h[0] == '.'
    ensures j < |LexLine(g).kinds|
    ensures LexLine(g + h).Kinds? ==> ForksAt(LexLine(g).kinds, LexLine(g + h).kinds, j)
    decreases |g|
  {
    FirstOfGlue(g, u);
    if ItemStays(g, h) {
      var n := ReadItem(g).len;
      LexSplitsOnce(g, h, u);
      if n == |g| {
        WholeItemApart(g, h, u);
      }
      FusesTail(g, h, u);
      j := ChangedIfFuses(g[n..], h, u);
      ChangedLater(g, h, j, u);
      if LexLine(g + h).Kinds? {
        ForksBehind([ReadItem(g).kind], LexLine(g[n..]).kinds, LexLine(g[n..] + h).kinds, j);
      }
      j := j + 1;
    } else {
      FirstItemChanges(g, h, u);
      j := 0;
    }
  }

  lemma ForksBehind(c: seq<Kind>, a: seq<Kind>, b: seq<Kind>, j: nat)
    requires ForksAt(a, b, j)
    ensures ForksAt(c + a, c + b, |c| + j)
  {
    assert (c + a)[..|c| + j] == c + a[..j] && (c + b)[..|c| + j] == c + b[..j];
  }

  lemma ForksInFront(a: seq<Kind>, b: seq<Kind>, j: nat, x: seq<Kind>, y: seq<Kind>)
    requires ForksAt(a, b, j)
    ensures ForksAt(a + x, b + y, j)
  {
    assert (a + x)[..j] == a[..j] && (b + y)[..j] == b[..j];
  }

  // --- The printed line against the original one ---

  /** Neighbours that printing puts together although the lexer may read them as one. */
  predicate Sticky(p: Atom, c: Atom) {
    IsGlue(p) && IsGlue(c) && !(p.Word? && c.Word?)
  }

  /** How many pieces at the head are printed as one glue text. */
  function RunLen(ps: seq<Piece>): (n: nat)
    requires ps != []
    ensures 1 <= n <= |ps|
  {
    if |ps| > 1 && Sticky(ps[0].atom, ps[1].atom) then 1 + RunLen(ps[1..]) else 1
  }

  /** No blank that printing removes lets the text before it fuse with the text behind it. */
  predicate NoFusing(ps: seq<Piece>) {
    ps == [] ||
    var n, m := ChunkLen(ps), RunLen(ps);
    (n < m ==> !Fuses(TextOf(ps[..n]), TextOf(ps[n..m]))) && NoFusing(ps[n..])
  }

  /** Pieces as scanning yields them: two words never touch. */
  predicate WellScanned(ps: seq<Piece>, u: Alphabet) {
    && (forall k :: 0 <= k < |ps| ==> Standalone(ps[k].atom, u))
    && (forall k :: 1 <= k < |ps| ==> ps[k].gap || !(ps[k - 1].atom.Word? && ps[k].atom.Word?))
  }

  /** `qs` has the atoms of `ps`; between glue atoms its gaps are those that printing leaves. */
  predicate Reprints(ps: seq<Piece>, qs: seq<Piece>) {
    && |ps| == |qs|
    && (forall k :: 0 <= k < |ps| ==> ps[k].atom == qs[k].atom)
    && (forall k :: 1 <= k < |qs| && IsGlue(qs[k - 1].atom) && IsGlue(qs[k].atom) ==>
          qs[k].gap == !Sticky(qs[k - 1].atom, qs[k].atom))
  }

  lemma {:induction false} RunCoversChunk(ps: seq<Piece>, u: Alphabet)
    requires ps != [] && WellScanned(ps, u)
    ensures ChunkLen(ps) <= RunLen(ps)
  {
    if ChunkLen(ps) > 1 {
      RunCoversChunk(ps[1..], u);
    }
  }

  lemma {:induction false} RunIsPrintedChunk(ps: seq<Piece>, qs: seq<Piece>)
    requires ps != [] && Reprints(ps, qs)
    ensures RunLen(ps) == ChunkLen(qs)
  {
    if RunLen(ps) > 1 || ChunkLen(qs) > 1 {
      RunIsPrintedChunk(ps[1..], qs[1..]);
    }
  }

  lemma {:induction false} SameText(ps: seq<Piece>, qs: seq<Piece>)
    requires |ps| == |qs| && forall k :: 0 <= k < |ps| ==> ps[k].atom == qs[k].atom
    ensures TextOf(ps) == TextOf(qs)
  {
    if ps != [] {
      SameText(ps[1..], qs[1..]);
    }
  }

  lemma {:induction false} TextOfSplits(ps: seq<Piece>, n: nat)
    requires n <= |ps|
    ensures TextOf(ps) == TextOf(ps[..n]) + TextOf(ps[n..])
  {
    if n == 0 {
      assert ps[0..] == ps && ps[..0] == [];
    } else {
      TextOfSplits(ps[1..], n - 1);
      assert ps[..n][1..] == ps[1..][..n - 1] && ps[1..][n - 1..] == ps[n..];
    }
  }

  /** A run of glue pieces is a glue text, between the first and the last of its atoms. */
  lemma {:induction false} RunText(ps: seq<Piece>, n: nat, u: Alphabet)
    requires WellScanned(ps, u) && 1 <= n <= |ps|
    requires forall k :: 0 <= k < n ==> IsGlue(ps[k].atom)
    ensures var t, last := TextOf(ps[..n]), ps[n - 1].atom.text;
            t != "" && IsGlueText(t, u) && t[0] == ps[0].atom.text[0] && t[|t| - 1] == last[|last| - 1]
  {
    var a := ps[0].atom;
    assert ps[..n][0] == ps[0];
    assert IsGlueText(a.text, u);
    if n > 1 {
      RunText(ps[1..], n - 1, u);
      assert ps[..n][1..] == ps[1..][..n - 1];
    } else {
      assert ps[..n][1..] == [];
    }
  }

  lemma {:induction false} RunIsGlue(ps: seq<Piece>)
    requires ps != [] && RunLen(ps) > 1
    ensures forall k :: 0 <= k < RunLen(ps) ==> IsGlue(ps[k].atom)
    ensures forall k :: 1 <= k < RunLen(ps) ==> Sticky(ps[k - 1].atom, ps[k].atom)
  {
    if RunLen(ps[1..]) > 1 {
      RunIsGlue(ps[1..]);
      forall k | 2 <= k < RunLen(ps)
        ensures Sticky(ps[k - 1].atom, ps[k].atom)
      {
        assert ps[1..][k - 1 - 1] == ps[k - 1] && ps[1..][k - 1] == ps[k];
      }
    }
  }

  lemma {:induction false} RunTail(ps: seq<Piece>, n: nat)
    requires ps != [] && n < RunLen(ps)
    ensures RunLen(ps[n..]) == RunLen(ps) - n
  {
    if n > 0 {
      RunTail(ps[1..], n - 1);
      assert ps[1..][n - 1..] == ps[n..];
    } else {
      assert ps[0..] == ps;
    }
  }

  /** What the first chunk and the run around it look like, in the line and in its reprint. */
  lemma FirstRun(ps: seq<Piece>, qs: seq<Piece>, u: Alphabet) returns (n: nat, m: nat, g: string, h: string)
    requires ps != [] && WellScanned(ps, u) && Reprints(ps, qs)
    ensures n == ChunkLen(ps) && m == RunLen(ps) && n <= m
    ensures g == TextOf(ps[..n]) && h == TextOf(ps[n..m])
    ensures PieceTokens(ps) == Append(LexLine(g), PieceTokens(ps[n..]))
    ensures PieceTokens(qs) == Append(LexLine(g + h), PieceTokens(qs[m..]))
    ensures WellScanned(ps[n..], u) && Reprints(ps[n..], qs[n..])
  {
    n, m := ChunkLen(ps), RunLen(ps);
    RunCoversChunk(ps, u);
    RunIsPrintedChunk(ps, qs);
    g, h := TextOf(ps[..n]), TextOf(ps[n..m]);
    TextOfSplits(ps[..m], n);
    assert ps[..m][..n] == ps[..n] && ps[..m][n..] == ps[n..m];
    SameText(ps[..m], qs[..m]);
  }

  /** The rest of a run behind its first chunk is a chunk of the reprint. */
  lemma RestOfRun(ps: seq<Piece>, qs: seq<Piece>, n: nat)
    requires ps != [] && Reprints(ps, qs) && n < RunLen(ps)
    ensures PieceTokens(qs[n..]) == Append(LexLine(TextOf(ps[n..RunLen(ps)])), PieceTokens(qs[RunLen(ps)..]))
  {
    var m := RunLen(ps);
    RunTail(ps, n);
    ReprintsTail(ps, qs, n);
    ReprintedRun(ps[n..], qs[n..]);
    SliceOfRest(ps, n, m);
    SliceOfRest(qs, n, m);
  }

  lemma SliceOfRest<T>(s: seq<T>, n: nat, m: nat)
    requires n <= m <= |s|
    ensures s[n..][..m - n] == s[n..m] && s[n..][m - n..] == s[m..]
  {
  }

  lemma ReprintsTail(ps: seq<Piece>, qs: seq<Piece>, n: nat)
    requires Reprints(ps, qs) && n <= |ps|
    ensures Reprints(ps[n..], qs[n..])
  {
  }

  /** A run is one chunk of the reprint. */
  lemma ReprintedRun(ps: seq<Piece>, qs: seq<Piece>)
    requires ps != [] && Reprints(ps, qs)
    ensures RunLen(ps) <= |qs|
    ensures PieceTokens(qs) == Append(LexLine(TextOf(ps[..RunLen(ps)])), PieceTokens(qs[RunLen(ps)..]))
  {
    var m := RunLen(ps);
    RunIsPrintedChunk(ps, qs);
    SameText(ps[..m], qs[..m]);
  }

  /** Where a run goes on behind a chunk, a dot or a `?` is at the boundary. */
  lemma RunBoundary(ps: seq<Piece>, n: nat, u: Alphabet)
    requires ps != [] && WellScanned(ps, u) && 1 <= n < RunLen(ps)
    requires !IsOp(ps[n].atom, '?')
    ensures var g, h := TextOf(ps[..n]), TextOf(ps[n..RunLen(ps)]);
            && g != "" && h != "" && IsGlueText(g, u)
            && (g[|g| - 1] == '.' || g[|g| - 1] == '?' || h[0] == '.')
  {
    var m, rest := RunLen(ps), ps[n..];
    RunIsGlue(ps);
    assert Sticky(ps[n - 1].atom, ps[n].atom);
    RunText(ps, n, u);
    assert rest[..m - n] == ps[n..m];
    assert WellScanned(rest, u) by {
      WellScannedTail(ps, n, u);
    }
    RunText(rest, m - n, u);
  }

  lemma WellScannedTail(ps: seq<Piece>, n: nat, u: Alphabet)
    requires WellScanned(ps, u) && n <= |ps|
    ensures WellScanned(ps[n..], u)
  {
  }

  /** A run longer than its first chunk. */
  lemma LongerRun(ps: seq<Piece>, qs: seq<Piece>, u: Alphabet)
    requires ps != [] && WellScanned(ps, u) && Reprints(ps, qs) && PieceTokens(ps).Kinds?
    requires ChunkLen(ps) < RunLen(ps)
    ensures var n, m := ChunkLen(ps), RunLen(ps);
            var g, h := TextOf(ps[..n]), TextOf(ps[n..m]);
            && g != "" && h != "" && IsGlueText(g, u) && LexLine(g).Kinds?
            && (g[|g| - 1] == '.' || g[|g| - 1] == '?' || h[0] == '.')
            && PieceTokens(qs[n..]) == Append(LexLine(h), PieceTokens(qs[m..]))
  {
    var n := ChunkLen(ps);
    RunIsGlue(ps);
    assert ps[n..][0] == ps[n];
    RunStartsReadable(ps[n..], u);
    RunBoundary(ps, n, u);
    RestOfRun(ps, qs, n);
  }

  /** A line that lexes has no `?` at the head of a chunk. */
  lemma RunStartsReadable(ps: seq<Piece>, u: Alphabet)
    requires ps != [] && WellScanned(ps, u) && PieceTokens(ps).Kinds? && IsGlue(ps[0].atom)
    ensures !IsOp(ps[0].atom, '?')
  {
    var n := ChunkLen(ps);
    ChunkGlue(ps);
    RunText(ps, n, u);
    assert LexLine(TextOf(ps[..n])).Kinds? by {
      assert PieceTokens(ps) == Append(LexLine(TextOf(ps[..n])), PieceTokens(ps[n..]));
    }
    QuestionUnreadable(TextOf(ps[..n]));
  }

  lemma QuestionUnreadable(t: string)
    requires t != "" && LexLine(t).Kinds?
    ensures t[0] != '?'
  {
  }

  lemma {:induction false} ChunkGlue(ps: seq<Piece>)
    requires ps != [] && IsGlue(ps[0].atom)
    ensures forall k :: 0 <= k < ChunkLen(ps) ==> IsGlue(ps[k].atom)
  {
    if ChunkLen(ps) > 1 {
      ChunkGlue(ps[1..]);
    }
  }

  lemma PrefixMatters(a: Lexed, b: Lexed, c: Lexed)
    requires a.Kinds?
    ensures Append(a, b) == Append(a, c) <==> b == c
  {
    if b.Kinds? && c.Kinds? && a.kinds + b.kinds == a.kinds + c.kinds {
      assert b.kinds == (a.kinds + b.kinds)[|a.kinds|..] == (a.kinds + c.kinds)[|a.kinds|..] == c.kinds;
    }
  }

  /** The reprinted line has the same tokens exactly when nothing fuses. */
  lemma {:induction false} ReprintedTokens(ps: seq<Piece>, qs: seq<Piece>, u: Alphabet)
    requires WellScanned(ps, u) && Reprints(ps, qs) && PieceTokens(ps).Kinds?
    ensures PieceTokens(qs) == PieceTokens(ps) <==> NoFusing(ps)
    decreases |ps|
  {
    if ps != [] {
      var n, m, g, h := FirstRun(ps, qs, u);
      ReprintedTokens(ps[n..], qs[n..], u);
      PrefixMatters(LexLine(g), PieceTokens(qs[n..]), PieceTokens(ps[n..]));
      if n == m {
        assert h == "" && g + h == g;
      } else {
        LongerRun(ps, qs, u);
        if Fuses(g, h) {
          FusedDiffer(g, h, PieceTokens(ps[n..]), PieceTokens(qs[m..]), u);
        } else {
          ApartUnlessFuses(g, h, u);
          AppendAssociates(LexLine(g), LexLine(h), PieceTokens(qs[m..]));
        }
      }
    }
  }

  /** Fused texts are read differently, whatever follows. */
  lemma FusedDiffer(g: string, h: string, x: Lexed, y: Lexed, u: Alphabet)
    requires IsGlueText(g, u) && Fuses(g, h)
    requires g[|g| - 1] == '.' || g[|g| - 1] == '?' || h[0] == '.'
    requires Append(LexLine(g), x).Kinds?
    ensures Append(LexLine(g + h), y).Kinds? ==>
              Forks(Append(LexLine(g), x).kinds, Append(LexLine(g + h), y).kinds)
    ensures Append(LexLine(g), x) != Append(LexLine(g + h), y)
  {
    var j := ChangedIfFuses(g, h, u);
    if LexLine(g + h).Kinds? && y.Kinds? {
      ForksInFront(LexLine(g).kinds, LexLine(g + h).kinds, j, x.kinds, y.kinds);
    }
  }

  lemma ForksLater(c: seq<Kind>, a: seq<Kind>, b: seq<Kind>)
    requires Forks(a, b)
    ensures Forks(c + a, c + b)
  {
    var j :| 0 <= j < |a| && ForksAt(a, b, j);
    ForksBehind(c, a, b, j);
  }

  /** Where something fuses, the two streams fork, if the reprinted line lexes at all. */
  lemma {:induction false} ReprintedForks(ps: seq<Piece>, qs: seq<Piece>, u: Alphabet)
    requires WellScanned(ps, u) && Reprints(ps, qs) && PieceTokens(ps).Kinds? && PieceTokens(qs).Kinds?
    requires !NoFusing(ps)
    ensures Forks(PieceTokens(ps).kinds, PieceTokens(qs).kinds)
    decreases |ps|
  {
    var n, m, g, h := FirstRun(ps, qs, u);
    if n < m {
      LongerRun(ps, qs, u);
    }
    if n < m && Fuses(g, h) {
      FusedDiffer(g, h, PieceTokens(ps[n..]), PieceTokens(qs[m..]), u);
    } else {
      RunApart(ps, qs, u, n, m, g, h);
      ReprintedForks(ps[n..], qs[n..], u);
      ForksLater(LexLine(g).kinds, PieceTokens(ps[n..]).kinds, PieceTokens(qs[n..]).kinds);
    }
  }

  /** A run that does not fuse is read chunk by chunk in the reprint as well. */
  lemma RunApart(ps: seq<Piece>, qs: seq<Piece>, u: Alphabet, n: nat, m: nat, g: string, h: string)
    requires n <= m <= |qs| && |ps| == |qs|
    requires PieceTokens(qs) == Append(LexLine(g + h), PieceTokens(qs[m..]))
    requires if n < m then
               && g != "" && h != "" && IsGlueText(g, u) && LexLine(g).Kinds? && !Fuses(g, h)
               && PieceTokens(qs[n..]) == Append(LexLine(h), PieceTokens(qs[m..]))
             else h == ""
    ensures PieceTokens(qs) == Append(LexLine(g), PieceTokens(qs[n..]))
  {
    if n < m {
      ApartUnlessFuses(g, h, u);
      AppendAssociates(LexLine(g), LexLine(h), PieceTokens(qs[m..]));
    } else {
      assert g + h == g;
    }
  }

  // --- The pieces of a printed line ---

  function AtomsOf(ps: seq<Piece>): seq<Atom> {
    seq(|ps|, i requires 0 <= i < |ps| => ps[i].atom)
  }

  lemma {:induction false} PiecesScan(cs: string, gap: bool, u: Alphabet)
    ensures AtomsOf(Pieces(cs, gap, u)) == Scan(cs, u)
    decreases |cs|
  {
    if cs == "" {
    } else if IsBlank(cs[0]) {
      PiecesScan(cs[1..], true, u);
    } else {
      var a := FirstAtom(cs, u);
      PiecesScan(cs[|a.text|..], false, u);
      var more := Pieces(cs[|a.text|..], false, u);
      FirstPiece(cs, gap, u);
      ScanSplits(cs, u);
      assert AtomsOf([Piece(gap, a)] + more) == [a] + AtomsOf(more);
    }
  }

  lemma {:induction false} PiecesWellScanned(cs: string, gap: bool, u: Alphabet)
    ensures WellScanned(Pieces(cs, gap, u), u)
    decreases |cs|
  {
    if cs == "" {
    } else if IsBlank(cs[0]) {
      PiecesWellScanned(cs[1..], true, u);
    } else {
      var a := FirstAtom(cs, u);
      var rest := cs[|a.text|..];
      FirstAtomStandsAlone(cs, u);
      PiecesWellScanned(rest, false, u);
      FirstPiece(cs, gap, u);
      if a.Word? && rest != "" && IsBlank(rest[0]) {
        PiecesKeepGap(rest[1..], u);
      }
    }
  }

  /** The pieces of the printed text of `atoms[k..]`. */
  function Printed(atoms: seq<Atom>, k: nat): (qs: seq<Piece>)
    requires k <= |atoms|
    ensures |qs| == |atoms| - k
    decreases |atoms| - k
  {
    if k == |atoms| then [] else [PrintedPiece(atoms, k)] + Printed(atoms, k + 1)
  }

  function PrintedPiece(atoms: seq<Atom>, k: nat): Piece
    requires k < |atoms|
  {
    Piece(Lead(atoms, k) != "", atoms[k])
  }

  lemma {:induction false} PrintedAt(atoms: seq<Atom>, k: nat, i: nat)
    requires k + i < |atoms|
    ensures Printed(atoms, k)[i] == PrintedPiece(atoms, k + i)
    decreases i
  {
    PrintedStep(atoms, k, Printed(atoms, k));
    if i > 0 {
      PrintedAt(atoms, k + 1, i - 1);
    }
  }

  lemma PrintedStep(atoms: seq<Atom>, k: nat, ps: seq<Piece>)
    requires k < |atoms|
    ensures ps == Printed(atoms, k) <==> ps == [PrintedPiece(atoms, k)] + Printed(atoms, k + 1)
  {
  }

  lemma {:induction false} PiecesJoinFrom(atoms: seq<Atom>, k: nat, u: Alphabet)
    requires k <= |atoms| && Scanned(atoms, u)
    ensures Pieces(JoinFrom(atoms, k), false, u) == Printed(atoms, k)
    decreases |atoms| - k
  {
    if k < |atoms| {
      PiecesJoinFrom(atoms, k + 1, u);
      PrintedStaysApart(atoms, k, u);
      JoinedPieces(atoms, k, u);
      PrintedStep(atoms, k, Pieces(JoinFrom(atoms, k), false, u));
    }
  }

  lemma JoinedPieces(atoms: seq<Atom>, k: nat, u: Alphabet)
    requires k < |atoms| && Standalone(atoms[k], u) && StaysApart(atoms[k], JoinFrom(atoms, k + 1), u)
    ensures Pieces(JoinFrom(atoms, k), false, u) ==
            [PrintedPiece(atoms, k)] + Pieces(JoinFrom(atoms, k + 1), false, u)
  {
    PiecesThen(Lead(atoms, k), atoms[k], JoinFrom(atoms, k + 1), false, u);
  }

  lemma PiecesThen(sp: string, a: Atom, rest: string, gap: bool, u: Alphabet)
    requires |sp| <= 2 && forall i :: 0 <= i < |sp| ==> IsBlank(sp[i])
    requires Standalone(a, u) && StaysApart(a, rest, u)
    ensures Pieces(sp + a.text + rest, gap, u) == [Piece(gap || sp != "", a)] + Pieces(rest, false, u)
  {
    var body := a.text + rest;
    FirstAtomExtends(a, rest, u);
    assert body[|a.text|..] == rest && body[0] == a.text[0];
    FirstPiece(body, gap || sp != "", u);
    assert sp + a.text + rest == sp + body;
    PiecesSkip(sp, body, gap, u);
  }

  lemma {:induction false} PiecesSkip(sp: string, body: string, gap: bool, u: Alphabet)
    requires forall i :: 0 <= i < |sp| ==> IsBlank(sp[i])
    ensures Pieces(sp + body, gap, u) == Pieces(body, gap || sp != "", u)
  {
    if sp == "" {
      assert sp + body == body;
    } else {
      assert (sp + body)[1..] == sp[1..] + body;
      PiecesSkip(sp[1..], body, true, u);
    }
  }

  /**
   * The lexer reads the same tokens from a line and from its respaced form exactly when no
   * removed blank lets two texts fuse.
   */
  lemma RespaceKeepsTokens(line: string, u: Alphabet)
    requires OneLine(line) && LexLine(line).Kinds?
    ensures LexLine(Respace(line, u)) == LexLine(line) <==> NoFusing(Pieces(line, false, u))
  {
    var out := Respace(line, u);
    LexLineByPieces(line, false, u);
    JoinOneLine(line, u);
    LexLineByPieces(out, false, u);
    PiecesWellScanned(line, false, u);
    LineReprints(line, u);
    ReprintedTokens(Pieces(line, false, u), Pieces(out, false, u), u);
  }

  /** Where something fuses, the two streams fork, if the respaced line lexes. */
  lemma RespaceForks(line: string, u: Alphabet)
    requires OneLine(line) && LexLine(line).Kinds? && LexLine(Respace(line, u)).Kinds?
    requires !NoFusing(Pieces(line, false, u))
    ensures Forks(LexLine(line).kinds, LexLine(Respace(line, u)).kinds)
  {
    var out := Respace(line, u);
    LexLineByPieces(line, false, u);
    JoinOneLine(line, u);
    LexLineByPieces(out, false, u);
    PiecesWellScanned(line, false, u);
    LineReprints(line, u);
    ReprintedForks(Pieces(line, false, u), Pieces(out, false, u), u);
  }

  // --- Respacing opens no string ---

  const OPEN_STRING := Fails(UnterminatedString)

  predicate NoOpenString(ps: seq<Piece>) {
    forall k :: 0 <= k < |ps| && !IsGlue(ps[k].atom) ==> LexLine(ps[k].atom.text) != OPEN_STRING
  }

  lemma {:induction false} GlueOpensNothing(g: string, u: Alphabet)
    requires IsGlueText(g, u)
    ensures LexLine(g) != OPEN_STRING
    decreases |g|
  {
    if g != "" {
      LexSplitsOnce(g, "", u);
      assert g + "" == g;
      if ReadItem(g).Tok? {
        GlueOpensNothing(g[ReadItem(g).len..], u);
      }
    }
  }

  /** The text of the first chunk: one atom, or glue. */
  lemma ChunkText(ps: seq<Piece>, u: Alphabet)
    requires ps != [] && WellScanned(ps, u)
    ensures var t := TextOf(ps[..ChunkLen(ps)]);
            if IsGlue(ps[0].atom) then IsGlueText(t, u) else ChunkLen(ps) == 1 && t == ps[0].atom.text
  {
    if IsGlue(ps[0].atom) {
      ChunkGlue(ps);
      RunText(ps, ChunkLen(ps), u);
    } else {
      assert ps[..1][1..] == [];
    }
  }

  lemma {:induction false} ClosedPieces(ps: seq<Piece>, u: Alphabet)
    requires WellScanned(ps, u) && PieceTokens(ps).Kinds?
    ensures NoOpenString(ps)
    decreases |ps|
  {
    if ps != [] {
      var n := ChunkLen(ps);
      ChunkText(ps, u);
      WellScannedTail(ps, n, u);
      ClosedPieces(ps[n..], u);
      if IsGlue(ps[0].atom) {
        ChunkGlue(ps);
      }
      forall k | 0 <= k < |ps| && !IsGlue(ps[k].atom) ensures LexLine(ps[k].atom.text) != OPEN_STRING {
        if k >= n {
          assert ps[k] == ps[n..][k - n];
        }
      }
    }
  }

  lemma {:induction false} PiecesOpenNothing(ps: seq<Piece>, u: Alphabet)
    requires WellScanned(ps, u) && NoOpenString(ps)
    ensures PieceTokens(ps) != OPEN_STRING
    decreases |ps|
  {
    if ps != [] {
      var n := ChunkLen(ps);
      ChunkText(ps, u);
      if IsGlue(ps[0].atom) {
        GlueOpensNothing(TextOf(ps[..n]), u);
      }
      WellScannedTail(ps, n, u);
      assert forall k :: 0 <= k < |ps[n..]| ==> ps[n..][k] == ps[k + n];
      PiecesOpenNothing(ps[n..], u);
    }
  }

  lemma RespaceOpensNothing(line: string, u: Alphabet)
    requires OneLine(line) && LexLine(line).Kinds?
    ensures OneLine(Respace(line, u)) && LexLine(Respace(line, u)) != OPEN_STRING
  {
    var out := Respace(line, u);
    var ps, qs := Pieces(line, false, u), Pieces(out, false, u);
    LexLineByPieces(line, false, u);
    JoinOneLine(line, u);
    LexLineByPieces(out, false, u);
    PiecesWellScanned(line, false, u);
    PiecesWellScanned(out, false, u);
    LineReprints(line, u);
    ClosedPieces(ps, u);
    assert forall k :: 0 <= k < |qs| ==> qs[k].atom == ps[k].atom;
    PiecesOpenNothing(qs, u);
  }

  lemma LineReprints(line: string, u: Alphabet)
    ensures Reprints(Pieces(line, false, u), Pieces(Respace(line, u), false, u))
  {
    var ps, atoms := Pieces(line, false, u), Scan(line, u);
    PiecesScan(line, false, u);
    assert forall k :: 0 <= k < |ps| ==> AtomsOf(ps)[k] == ps[k].atom;
    ScanYieldsScanned(line, u);
    PiecesJoinFrom(atoms, 0, u);
    forall i | 0 <= i < |atoms| ensures Printed(atoms, 0)[i] == PrintedPiece(atoms, i) {
      PrintedAt(atoms, 0, i);
    }
    ReprintsJoin(ps, Printed(atoms, 0), atoms);
  }

  lemma ReprintsJoin(ps: seq<Piece>, qs: seq<Piece>, atoms: seq<Atom>)
    requires |ps| == |qs| == |atoms|
    requires forall k :: 0 <= k < |ps| ==> ps[k].atom == qs[k].atom == atoms[k]
    requires forall k :: 1 <= k < |qs| ==> qs[k].gap == (Lead(atoms, k) != "")
    ensures Reprints(ps, qs)
  {
    forall k | 1 <= k < |qs| && IsGlue(qs[k - 1].atom) && IsGlue(qs[k].atom)
      ensures qs[k].gap == !Sticky(qs[k - 1].atom, qs[k].atom)
    {
      GlueSpacing(k >= 2 && IsOperandEnd(atoms[k - 2]), atoms[k - 1], atoms[k]);
    }
  }

  lemma GlueSpacing(before: bool, p: Atom, c: Atom)
    requires IsGlue(p) && IsGlue(c)
    ensures Spaced(before, p, c) == !Sticky(p, c)
  {
  }

  lemma {:induction false} AtomsOneLine(cs: string, u: Alphabet)
    requires OneLine(cs)
    ensures forall k :: 0 <= k < |Scan(cs, u)| ==> OneLine(Scan(cs, u)[k].text)
    decreases |cs|
  {
    if cs == "" {
    } else if IsBlank(cs[0]) {
      AtomsOneLine(cs[1..], u);
    } else {
      AtomsOneLine(cs[|FirstAtom(cs, u).text|..], u);
    }
  }

  lemma {:induction false} JoinFromOneLine(atoms: seq<Atom>, k: nat)
    requires k <= |atoms| && forall i :: 0 <= i < |atoms| ==> OneLine(atoms[i].text)
    ensures OneLine(JoinFrom(atoms, k))
    decreases |atoms| - k
  {
    if k < |atoms| {
      JoinFromOneLine(atoms, k + 1);
    }
  }

  lemma JoinOneLine(line: string, u: Alphabet)
    requires OneLine(line)
    ensures OneLine(Respace(line, u))
  {
    AtomsOneLine(line, u);
    JoinFromOneLine(Scan(line, u), 0);
  }
}
