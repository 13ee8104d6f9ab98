/**
 * Where the formatter puts blanks (src/formatter.rs, `separator`): the blanks between the
 * atoms of a printed line, as they stand in the text, follow the house style.
 */
module HouseStyle {
  import opened Chars
  import opened Atoms
  import opened AtomsRoundTrip

  // --- The blanks of a text ---

  function BlankRun(cs: string): (n: nat)
    ensures n <= |cs| && forall i :: 0 <= i < n ==> IsBlank(cs[i])
    ensures n < |cs| ==> !IsBlank(cs[n])
  {
    if cs == "" || !IsBlank(cs[0]) then 0 else 1 + BlankRun(cs[1..])
  }

  /** The blanks in front of each atom of a line. */
  function Gaps(cs: string, u: Alphabet): seq<string>
    decreases |cs|
  {
    var n := BlankRun(cs);
    if n == |cs| then [] else [cs[..n]] + Gaps(cs[n + |FirstAtom(cs[n..], u).text|..], u)
  }

  lemma {:induction false} RunOf(sp: string, cs: string)
    requires (forall i :: 0 <= i < |sp| ==> IsBlank(sp[i])) && cs != "" && !IsBlank(cs[0])
    ensures BlankRun(sp + cs) == |sp|
  {
    if sp == "" {
      assert sp + cs == cs;
    } else {
      assert (sp + cs)[1..] == sp[1..] + cs;
      RunOf(sp[1..], cs);
    }
  }

  /** What is printed in front of the atoms from number `k` on. */
  function Leads(atoms: seq<Atom>, k: nat): (gs: seq<string>)
    ensures k <= |atoms| ==> |gs| == |atoms| - k
    decreases |atoms| - k
  {
    if k >= |atoms| then [] else [Lead(atoms, k)] + Leads(atoms, k + 1)
  }

  lemma {:induction false} LeadsAt(atoms: seq<Atom>, k: nat, i: nat)
    requires k <= i < |atoms|
    ensures Leads(atoms, k)[i - k] == Lead(atoms, i)
    decreases i - k
  {
    if k < i {
      LeadsAt(atoms, k + 1, i);
      assert Leads(atoms, k)[i - k] == Leads(atoms, k + 1)[i - (k + 1)];
    }
  }

  /** The blanks in the printed text of the atoms from number `k` on. */
  function PrintedGaps(atoms: seq<Atom>, k: nat, u: Alphabet): seq<string>
  {
    if k <= |atoms| then Gaps(JoinFrom(atoms, k), u) else []
  }

  /** Induction from `n` down to `k`. */
  lemma {:induction false} Downward(f: nat -> seq<string>, g: nat -> seq<string>, n: nat, k: nat)
    requires k <= n && f(n) == g(n) && forall i: nat :: i < n && f(i + 1) == g(i + 1) ==> f(i) == g(i)
    ensures f(k) == g(k)
    decreases n - k
  {
    if k < n {
      Downward(f, g, n, k + 1);
    }
  }

  lemma GapsOfPrinted(atoms: seq<Atom>, k: nat, u: Alphabet)
    requires k <= |atoms| && Scanned(atoms, u)
    ensures PrintedGaps(atoms, k, u) == Leads(atoms, k)
  {
    EachGapMore(atoms, u);
    NoGapLeft(atoms, u);
    Downward((i: nat) => PrintedGaps(atoms, i, u), (i: nat) => Leads(atoms, i), |atoms|, k);
  }

  lemma EachGapMore(atoms: seq<Atom>, u: Alphabet)
    requires Scanned(atoms, u)
    ensures forall i: nat :: i < |atoms| && PrintedGaps(atoms, i + 1, u) == Leads(atoms, i + 1) ==>
              PrintedGaps(atoms, i, u) == Leads(atoms, i)
  {
    forall i: nat | i < |atoms| && PrintedGaps(atoms, i + 1, u) == Leads(atoms, i + 1)
      ensures PrintedGaps(atoms, i, u) == Leads(atoms, i)
    {
      OneGapMore(atoms, i, u);
    }
  }

  lemma NoGapLeft(atoms: seq<Atom>, u: Alphabet)
    ensures PrintedGaps(atoms, |atoms|, u) == Leads(atoms, |atoms|)
  {
    assert JoinFrom(atoms, |atoms|) == "";
  }

  lemma OneGapMore(atoms: seq<Atom>, k: nat, u: Alphabet)
    requires k < |atoms| && Scanned(atoms, u)
    requires PrintedGaps(atoms, k + 1, u) == Leads(atoms, k + 1)
    ensures PrintedGaps(atoms, k, u) == Leads(atoms, k)
  {
    PrintedStaysApart(atoms, k, u);
    LeadBlank(atoms, k);
    FirstGap(Lead(atoms, k), atoms[k], JoinFrom(atoms, k + 1), u);
  }

  lemma LeadBlank(atoms: seq<Atom>, k: nat)
    requires k < |atoms|
    ensures forall i :: 0 <= i < |Lead(atoms, k)| ==> IsBlank(Lead(atoms, k)[i])
  {
  }

  lemma FirstGap(lead: string, a: Atom, rest: string, u: Alphabet)
    requires forall i :: 0 <= i < |lead| ==> IsBlank(lead[i])
    requires Standalone(a, u) && StaysApart(a, rest, u)
    ensures Gaps(lead + a.text + rest, u) == [lead] + Gaps(rest, u)
  {
    var text, body := lead + a.text + rest, a.text + rest;
    FirstAtomExtends(a, rest, u);
    assert text == lead + body && body[0] == a.text[0];
    RunOf(lead, body);
    assert text[|lead|..] == body && text[..|lead|] == lead;
    assert text[|lead| + |a.text|..] == rest;
  }

  // --- The style ---

  /** The atom is one of these characters, as an operator. */
  predicate Is(a: Atom, cs: set<char>) {
    a.Op? && |a.text| == 1 && a.text[0] in cs
  }

  /** Words but for the operators among them, texts, and closing brackets end an operand. */
  predicate EndsOperand(a: Atom) {
    (a.Word? && a.text !in {"and", "or", "not", "in"}) || a.Str? || Is(a, {')', ']', '}'})
  }

  /** The operators between two operands; `+` and `-` are signs elsewhere. */
  predicate IsBinary(a: Atom, behindOperand: bool) {
    || Is(a, {'=', '<', '>', '*', '/', '%'})
    || (a.Op? && a.text in {"==", "!=", ">=", "<=", ">>", "->", "=>", "*>>"})
    || (Is(a, {'+', '-'}) && behindOperand)
  }

  /** `p` is followed by `c`, and `before` says whether an operand ends in front of `p`. */
  datatype Place = Place(before: bool, p: Atom, c: Atom)

  function PlaceOf(atoms: seq<Atom>, k: nat): Place
    requires 1 <= k < |atoms|
  {
    Place(k > 1 && EndsOperand(atoms[k - 2]), atoms[k - 1], atoms[k])
  }

  /** A blank never stands around `.` and `?`, behind `(` and `[`, or in front of `)`, `]`, `,` and `:`. */
  predicate NeverBlank(at: Place) {
    || Is(at.p, {'.', '?', '(', '['})
    || Is(at.c, {'.', '?', ')', ']', ',', ':'})
  }

  /** Braces without content. */
  predicate EmptyBraces(at: Place) {
    Is(at.p, {'{'}) && Is(at.c, {'}'})
  }

  /** A comma, a colon or a brace on either side, or a binary operator, asks for a blank. */
  predicate AsksForBlank(at: Place) {
    || Is(at.p, {',', ':', '{'}) || Is(at.c, {'}'})
    || IsBinary(at.c, EndsOperand(at.p)) || IsBinary(at.p, at.before)
  }

  predicate IsSignAt(at: Place) {
    Is(at.p, {'+', '-'}) && !at.before
  }

  lemma BinaryIsSpaced(a: Atom, behindOperand: bool, u: Alphabet)
    requires Standalone(a, u)
    ensures IsBinary(a, behindOperand) <==> IsBinarySpaced(a, behindOperand)
  {
    if a.Op? {
      assert a.text == a.text[..OpLen(a.text)];
      assert |a.text| == 2 ==> a.text == [a.text[0], a.text[1]];
      assert |a.text| == 3 ==> a.text == [a.text[0], a.text[1], a.text[2]];
    }
  }

  lemma OperandEnds(a: Atom)
    ensures EndsOperand(a) <==> IsOperandEnd(a)
  {
  }

  /**
   * The style of one gap, for all neighbours: none where a blank never stands; one where it
   * is asked for; none in front of an opening bracket that calls or indexes, and one in
   * front of any other; none behind a sign; one everywhere else.
   */
  predicate InStyle(at: Place, gap: string) {
    && (at.c.Comment? <==> gap == "  ")
    && (!at.c.Comment? ==>
          && gap in {"", " "}
          && (NeverBlank(at) || EmptyBraces(at) ==> gap == "")
          && (!NeverBlank(at) && !EmptyBraces(at) && AsksForBlank(at) && !Is(at.c, {'(', '['}) ==> gap == " ")
          && (!NeverBlank(at) && Is(at.p, {',', ':', '{'}) && !EmptyBraces(at) ==> gap == " ")
          && (!NeverBlank(at) && Is(at.c, {'(', '['}) && !Is(at.p, {',', ':', '{'}) ==>
                (gap == "" <==> EndsOperand(at.p)))
          && (IsSignAt(at) && !Is(at.c, {'(', '[', '}'}) && !IsBinary(at.c, false) ==> gap == "")
          && (!NeverBlank(at) && !EmptyBraces(at) && !IsSignAt(at) && !Is(at.c, {'(', '['}) ==> gap == " "))
  }

  /** The same decision, taken by the classes above. */
  predicate BlankAt(at: Place) {
    && !NeverBlank(at) && !EmptyBraces(at)
    && if Is(at.p, {',', ':', '{'}) || Is(at.c, {'}'}) then true
       else if Is(at.c, {'(', '['}) then !EndsOperand(at.p)
       else IsBinary(at.c, EndsOperand(at.p)) || IsBinary(at.p, at.before) || !IsSignAt(at)
  }

  lemma SpacedAt(at: Place, u: Alphabet)
    requires Standalone(at.p, u) && Standalone(at.c, u)
    ensures Spaced(at.before, at.p, at.c) <==> BlankAt(at)
  {
    BinaryIsSpaced(at.p, at.before, u);
    BinaryIsSpaced(at.c, EndsOperand(at.p), u);
    OperandEnds(at.p);
  }

  lemma BlankInStyle(at: Place)
    requires !at.c.Comment?
    ensures InStyle(at, if BlankAt(at) then " " else "")
  {
    assert IsSignAt(at) ==> !EndsOperand(at.p) && !IsBinary(at.p, at.before);
  }

  lemma SpacedInStyle(at: Place, u: Alphabet)
    requires Standalone(at.p, u) && Standalone(at.c, u) && !at.c.Comment?
    ensures InStyle(at, if Spaced(at.before, at.p, at.c) then " " else "")
  {
    SpacedAt(at, u);
    BlankInStyle(at);
  }

  lemma LeadInStyle(atoms: seq<Atom>, k: nat, u: Alphabet)
    requires Scanned(atoms, u) && 1 <= k < |atoms|
    ensures InStyle(PlaceOf(atoms, k), Lead(atoms, k))
  {
    assert Standalone(atoms[k - 1], u) && Standalone(atoms[k], u);
    if k > 1 {
      OperandEnds(atoms[k - 2]);
    }
    if !atoms[k].Comment? {
      SpacedInStyle(PlaceOf(atoms, k), u);
    }
  }

  /**
   * The house style, for every line: the printed text has the atoms of the line, no blank in
   * front of the first, and in front of every other the blanks that its neighbours call for.
   */
  lemma PrintedInStyle(line: string, u: Alphabet)
    ensures var out, atoms := Respace(line, u), Scan(line, u);
            && Scan(out, u) == atoms && |Gaps(out, u)| == |atoms|
            && (atoms != [] ==> Gaps(out, u)[0] == "")
            && forall k :: 1 <= k < |atoms| ==> InStyle(PlaceOf(atoms, k), Gaps(out, u)[k])
  {
    var atoms := Scan(line, u);
    ScanUndoesJoin(line, u);
    ScanYieldsScanned(line, u);
    GapsOfPrinted(atoms, 0, u);
    if atoms != [] {
      LeadsAt(atoms, 0, 0);
    }
    forall k | 1 <= k < |atoms| ensures InStyle(PlaceOf(atoms, k), Gaps(Respace(line, u), u)[k]) {
      LeadInStyle(atoms, k, u);
      LeadsAt(atoms, 0, k);
    }
  }

  /** A sign in front of a bracket is not tight: `-(` is printed with a blank, as if the sign were an operator. */
  lemma SignBeforeBracket(line: string, k: nat, u: Alphabet)
    requires var atoms := Scan(line, u);
             1 <= k < |atoms| && IsSignAt(PlaceOf(atoms, k)) && Is(atoms[k], {'(', '['})
    ensures |Gaps(Respace(line, u), u)| == |Scan(line, u)| && Gaps(Respace(line, u), u)[k] == " "
  {
    PrintedInStyle(line, u);
    SignInStyle(PlaceOf(Scan(line, u), k), Gaps(Respace(line, u), u)[k]);
  }

  lemma SignInStyle(at: Place, gap: string)
    requires InStyle(at, gap) && IsSignAt(at) && Is(at.c, {'(', '['})
    ensures gap == " "
  {
  }
}
