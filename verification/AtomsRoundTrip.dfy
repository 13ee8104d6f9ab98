/** Scanning undoes printing, so respacing a line is idempotent. */
module AtomsRoundTrip {
  import opened Chars
  import opened Atoms

  /** `a` is exactly what scanning finds in its own text. */
  predicate Standalone(a: Atom, u: Alphabet) {
    a.text != "" && !IsBlank(a.text[0]) && FirstAtom(a.text, u) == a
  }

  /** Nothing can follow `a` on its line: a comment, or a string left open. */
  predicate RunsToEnd(a: Atom) {
    a.Comment? || (a.Str? && a.text != "" && !StrCloses(a.text[1..]))
  }

  /** No character of `r` is drawn into `a` when `r` follows it directly. */
  predicate StaysApart(a: Atom, r: string, u: Alphabet) {
    r != "" ==>
      && !RunsToEnd(a)
      && (a.Word? ==> !IsWordChar(r[0], u))
      && (a.Op? && |a.text| == 1 ==> !IsDouble(a.text[0], r[0]) && !(a.text[0] == '*' && |r| > 1 && r[0] == r[1] == '>'))
  }

  lemma {:induction false} StrLenIsWhole(cs: string)
    ensures StrLen(cs[..StrLen(cs)]) == StrLen(cs)
    ensures StrCloses(cs) == StrCloses(cs[..StrLen(cs)])
    ensures !StrCloses(cs) ==> StrLen(cs) == |cs|
  {
    if cs == "" || cs[0] == '"' {
    } else {
      var n := if cs[0] == '\\' && |cs| > 1 then 2 else 1;
      if cs[0] != '\\' || |cs| > 1 {
        StrLenIsWhole(cs[n..]);
        assert cs[..StrLen(cs)][n..] == cs[n..][..StrLen(cs) - n];
      }
    }
  }

  lemma {:induction false} StrLenExtends(cs: string, r: string)
    requires StrCloses(cs)
    ensures StrLen(cs + r) == StrLen(cs)
  {
    if cs[0] != '"' {
      var n := if cs[0] == '\\' then 2 else 1;
      assert (cs + r)[n..] == cs[n..] + r;
      StrLenExtends(cs[n..], r);
    }
  }

  lemma {:induction false} WordLenOf(cs: string, n: nat, u: Alphabet)
    requires n <= |cs|
    requires forall i :: 0 <= i < n ==> IsWordChar(cs[i], u)
    requires n < |cs| ==> !IsWordChar(cs[n], u)
    ensures WordLen(cs, u) == n
  {
    if n > 0 {
      WordLenOf(cs[1..], n - 1, u);
    }
  }

  /** Every scanned atom is found again in its own text; one that is not closed ends the line. */
  lemma FirstAtomStandsAlone(cs: string, u: Alphabet)
    requires cs != "" && !IsBlank(cs[0])
    ensures Standalone(FirstAtom(cs, u), u)
    ensures RunsToEnd(FirstAtom(cs, u)) ==> FirstAtom(cs, u).text == cs
  {
    var t := FirstAtom(cs, u).text;
    assert t[0] == cs[0];
    if cs[0] == '"' {
      StrLenIsWhole(cs[1..]);
      assert t[1..] == cs[1..][..StrLen(cs[1..])];
    } else if cs[0] != '#' && IsWordChar(cs[0], u) {
      WordLenOf(t, |t|, u);
    }
  }

  lemma FirstAtomExtends(a: Atom, r: string, u: Alphabet)
    requires Standalone(a, u) && StaysApart(a, r, u)
    ensures FirstAtom(a.text + r, u) == a
  {
    var t := a.text;
    if r == "" {
      assert t + r == t;
    } else {
      assert (t + r)[..|t|] == t;
      match a
      case Str(_) =>
        StrLenExtends(t[1..], r);
        assert (t + r)[1..] == t[1..] + r;
      case Word(_) =>
        WordLenOf(t + r, |t|, u);
      case Op(_) =>
      case Comment(_) =>
    }
  }

  /** What scanning yields: atoms that stand alone, with open-ended ones only at the end. */
  predicate Scanned(atoms: seq<Atom>, u: Alphabet) {
    && (forall k :: 0 <= k < |atoms| ==> Standalone(atoms[k], u))
    && (forall k :: 0 <= k < |atoms| - 1 ==> !RunsToEnd(atoms[k]))
  }

  lemma {:induction false} ScanYieldsScanned(cs: string, u: Alphabet)
    ensures Scanned(Scan(cs, u), u)
    decreases |cs|
  {
    if cs == "" {
    } else if IsBlank(cs[0]) {
      ScanYieldsScanned(cs[1..], u);
    } else {
      var a := FirstAtom(cs, u);
      FirstAtomStandsAlone(cs, u);
      ScanYieldsScanned(cs[|a.text|..], u);
      ScanSplits(cs, u);
    }
  }

  /** An atom printed tight against its predecessor does not fuse with it. */
  lemma TightAtomsStayApart(before: bool, p: Atom, c: Atom, u: Alphabet)
    requires Standalone(p, u) && Standalone(c, u) && !RunsToEnd(p) && !c.Comment?
    requires !Spaced(before, p, c)
    ensures forall r :: StaysApart(p, c.text + r, u)
  {
    assert c.Op? ==> c.text == c.text[..OpLen(c.text)];
  }

  /** What is printed after `atoms[k]` never fuses with it. */
  lemma PrintedStaysApart(atoms: seq<Atom>, k: nat, u: Alphabet)
    requires k < |atoms| && Scanned(atoms, u)
    ensures StaysApart(atoms[k], JoinFrom(atoms, k + 1), u)
  {
    if k + 1 < |atoms| {
      var lead, rest := Lead(atoms, k + 1), JoinFrom(atoms, k + 2);
      assert JoinFrom(atoms, k + 1) == lead + (atoms[k + 1].text + rest);
      if lead == "" {
        TightAtomsStayApart(k >= 1 && IsOperandEnd(atoms[k - 1]), atoms[k], atoms[k + 1], u);
        assert lead + (atoms[k + 1].text + rest) == atoms[k + 1].text + rest;
      }
    }
  }

  lemma ScanThen(sp: string, a: Atom, rest: string, u: Alphabet)
    requires forall i :: 0 <= i < |sp| ==> IsBlank(sp[i])
    requires Standalone(a, u) && StaysApart(a, rest, u)
    ensures Scan(sp + a.text + rest, u) == [a] + Scan(rest, u)
  {
    var body := a.text + rest;
    FirstAtomExtends(a, rest, u);
    assert body[|a.text|..] == rest && body[0] == a.text[0];
    ScanSplits(body, u);
    assert sp + a.text + rest == sp + body;
    ScanDropsSpaces(sp, body, u);
  }

  lemma {:induction false} ScanJoinFrom(atoms: seq<Atom>, k: nat, u: Alphabet)
    requires k <= |atoms| && Scanned(atoms, u)
    ensures Scan(JoinFrom(atoms, k), u) == atoms[k..]
    decreases |atoms| - k
  {
    if k < |atoms| {
      ScanJoinFrom(atoms, k + 1, u);
      PrintedStaysApart(atoms, k, u);
      ScanThen(Lead(atoms, k), atoms[k], JoinFrom(atoms, k + 1), u);
    }
  }

  lemma {:induction false} ScanDropsSpaces(sp: string, cs: string, u: Alphabet)
    requires forall i :: 0 <= i < |sp| ==> IsBlank(sp[i])
    ensures Scan(sp + cs, u) == Scan(cs, u)
  {
    if sp == "" {
      assert sp + cs == cs;
    } else {
      assert (sp + cs)[1..] == sp[1..] + cs;
      ScanSkips(sp + cs, u);
      ScanDropsSpaces(sp[1..], cs, u);
    }
  }

  /** Printing the atoms of any line and scanning the result gives the same atoms. */
  lemma ScanUndoesJoin(line: string, u: Alphabet)
    ensures Scan(Join(Scan(line, u)), u) == Scan(line, u)
  {
    ScanYieldsScanned(line, u);
    ScanJoinFrom(Scan(line, u), 0, u);
  }

  lemma RespaceIdempotent(line: string, u: Alphabet)
    ensures Respace(Respace(line, u), u) == Respace(line, u)
  {
    ScanUndoesJoin(line, u);
  }
}
