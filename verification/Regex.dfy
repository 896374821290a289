/**
 * The two backtracking matchers for patterns of letters and "one or more" letters:
 * one for whole names, one that searches a name for a match anywhere.
 */
module Regex {

  datatype Atom = Atom(c: char, many: bool)

  // ---------- The language of a pattern ----------

  /** A character followed by a plus stands for one or more of it. */
  function Atoms(pattern: string): seq<Atom> {
    if pattern == [] then []
    else if |pattern| > 1 && pattern[1] == '+' then [Atom(pattern[0], true)] + Atoms(pattern[2..])
    else [Atom(pattern[0], false)] + Atoms(pattern[1..])
  }

  function Lower(c: char): char {
    if 'A' <= c <= 'Z' then (c as int + 32) as char else c
  }

  /** Case is ignored.  A byte of 128 or more, sign-extended on the pattern's side only, equals nothing. */
  predicate Same(p: char, c: char) {
    p as int < 128 && c as int < 128 && Lower(p) == Lower(c)
  }

  predicate Fits(a: Atom, block: string) {
    |block| >= 1 && (a.many || |block| == 1) && forall i | 0 <= i < |block| :: Same(a.c, block[i])
  }

  function Joined(blocks: seq<string>): string {
    if blocks == [] then [] else blocks[0] + Joined(blocks[1..])
  }

  ghost predicate Decomposes(atoms: seq<Atom>, blocks: seq<string>) {
    |blocks| == |atoms| && forall i | 0 <= i < |atoms| :: Fits(atoms[i], blocks[i])
  }

  /** The strings of a pattern: one block of characters for each atom, in order. */
  ghost predicate InLanguage(pattern: string, s: string) {
    exists blocks :: Decomposes(Atoms(pattern), blocks) && Joined(blocks) == s
  }

  // ---------- The language, block by block ----------

  ghost predicate Accepts(atoms: seq<Atom>, s: string) {
    if atoms == [] then s == []
    else exists n: nat :: n <= |s| && Fits(atoms[0], s[..n]) && Accepts(atoms[1..], s[n..])
  }

  lemma {:induction false} DecomposedIsAccepted(atoms: seq<Atom>, blocks: seq<string>)
    requires Decomposes(atoms, blocks)
    ensures Accepts(atoms, Joined(blocks))
  {
    if atoms != [] {
      DecomposedIsAccepted(atoms[1..], blocks[1..]);
      var s, n := Joined(blocks), |blocks[0]|;
      assert s[..n] == blocks[0] && s[n..] == Joined(blocks[1..]);
    }
  }

  lemma {:induction false} AcceptedDecomposes(atoms: seq<Atom>, s: string) returns (blocks: seq<string>)
    requires Accepts(atoms, s)
    ensures Decomposes(atoms, blocks) && Joined(blocks) == s
  {
    if atoms == [] {
      blocks := [];
    } else {
      var n: nat :| n <= |s| && Fits(atoms[0], s[..n]) && Accepts(atoms[1..], s[n..]);
      var rest := AcceptedDecomposes(atoms[1..], s[n..]);
      blocks := [s[..n]] + rest;
      assert blocks[1..] == rest;
    }
  }

  /** Taking blocks off the front accepts exactly the language. */
  lemma AcceptsIffInLanguage(pattern: string, s: string)
    ensures Accepts(Atoms(pattern), s) <==> InLanguage(pattern, s)
  {
    if Accepts(Atoms(pattern), s) {
      var blocks := AcceptedDecomposes(Atoms(pattern), s);
    }
    if InLanguage(pattern, s) {
      var blocks :| Decomposes(Atoms(pattern), blocks) && Joined(blocks) == s;
      DecomposedIsAccepted(Atoms(pattern), blocks);
    }
  }

  // ---------- Whole names ----------

  /** A block ends before the first character that differs. */
  lemma BlockWithinRun(a: Atom, s: string, n: nat, i: nat)
    requires n <= |s| && i <= |s| && (i < |s| ==> !Same(a.c, s[i]))
    ensures Fits(a, s[..n]) ==> 1 <= n <= i
  {
    if i < n {
      assert s[..n][i] == s[i];
    }
  }

  method RegexMatch(pattern: string, filename: string) returns (ok: bool)
    ensures ok <==> InLanguage(pattern, filename)
    decreases |pattern|
  {
    ok := MatchWhole(pattern, filename);
    AcceptsIffInLanguage(pattern, filename);
  }

  method MatchWhole(pattern: string, filename: string) returns (ok: bool)
    ensures ok <==> Accepts(Atoms(pattern), filename)
    decreases |pattern|
  {
    ghost var atoms := Atoms(pattern);
    if pattern == [] {
      return filename == [];
    }
    var c := pattern[0];
    if |pattern| > 1 && pattern[1] == '+' {
      assert atoms[1..] == Atoms(pattern[2..]);
      if filename == [] || !Same(c, filename[0]) {
        return false;
      }
      var i := 0;
      while i < |filename| && Same(c, filename[i])
        invariant i <= |filename|
        invariant forall k | 0 <= k < i :: Same(c, filename[k])
        invariant forall n | 1 <= n <= i :: !Accepts(atoms[1..], filename[n..])
      {
        var rest := MatchWhole(pattern[2..], filename[i + 1..]);
        if rest {
          assert Fits(atoms[0], filename[..i + 1]);
          return true;
        }
        i := i + 1;
      }
      forall n: nat | n <= |filename| ensures Fits(atoms[0], filename[..n]) ==> 1 <= n <= i {
        BlockWithinRun(atoms[0], filename, n, i);
      }
      return false;
    } else {
      assert atoms[1..] == Atoms(pattern[1..]);
      if filename != [] && Same(c, filename[0]) {
        ok := MatchWhole(pattern[1..], filename[1..]);
        assert ok ==> Fits(atoms[0], filename[..1]);
        return;
      }
      forall n: nat | n <= |filename| ensures !Fits(atoms[0], filename[..n]) {
        BlockWithinRun(atoms[0], filename, n, 0);
      }
      return false;
    }
  }

  // ---------- Searching a name ----------

  /** Some prefix of s is accepted. */
  ghost predicate AcceptsPrefix(atoms: seq<Atom>, s: string) {
    exists n: nat :: n <= |s| && Accepts(atoms, s[..n])
  }

  lemma PrefixByBlocks(atoms: seq<Atom>, s: string)
    requires atoms != []
    ensures AcceptsPrefix(atoms, s)
       <==> exists n: nat :: n <= |s| && Fits(atoms[0], s[..n]) && AcceptsPrefix(atoms[1..], s[n..])
  {
    if AcceptsPrefix(atoms, s) {
      var e: nat :| e <= |s| && Accepts(atoms, s[..e]);
      var n: nat :| n <= e && Fits(atoms[0], s[..e][..n]) && Accepts(atoms[1..], s[..e][n..]);
      assert s[..e][..n] == s[..n] && s[..e][n..] == s[n..][..e - n];
    }
    if exists n: nat :: n <= |s| && Fits(atoms[0], s[..n]) && AcceptsPrefix(atoms[1..], s[n..]) {
      var n: nat :| n <= |s| && Fits(atoms[0], s[..n]) && AcceptsPrefix(atoms[1..], s[n..]);
      var e: nat :| e <= |s| - n && Accepts(atoms[1..], s[n..][..e]);
      assert s[..n + e][..n] == s[..n] && s[..n + e][n..] == s[n..][..e];
    }
  }

  method Match(pattern: string, filename: string) returns (ok: bool)
    ensures ok <==> AcceptsPrefix(Atoms(pattern), filename)
    decreases |pattern|
  {
    ghost var atoms := Atoms(pattern);
    if pattern == [] {
      assert Accepts(atoms, filename[..0]);
      return true;
    }
    PrefixByBlocks(atoms, filename);
    var c := pattern[0];
    if |pattern| > 1 && pattern[1] == '+' {
      assert atoms[1..] == Atoms(pattern[2..]);
      if filename == [] || !Same(c, filename[0]) {
        return false;
      }
      var i := 0;
      while i < |filename| && Same(c, filename[i])
        invariant i <= |filename|
        invariant forall k | 0 <= k < i :: Same(c, filename[k])
        invariant forall n | 1 <= n <= i :: !AcceptsPrefix(atoms[1..], filename[n..])
      {
        var rest := Match(pattern[2..], filename[i + 1..]);
        if rest {
          assert Fits(atoms[0], filename[..i + 1]);
          return true;
        }
        i := i + 1;
      }
      forall n: nat | n <= |filename| ensures Fits(atoms[0], filename[..n]) ==> 1 <= n <= i {
        BlockWithinRun(atoms[0], filename, n, i);
      }
      return false;
    } else {
      assert atoms[1..] == Atoms(pattern[1..]);
      if filename != [] && Same(c, filename[0]) {
        ok := Match(pattern[1..], filename[1..]);
        assert ok ==> Fits(atoms[0], filename[..1]);
        return;
      }
      forall n: nat | n <= |filename| ensures !Fits(atoms[0], filename[..n]) {
        BlockWithinRun(atoms[0], filename, n, 0);
      }
      return false;
    }
  }

  /** The search accepts a name exactly when the whole-name matcher accepts some part of it. */
  method Search(pattern: string, filename: string) returns (found: bool)
    ensures found <==> exists i, j :: 0 <= i <= j <= |filename| && InLanguage(pattern, filename[i..j])
  {
    var i := 0;
    while i < |filename|
      invariant i <= |filename|
      invariant forall k | 0 <= k < i :: !AcceptsPrefix(Atoms(pattern), filename[k..])
    {
      var here := Match(pattern, filename[i..]);
      if here {
        PrefixIsPart(pattern, filename, i);
        return true;
      }
      i := i + 1;
    }
    found := Match(pattern, filename[|filename|..]);
    if found {
      PrefixIsPart(pattern, filename, |filename|);
    } else {
      forall i, j | 0 <= i <= j <= |filename| ensures !InLanguage(pattern, filename[i..j]) {
        AcceptsIffInLanguage(pattern, filename[i..j]);
        assert filename[i..][..j - i] == filename[i..j];
      }
    }
  }

  lemma PrefixIsPart(pattern: string, s: string, i: nat)
    requires i <= |s| && AcceptsPrefix(Atoms(pattern), s[i..])
    ensures exists j :: i <= j <= |s| && InLanguage(pattern, s[i..j])
  {
    var n: nat :| n <= |s| - i && Accepts(Atoms(pattern), s[i..][..n]);
    assert s[i..][..n] == s[i..i + n];
    AcceptsIffInLanguage(pattern, s[i..i + n]);
  }

  // ---------- Laws of the language ----------

  function LowerAll(s: string): string {
    seq(|s|, i requires 0 <= i < |s| => Lower(s[i]))
  }

  lemma {:induction false} AtomsOfLower(pattern: string)
    ensures |Atoms(LowerAll(pattern))| == |Atoms(pattern)|
    ensures forall i | 0 <= i < |Atoms(pattern)| ::
      Atoms(LowerAll(pattern))[i] == Atom(Lower(Atoms(pattern)[i].c), Atoms(pattern)[i].many)
    decreases |pattern|
  {
    if pattern != [] {
      var k := if |pattern| > 1 && pattern[1] == '+' then 2 else 1;
      assert LowerAll(pattern)[k..] == LowerAll(pattern[k..]);
      AtomsOfLower(pattern[k..]);
    }
  }

  lemma {:induction false} JoinedLower(blocks: seq<string>) returns (lowered: seq<string>)
    ensures |lowered| == |blocks| && Joined(lowered) == LowerAll(Joined(blocks))
    ensures forall i | 0 <= i < |blocks| :: lowered[i] == LowerAll(blocks[i])
  {
    if blocks == [] {
      lowered := [];
    } else {
      var rest := JoinedLower(blocks[1..]);
      lowered := [LowerAll(blocks[0])] + rest;
      assert lowered[1..] == rest;
    }
  }

  /** Matching does not depend on the case of the pattern or of the name. */
  lemma {:induction false} CaseIsIgnored(atoms: seq<Atom>, lower: seq<Atom>, s: string)
    requires |lower| == |atoms|
    requires forall i | 0 <= i < |atoms| :: lower[i] == Atom(Lower(atoms[i].c), atoms[i].many)
    ensures Accepts(atoms, s) <==> Accepts(lower, LowerAll(s))
    decreases |atoms|
  {
    if atoms != [] {
      forall n: nat | n <= |s|
        ensures Fits(atoms[0], s[..n]) <==> Fits(lower[0], LowerAll(s)[..n])
        ensures Accepts(atoms[1..], s[n..]) <==> Accepts(lower[1..], LowerAll(s)[n..])
      {
        assert LowerAll(s)[n..] == LowerAll(s[n..]);
        CaseIsIgnored(atoms[1..], lower[1..], s[n..]);
        assert forall i | 0 <= i < n :: LowerAll(s)[..n][i] == Lower(s[..n][i]);
        FitsLower(atoms[0], s[..n], LowerAll(s)[..n]);
      }
    }
  }

  lemma FitsLower(a: Atom, block: string, lowered: string)
    requires |lowered| == |block| && forall i | 0 <= i < |block| :: lowered[i] == Lower(block[i])
    ensures Fits(a, block) <==> Fits(Atom(Lower(a.c), a.many), lowered)
  {
    forall i | 0 <= i < |block| ensures Same(a.c, block[i]) <==> Same(Lower(a.c), lowered[i]) {
    }
  }

  /** Upper and lower case are the same to a pattern and to a name. */
  lemma LanguageIgnoresCase(pattern: string, s: string)
    ensures InLanguage(pattern, s) <==> InLanguage(LowerAll(pattern), LowerAll(s))
  {
    AtomsOfLower(pattern);
    CaseIsIgnored(Atoms(pattern), Atoms(LowerAll(pattern)), s);
    AcceptsIffInLanguage(pattern, s);
    AcceptsIffInLanguage(LowerAll(pattern), LowerAll(s));
  }

  // ---------- The language in terms of characters ----------

  /** One letter in its two cases: 32 codes apart, the smaller one a capital. */
  predicate Twins(a: char, b: char) {
    ('A' <= a <= 'Z' && b as int == a as int + 32) || ('A' <= b <= 'Z' && a as int == b as int + 32)
  }

  /** What a character of a pattern stands for: below 128, itself and its twin. */
  predicate Alike(a: char, b: char) {
    a as int < 128 && b as int < 128 && (a == b || Twins(a, b))
  }

  /** A one-character pattern matches the same character and its twin, below 128, and nothing else. */
  lemma SingleCharacters(a: char, b: char)
    ensures InLanguage([a], [b]) <==> a as int < 128 && b as int < 128 && (a == b || Twins(a, b))
  {
    assert [a] + "" == [a];
    FirstOfPattern(a, "", [b]);
    EmptyPattern([b][1..]);
    SameIffTwins(a, b);
  }

  lemma SameIffTwins(a: char, b: char)
    ensures Same(a, b) <==> Alike(a, b)
  {
  }

  lemma EmptyPattern(s: string)
    ensures InLanguage("", s) <==> s == ""
  {
    AcceptsIffInLanguage("", s);
  }

  /** A character without a plus behind it takes one character of the name. */
  lemma FirstOfPattern(a: char, q: string, s: string)
    requires q == "" || q[0] != '+'
    ensures InLanguage([a] + q, s)
       <==> s != "" && Alike(a, s[0]) && InLanguage(q, s[1..])
  {
    AcceptsIffInLanguage([a] + q, s);
    var atoms := Atoms([a] + q);
    assert ([a] + q)[1..] == q;
    assert atoms == [Atom(a, false)] + Atoms(q) && atoms[1..] == Atoms(q);
    forall n: nat | n <= |s| ensures Fits(atoms[0], s[..n]) <==> n == 1 && Same(a, s[0]) {
      assert n == 1 ==> s[..n][0] == s[0];
    }
    if s != "" {
      AcceptsIffInLanguage(q, s[1..]);
      SameIffTwins(a, s[0]);
      assert Fits(atoms[0], s[..1]) <==> Same(a, s[0]);
    }
  }

  /** The first n characters of a name are each the character or its twin. */
  predicate Run(a: char, s: string, n: nat)
    requires n <= |s|
  {
    forall i | 0 <= i < n :: Alike(a, s[i])
  }

  lemma FitsIffRun(a: char, s: string, n: nat)
    requires n <= |s|
    ensures Fits(Atom(a, true), s[..n]) <==> 1 <= n && Run(a, s, n)
  {
    var block := s[..n];
    if Fits(Atom(a, true), block) {
      forall i | 0 <= i < n ensures Alike(a, s[i]) {
        assert Same(a, block[i]);
        SameIffTwins(a, s[i]);
      }
    }
    if Run(a, s, n) {
      forall i | 0 <= i < n ensures Same(a, block[i]) {
        assert block[i] == s[i];
        SameIffTwins(a, s[i]);
      }
    }
  }

  /** A character with a plus behind it takes one or more characters of the name. */
  lemma FirstRunOfPattern(a: char, q: string, s: string)
    ensures InLanguage([a, '+'] + q, s)
       <==> exists n: nat :: 1 <= n <= |s| && Run(a, s, n) && InLanguage(q, s[n..])
  {
    AcceptsIffInLanguage([a, '+'] + q, s);
    var atoms := Atoms([a, '+'] + q);
    assert ([a, '+'] + q)[2..] == q;
    assert atoms == [Atom(a, true)] + Atoms(q) && atoms[1..] == Atoms(q);
    forall n: nat | n <= |s|
      ensures Fits(atoms[0], s[..n]) <==> 1 <= n && Run(a, s, n)
      ensures Accepts(atoms[1..], s[n..]) <==> InLanguage(q, s[n..])
    {
      AcceptsIffInLanguage(q, s[n..]);
      FitsIffRun(a, s, n);
    }
  }

  function Decapitalized(c: char): char
    requires 'A' <= c <= 'Z'
  {
    (c as int + 32) as char
  }

  lemma SameWhenLowered(p: string, q: string, s: string, t: string)
    requires LowerAll(p) == LowerAll(q) && LowerAll(s) == LowerAll(t)
    ensures InLanguage(p, s) <==> InLanguage(q, t)
  {
    LanguageIgnoresCase(p, s);
    LanguageIgnoresCase(q, t);
  }

  /** A capital may be replaced by its small letter, anywhere in the pattern and anywhere in the name. */
  lemma CapitalsDoNotMatter(pattern: string, s: string, i: nat)
    ensures i < |pattern| && 'A' <= pattern[i] <= 'Z' ==>
      (InLanguage(pattern, s) <==> InLanguage(pattern[i := Decapitalized(pattern[i])], s))
    ensures i < |s| && 'A' <= s[i] <= 'Z' ==>
      (InLanguage(pattern, s) <==> InLanguage(pattern, s[i := Decapitalized(s[i])]))
  {
    if i < |pattern| && 'A' <= pattern[i] <= 'Z' {
      var p := pattern[i := Decapitalized(pattern[i])];
      assert LowerAll(p) == LowerAll(pattern);
      SameWhenLowered(pattern, p, s, s);
    }
    if i < |s| && 'A' <= s[i] <= 'Z' {
      var t := s[i := Decapitalized(s[i])];
      assert LowerAll(t) == LowerAll(s);
      SameWhenLowered(pattern, pattern, s, t);
    }
  }

  // ---------- Patterns in a row ----------

  lemma {:induction false} AtomsConcat(p: string, q: string)
    requires q != [] ==> q[0] != '+'
    ensures Atoms(p + q) == Atoms(p) + Atoms(q)
    decreases |p|
  {
    if p == [] {
      assert p + q == q;
    } else {
      var k := if |p| > 1 && p[1] == '+' then 2 else 1;
      assert (p + q)[k..] == p[k..] + q;
      AtomsConcat(p[k..], q);
    }
  }

  lemma {:induction false} JoinedConcat(a: seq<string>, b: seq<string>)
    ensures Joined(a + b) == Joined(a) + Joined(b)
  {
    if a == [] {
      assert a + b == b;
    } else {
      assert (a + b)[1..] == a[1..] + b;
      JoinedConcat(a[1..], b);
    }
  }

  lemma DecompositionSplits(x: seq<Atom>, y: seq<Atom>, blocks: seq<string>) returns (a: seq<string>, b: seq<string>)
    requires Decomposes(x + y, blocks)
    ensures blocks == a + b && Decomposes(x, a) && Decomposes(y, b)
  {
    a, b := blocks[..|x|], blocks[|x|..];
    forall i | 0 <= i < |y| ensures Fits(y[i], b[i]) {
      assert (x + y)[|x| + i] == y[i];
    }
    forall i | 0 <= i < |x| ensures Fits(x[i], a[i]) {
      assert (x + y)[i] == x[i];
    }
  }

  lemma ConcatSplits(p: string, q: string, s: string) returns (n: nat)
    requires (q != [] ==> q[0] != '+') && InLanguage(p + q, s)
    ensures n <= |s| && InLanguage(p, s[..n]) && InLanguage(q, s[n..])
  {
    AtomsConcat(p, q);
    var blocks :| Decomposes(Atoms(p + q), blocks) && Joined(blocks) == s;
    var a, b := DecompositionSplits(Atoms(p), Atoms(q), blocks);
    JoinedConcat(a, b);
    n := |Joined(a)|;
    assert s[..n] == Joined(a) && s[n..] == Joined(b);
  }

  lemma SplitsConcat(p: string, q: string, s: string, n: nat)
    requires (q != [] ==> q[0] != '+') && n <= |s| && InLanguage(p, s[..n]) && InLanguage(q, s[n..])
    ensures InLanguage(p + q, s)
  {
    AtomsConcat(p, q);
    var a :| Decomposes(Atoms(p), a) && Joined(a) == s[..n];
    var b :| Decomposes(Atoms(q), b) && Joined(b) == s[n..];
    JoinedConcat(a, b);
    assert s[..n] + s[n..] == s;
    assert Decomposes(Atoms(p + q), a + b);
  }

  /** Two patterns in a row match a name exactly when it can be cut in two that they match. */
  lemma LanguageOfConcat(p: string, q: string, s: string)
    requires q != [] ==> q[0] != '+'
    ensures InLanguage(p + q, s)
       <==> exists n: nat :: n <= |s| && InLanguage(p, s[..n]) && InLanguage(q, s[n..])
  {
    if InLanguage(p + q, s) {
      var n := ConcatSplits(p, q, s);
    }
    if n: nat :| n <= |s| && InLanguage(p, s[..n]) && InLanguage(q, s[n..]) {
      SplitsConcat(p, q, s, n);
    }
  }
}
