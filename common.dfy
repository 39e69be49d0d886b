/**
 * The text normaliser `norm` and the two-way containment test `any_match`
 * of src/common.py. The crawlers carry inline copies of `norm`; they all
 * use `NormWith` below, with the character class their regular expression
 * folds.
 */
module Common {
  import opened Text
  import opened Folding

  /**
   * `norm` (src/common.py): its output has none of `- ( ) [ ] { } / \`,
   * no whitespace but the plain space, and never two spaces in a row.
   */
  function Norm(s: string): (r: string)
    ensures forall i :: 0 <= i < |r| ==> !IsBracketOrDash(r[i]) && !IsSlash(r[i])
    ensures forall i :: 0 <= i < |r| ==> IsSpace(r[i]) ==> r[i] == ' '
    ensures NoDoubleSpace(r)
    ensures s == "" ==> r == ""
  {
    var r := NormWith(s, Separators);
    NormWithFolded(s, Separators);
    FoldedSeparators(r);
    r
  }

  /** On a lower-case folded string, `norm` only strips. */
  lemma NormOfFolded(x: string, cls: CharClass)
    requires Folded(x, cls) && IsLower(x)
    ensures NormWith(x, cls) == Strip(x)
  {
    var y := Strip(x);
    assert Lower(x) == x by { LowerOfLower(x); }
    var off := StripOffset(x);
    StripInfix(x);
    FoldedInfix(x, cls, off, off + |y|);
    assert FoldRuns(y, cls) == y by { FoldRunsOfFolded(y, cls); }
    assert FoldRuns(y, Whitespace) == y by {
      FoldedWhitespace(y, cls);
      FoldRunsOfFolded(y, Whitespace);
    }
  }

  /**
   * `norm` is not idempotent, because it strips before it folds: a second
   * application only strips the once-normalised string.
   */
  lemma NormTwice(s: string, cls: CharClass)
    ensures NormWith(NormWith(s, cls), cls) == Strip(NormWith(s, cls))
  {
    NormWithFolded(s, cls);
    NormOfFolded(NormWith(s, cls), cls);
  }

  /** A bracket or dash before a lower-case letter folds into a space. */
  lemma FoldSeparatorFirst(c: char, d: char)
    requires IsBracketOrDash(c) && 'a' <= d <= 'z'
    ensures FoldRuns([c, d], Separators) == [' ', d]
  {
    assert [c, d][1..] == [d];
    assert SkipRun([d], Separators) == [d];
    assert Folded([d], Separators);
    FoldRunsOfFolded([d], Separators);
  }

  /**
   * A separator followed by a lower-case letter: `norm` turns the
   * separator into a space and, having stripped before folding, keeps it.
   */
  lemma NormSeparatorFirst(c: char, d: char)
    requires IsBracketOrDash(c) && 'a' <= d <= 'z'
    ensures Norm([c, d]) == [' ', d]
  {
    var s := [c, d];
    assert Lower(s) == s;
    StripNoOp(s);
    FoldSeparatorFirst(c, d);
    assert Folded([' ', d], Whitespace);
    FoldRunsOfFolded([' ', d], Whitespace);
  }

  /** `norm` of a space and a lower-case letter strips the space. */
  lemma NormSpaceFirst(d: char)
    requires 'a' <= d <= 'z'
    ensures Norm([' ', d]) == [d]
  {
    var s := [' ', d];
    assert Folded(s, Separators) && IsLower(s);
    NormOfFolded(s, Separators);
    assert TrimStart(s) == [d] by {
      assert s[1..] == [d];
    }
    StripNoOp([d]);
  }

  /** The witness: `norm("(a")` is `" a"`, whose `norm` is `"a"`. */
  lemma NormNotIdempotent()
    ensures Norm("(a") == " a" && Norm(" a") == "a"
    ensures Norm(Norm("(a")) != Norm("(a")
  {
    NormSeparatorFirst('(', 'a');
    NormSpaceFirst('a');
  }

  /**
   * `any_match(q, candidates)`: some candidate, normalised, contains the
   * normalised query or is contained in it. The loop returns at the first
   * candidate that passes.
   */
  function AnyMatch(q: string, candidates: seq<string>): (r: bool)
    ensures candidates == [] ==> !r
    ensures r ==> exists i :: 0 <= i < |candidates| && Mutual(Norm(q), Norm(candidates[i]))
  {
    if candidates == [] then false
    else
      var qn := Norm(q);
      var cn := Norm(candidates[0]);
      if Contains(cn, qn) || Contains(qn, cn) then true
      else AnyMatch(q, candidates[1..])
  }

  /** `any_match` holds exactly when some candidate passes the two-way test. */
  lemma {:induction false} AnyMatchSome(q: string, candidates: seq<string>)
    ensures AnyMatch(q, candidates) <==>
      exists i :: 0 <= i < |candidates| && Mutual(Norm(q), Norm(candidates[i]))
  {
    if candidates != [] {
      AnyMatchSome(q, candidates[1..]);
      if exists i :: 0 <= i < |candidates[1..]| && Mutual(Norm(q), Norm(candidates[1..][i])) {
        var i :| 0 <= i < |candidates[1..]| && Mutual(Norm(q), Norm(candidates[1..][i]));
        assert candidates[i + 1] == candidates[1..][i];
      }
      if exists i :: 0 <= i < |candidates| && Mutual(Norm(q), Norm(candidates[i])) {
        var i :| 0 <= i < |candidates| && Mutual(Norm(q), Norm(candidates[i]));
        if i > 0 {
          assert candidates[1..][i - 1] == candidates[i];
        }
      }
    }
  }

  /** With one candidate on each side the test is symmetric. */
  lemma AnyMatchSymmetric(q: string, c: string)
    ensures AnyMatch(q, [c]) == AnyMatch(c, [q])
  {
    assert [c][1..] == [] && [q][1..] == [];
  }
}
