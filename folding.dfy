/**
 * The regular-expression folding step of `norm`: `re.sub(r"[<class>]+", " ", s)`
 * replaces every maximal run of characters of a bracketed class by one
 * space.
 */
module Folding {
  import opened Text

  /**
   * The bracketed character classes of the `re.sub` calls: the full
   * separator class `[\s\-\(\)\[\]\{\}/\\]`, the class without `/` and
   * `\` used by the melon `find_rank_by_title`, and `\s` alone.
   */
  datatype CharClass = Separators | SeparatorsNoSlash | Whitespace

  /** The punctuation `norm` folds: `- ( ) [ ] { }`. */
  predicate IsBracketOrDash(c: char)
  {
    c == '-' || c == '(' || c == ')' || c == '[' || c == ']' || c == '{' || c == '}'
  }

  predicate IsSlash(c: char)
  {
    c == '/' || c == '\\'
  }

  predicate InClass(cls: CharClass, c: char)
  {
    match cls
    case Separators => IsSpace(c) || IsBracketOrDash(c) || IsSlash(c)
    case SeparatorsNoSlash => IsSpace(c) || IsBracketOrDash(c)
    case Whitespace => IsSpace(c)
  }

  /** Drops the run of class characters at the front of `s`. */
  function SkipRun(s: string, cls: CharClass): (r: string)
    ensures |r| <= |s|
    ensures r == [] || !InClass(cls, r[0])
    decreases |s|
  {
    if s != [] && InClass(cls, s[0]) then SkipRun(s[1..], cls) else s
  }

  /** What is skipped is a prefix of class characters. */
  lemma {:induction false} SkipRunDrops(s: string, cls: CharClass)
    ensures SkipRun(s, cls) == s[|s| - |SkipRun(s, cls)|..]
    ensures forall i :: 0 <= i < |s| - |SkipRun(s, cls)| ==> InClass(cls, s[i])
    decreases |s|
  {
    if s != [] && InClass(cls, s[0]) {
      SkipRunDrops(s[1..], cls);
      forall i | 1 <= i < |s| ensures s[1..][i - 1] == s[i] { }
    }
  }

  /**
   * The only characters of `s` that belong to the class are lone spaces:
   * what is left after every run of class characters became one space.
   */
  predicate Folded(s: string, cls: CharClass)
    decreases |s|
  {
    s == [] ||
      ((s[0] == ' ' || !InClass(cls, s[0]))
       && (|s| < 2 || s[0] != ' ' || s[1] != ' ')
       && Folded(s[1..], cls))
  }

  /** No two spaces stand next to each other. */
  predicate NoDoubleSpace(s: string)
    decreases |s|
  {
    |s| < 2 || ((s[0] != ' ' || s[1] != ' ') && NoDoubleSpace(s[1..]))
  }

  /** A folded string, read position by position. */
  lemma {:induction false} FoldedMeans(s: string, cls: CharClass)
    requires Folded(s, cls)
    ensures forall i :: 0 <= i < |s| ==> s[i] == ' ' || !InClass(cls, s[i])
    ensures NoDoubleSpace(s)
    decreases |s|
  {
    if s != [] {
      FoldedMeans(s[1..], cls);
      forall i | 1 <= i < |s| ensures s[i] == s[1..][i - 1] { }
    }
  }

  /**
   * A string folded for the full separator class has none of
   * `- ( ) [ ] { } / \`, no whitespace but the plain space, and no two
   * spaces in a row.
   */
  lemma FoldedSeparators(s: string)
    requires Folded(s, Separators)
    ensures forall i :: 0 <= i < |s| ==> !IsBracketOrDash(s[i]) && !IsSlash(s[i])
    ensures forall i :: 0 <= i < |s| ==> IsSpace(s[i]) ==> s[i] == ' '
    ensures NoDoubleSpace(s)
  {
    FoldedMeans(s, Separators);
  }

  /**
   * `re.sub(r"[<class>]+", " ", s)`: every maximal run of class characters
   * becomes a single space; every other character is kept.
   */
  function FoldRuns(s: string, cls: CharClass): (r: string)
    ensures |r| <= |s| && (r == [] <==> s == [])
    ensures s != [] ==> (r[0] == ' ' <==> InClass(cls, s[0]))
    decreases |s|
  {
    if s == [] then []
    else if InClass(cls, s[0]) then " " + FoldRuns(SkipRun(s[1..], cls), cls)
    else [s[0]] + FoldRuns(s[1..], cls)
  }

  /** What folding achieves: no class character is left but lone spaces. */
  lemma {:induction false} FoldRunsFolded(s: string, cls: CharClass)
    ensures Folded(FoldRuns(s, cls), cls)
    decreases |s|
  {
    if s != [] {
      var rest := if InClass(cls, s[0]) then SkipRun(s[1..], cls) else s[1..];
      var head := if InClass(cls, s[0]) then ' ' else s[0];
      FoldRunsFolded(rest, cls);
      var t := FoldRuns(rest, cls);
      assert FoldRuns(s, cls) == [head] + t;
      assert ([head] + t)[1..] == t;
      assert t == [] || head != ' ' || t[0] != ' ';
    }
  }

  /** Folding a lower-case string gives a lower-case string. */
  lemma {:induction false} FoldRunsLower(s: string, cls: CharClass)
    requires IsLower(s)
    ensures IsLower(FoldRuns(s, cls))
    decreases |s|
  {
    if s != [] {
      var rest := if InClass(cls, s[0]) then SkipRun(s[1..], cls) else s[1..];
      var head := if InClass(cls, s[0]) then ' ' else s[0];
      assert IsLower(rest) by {
        SkipRunDrops(s[1..], cls);
        LowerInfix(s, |s| - |rest|, |s|);
      }
      FoldRunsLower(rest, cls);
      assert FoldRuns(s, cls) == [head] + FoldRuns(rest, cls);
      assert LowerChar(head) == head;
    }
  }

  /**
   * Folding keeps every character outside the class, in order: only the
   * class characters are replaced.
   */
  lemma {:induction false} FoldRunsKeeps(s: string, cls: CharClass)
    ensures Outside(FoldRuns(s, cls), cls) == Outside(s, cls)
    decreases |s|
  {
    if s != [] {
      if InClass(cls, s[0]) {
        SkipRunDrops(s[1..], cls);
        var rest := SkipRun(s[1..], cls);
        OutsideOfRun(s[1..], cls, |s[1..]| - |rest|);
        FoldRunsKeeps(rest, cls);
        assert FoldRuns(s, cls) == " " + FoldRuns(rest, cls);
        assert (" " + FoldRuns(rest, cls))[1..] == FoldRuns(rest, cls);
      } else {
        FoldRunsKeeps(s[1..], cls);
        assert FoldRuns(s, cls) == [s[0]] + FoldRuns(s[1..], cls);
        assert ([s[0]] + FoldRuns(s[1..], cls))[1..] == FoldRuns(s[1..], cls);
      }
    }
  }

  /** The characters of `s` outside the class, in order. */
  function Outside(s: string, cls: CharClass): string
    decreases |s|
  {
    if s == [] then []
    else if InClass(cls, s[0]) then Outside(s[1..], cls)
    else [s[0]] + Outside(s[1..], cls)
  }

  /** A prefix of class characters contributes nothing outside the class. */
  lemma {:induction false} OutsideOfRun(s: string, cls: CharClass, n: nat)
    requires n <= |s|
    requires forall i :: 0 <= i < n ==> InClass(cls, s[i])
    ensures Outside(s, cls) == Outside(s[n..], cls)
    decreases n
  {
    if n > 0 {
      OutsideOfRun(s[1..], cls, n - 1);
      assert s[1..][n - 1..] == s[n..];
    }
  }

  /** Folding a string that is already folded changes nothing. */
  lemma {:induction false} FoldRunsOfFolded(s: string, cls: CharClass)
    requires Folded(s, cls)
    ensures FoldRuns(s, cls) == s
    decreases |s|
  {
    if s != [] {
      FoldRunsOfFolded(s[1..], cls);
      assert s == [s[0]] + s[1..];
      if InClass(cls, s[0]) {
        assert s[0] == ' ';
        assert SkipRun(s[1..], cls) == s[1..];
        assert FoldRuns(s, cls) == " " + FoldRuns(s[1..], cls);
      } else {
        assert FoldRuns(s, cls) == [s[0]] + FoldRuns(s[1..], cls);
      }
    }
  }

  /**
   * A second description of the substitution, one character at a time:
   * `Mask` turns every class character into a space, and `Squeeze` then
   * keeps only the first space of every run of spaces.
   */
  function Mask(s: string, cls: CharClass): (r: string)
    ensures |r| == |s|
  {
    if s == [] then [] else [if InClass(cls, s[0]) then ' ' else s[0]] + Mask(s[1..], cls)
  }

  /** Every run of spaces shortened to one space. */
  function Squeeze(s: string): (r: string)
    ensures |r| <= |s|
  {
    if |s| < 2 then s
    else if s[0] == ' ' && s[1] == ' ' then Squeeze(s[1..])
    else [s[0]] + Squeeze(s[1..])
  }

  /** A character that does not start a run of two spaces is kept in front. */
  lemma SqueezeCons(c: char, m: string)
    requires c != ' ' || m == [] || m[0] != ' '
    ensures Squeeze([c] + m) == [c] + Squeeze(m)
  {
    assert ([c] + m)[1..] == m;
  }

  /** A leading space absorbs the mask of the rest of a run. */
  lemma {:induction false} SqueezeSkip(s: string, cls: CharClass)
    ensures Squeeze(" " + Mask(s, cls)) == Squeeze(" " + Mask(SkipRun(s, cls), cls))
    decreases |s|
  {
    if s != [] && InClass(cls, s[0]) {
      SqueezeSkip(s[1..], cls);
      var m := Mask(s[1..], cls);
      assert Mask(s, cls) == " " + m;
      assert (" " + (" " + m))[1..] == " " + m;
    }
  }

  /**
   * The fold is the squeezed mask: every maximal run of class characters
   * becomes exactly one space, and every other character stays in place.
   */
  lemma {:induction false} FoldRunsIsSqueezedMask(s: string, cls: CharClass)
    ensures FoldRuns(s, cls) == Squeeze(Mask(s, cls))
    decreases |s|
  {
    assert InClass(cls, ' ');
    if s != [] {
      if InClass(cls, s[0]) {
        var t := SkipRun(s[1..], cls);
        FoldRunsIsSqueezedMask(t, cls);
        assert Mask(s, cls) == " " + Mask(s[1..], cls);
        SqueezeSkip(s[1..], cls);
        SqueezeCons(' ', Mask(t, cls));
      } else {
        FoldRunsIsSqueezedMask(s[1..], cls);
        assert Mask(s, cls) == [s[0]] + Mask(s[1..], cls);
        SqueezeCons(s[0], Mask(s[1..], cls));
      }
    }
  }

  /** With the full separator class, `"a -/(b"` folds to `"a b"`. */
  lemma FoldRunsExample()
    ensures FoldRuns("a -/(b", Separators) == "a b"
  {
    FoldRunsIsSqueezedMask("a -/(b", Separators);
    assert Mask("a -/(b", Separators) == "a    b";
    assert Squeeze("a    b") == "a b";
  }

  /** Whitespace is in every class, so a folded string is folded for `\s` too. */
  lemma {:induction false} FoldedWhitespace(s: string, cls: CharClass)
    requires Folded(s, cls)
    ensures Folded(s, Whitespace)
    decreases |s|
  {
    if s != [] {
      FoldedWhitespace(s[1..], cls);
    }
  }

  /** Dropping characters from the front keeps a string folded. */
  lemma {:induction false} FoldedSuffix(s: string, cls: CharClass, i: nat)
    requires Folded(s, cls) && i <= |s|
    ensures Folded(s[i..], cls)
    decreases i
  {
    if i > 0 {
      FoldedSuffix(s[1..], cls, i - 1);
      assert s[1..][i - 1..] == s[i..];
    }
  }

  /** Dropping characters from the back keeps a string folded. */
  lemma {:induction false} FoldedPrefix(s: string, cls: CharClass, j: nat)
    requires Folded(s, cls) && j <= |s|
    ensures Folded(s[..j], cls)
    decreases |s|
  {
    if j > 0 {
      FoldedPrefix(s[1..], cls, j - 1);
      assert s[..j][1..] == s[1..][..j - 1];
    }
  }

  /** Every infix of a folded string is folded. */
  lemma FoldedInfix(s: string, cls: CharClass, i: nat, j: nat)
    requires Folded(s, cls) && i <= j <= |s|
    ensures Folded(s[i..j], cls)
  {
    FoldedSuffix(s, cls, i);
    FoldedPrefix(s[i..], cls, j - i);
    assert s[i..][..j - i] == s[i..j];
  }

  /**
   * One copy of `norm` with the given separator class: lower-case, strip,
   * fold every run of class characters into one space, then collapse runs
   * of whitespace.
   */
  function NormWith(s: string, cls: CharClass): (r: string)
    ensures |r| <= |s|
  {
    FoldRuns(FoldRuns(Strip(Lower(s)), cls), Whitespace)
  }

  /**
   * The normalised text keeps no class character but lone spaces, is
   * lower-case, and the empty string stays empty.
   */
  lemma NormWithFolded(s: string, cls: CharClass)
    ensures Folded(NormWith(s, cls), cls)
    ensures IsLower(NormWith(s, cls))
    ensures s == "" ==> NormWith(s, cls) == ""
  {
    var stripped := Strip(Lower(s));
    assert IsLower(stripped) by {
      StripInfix(Lower(s));
      LowerInfix(Lower(s), StripOffset(Lower(s)), StripOffset(Lower(s)) + |stripped|);
    }
    var folded := FoldRuns(stripped, cls);
    FoldRunsFolded(stripped, cls);
    FoldRunsLower(stripped, cls);
    FoldedWhitespace(folded, cls);
    FoldRunsOfFolded(folded, Whitespace);
    FoldRunsFolded(folded, Whitespace);
  }

  /** No `/` and no `\` in `s`. */
  predicate NoSlash(s: string)
  {
    forall i :: 0 <= i < |s| ==> !IsSlash(s[i])
  }

  /** On a string without slashes the two separator classes fold alike. */
  lemma {:induction false} FoldRunsWithoutSlashes(s: string)
    requires NoSlash(s)
    ensures FoldRuns(s, Separators) == FoldRuns(s, SeparatorsNoSlash)
    decreases |s|
  {
    if s != [] {
      assert NoSlash(s[1..]) by {
        forall i | 0 <= i < |s| - 1 ensures s[1..][i] == s[i + 1] { }
      }
      if InClass(Separators, s[0]) {
        SkipRunWithoutSlashes(s[1..]);
        SkipRunDrops(s[1..], Separators);
        var rest := SkipRun(s[1..], Separators);
        assert NoSlash(rest) by {
          forall i | 0 <= i < |rest| ensures rest[i] == s[1..][|s[1..]| - |rest| + i] { }
        }
        FoldRunsWithoutSlashes(rest);
      } else {
        FoldRunsWithoutSlashes(s[1..]);
      }
    }
  }

  /** On a string without slashes the two separator classes skip alike. */
  lemma {:induction false} SkipRunWithoutSlashes(s: string)
    requires NoSlash(s)
    ensures SkipRun(s, Separators) == SkipRun(s, SeparatorsNoSlash)
    decreases |s|
  {
    if s != [] {
      assert NoSlash(s[1..]) by {
        forall i | 0 <= i < |s| - 1 ensures s[1..][i] == s[i + 1] { }
      }
      SkipRunWithoutSlashes(s[1..]);
    }
  }

  /** The normaliser of `find_rank_by_title` agrees with `norm` on strings without slashes. */
  lemma NormWithoutSlashes(s: string)
    requires NoSlash(s)
    ensures NormWith(s, SeparatorsNoSlash) == NormWith(s, Separators)
  {
    var l := Lower(s);
    assert NoSlash(l);
    StripInfix(l);
    var t := Strip(l);
    assert NoSlash(t) by {
      forall i | 0 <= i < |t| ensures t[i] == l[StripOffset(l) + i] { }
    }
    FoldRunsWithoutSlashes(t);
  }

  /** `[a, '/', b]` with lower-case letters: kept by the slash-less class, folded by the full one. */
  lemma SlashExample(a: char, b: char)
    requires 'a' <= a <= 'z' && 'a' <= b <= 'z'
    ensures NormWith([a, '/', b], SeparatorsNoSlash) == [a, '/', b]
    ensures NormWith([a, '/', b], Separators) == [a, ' ', b]
  {
    var s := [a, '/', b];
    assert Lower(s) == s;
    StripNoOp(s);
    assert Folded([b], SeparatorsNoSlash) && Folded(['/', b], SeparatorsNoSlash);
    assert s[1..] == ['/', b];
    assert Folded(s, SeparatorsNoSlash);
    FoldRunsOfFolded(s, SeparatorsNoSlash);
    assert Folded([b], Whitespace) && Folded(['/', b], Whitespace);
    assert Folded(s, Whitespace);
    FoldRunsOfFolded(s, Whitespace);
    FoldSlash(a, b);
    assert Folded([b], Whitespace) && Folded([' ', b], Whitespace);
    assert [a, ' ', b][1..] == [' ', b];
    assert Folded([a, ' ', b], Whitespace);
    FoldRunsOfFolded([a, ' ', b], Whitespace);
  }

  /** The full class folds the slash between two letters into a space. */
  lemma FoldSlash(a: char, b: char)
    requires 'a' <= a <= 'z' && 'a' <= b <= 'z'
    ensures FoldRuns([a, '/', b], Separators) == [a, ' ', b]
  {
    var s := [a, '/', b];
    assert s[1..] == ['/', b];
    assert ['/', b][1..] == [b];
    assert SkipRun([b], Separators) == [b];
    assert Folded([b], Separators);
    FoldRunsOfFolded([b], Separators);
    assert FoldRuns(['/', b], Separators) == [' ', b];
  }
}
