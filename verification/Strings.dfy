/** Strings: letter case, and the pieces between separators. */
module Strings {
  function LowerCharacter(ch: char): char {
    if 'A' <= ch <= 'Z' then (ch as int + 32) as char else ch
  }

  /** ASCII letters in lower case. */
  function Lower(s: string): (r: string)
    ensures |r| == |s|
    ensures forall i :: 0 <= i < |s| ==> r[i] == LowerCharacter(s[i])
  {
    seq(|s|, i requires 0 <= i < |s| => LowerCharacter(s[i]))
  }

  predicate EqualIgnoringCase(a: string, b: string) {
    Lower(a) == Lower(b)
  }

  lemma LowerFixed(s: string)
    requires forall i :: 0 <= i < |s| ==> !('A' <= s[i] <= 'Z')
    ensures Lower(s) == s
  {
  }

  /** The same letter in another case, by code points. */
  predicate CaseVariant(a: char, b: char) {
    || a == b
    || (65 <= a as int <= 90 && b as int == a as int + 32)
    || (65 <= b as int <= 90 && a as int == b as int + 32)
  }

  /** Texts are equal ignoring case exactly when they are as long and differ at most in the case of ASCII letters. */
  lemma EqualIgnoringCaseExact(a: string, b: string)
    ensures EqualIgnoringCase(a, b) <==> |a| == |b| && forall i :: 0 <= i < |a| ==> CaseVariant(a[i], b[i])
  {
    assert forall x: char, y: char :: LowerCharacter(x) == LowerCharacter(y) <==> CaseVariant(x, y);
    if EqualIgnoringCase(a, b) {
      assert |Lower(a)| == |Lower(b)|;
      forall i | 0 <= i < |a|
        ensures CaseVariant(a[i], b[i])
      {
        assert Lower(a)[i] == Lower(b)[i];
      }
    }
  }

  /** The first separator at or after `i`, or the end. */
  function PieceEnd(s: string, sep: char, i: nat): (n: nat)
    requires i <= |s|
    ensures i <= n <= |s| && (n < |s| ==> s[n] == sep) && forall m :: i <= m < n ==> s[m] != sep
    decreases |s| - i
  {
    if i == |s| || s[i] == sep then i else PieceEnd(s, sep, i + 1)
  }

  function PiecesFrom(s: string, sep: char, i: nat): seq<string>
    requires i <= |s|
    decreases |s| - i
  {
    var n := PieceEnd(s, sep, i);
    if n == |s| then [s[i..n]] else [s[i..n]] + PiecesFrom(s, sep, n + 1)
  }

  /** The pieces of a string between its separators. */
  function Pieces(s: string, sep: char): seq<string> {
    PiecesFrom(s, sep, 0)
  }

  predicate Free(s: string, sep: char, i: nat, j: nat)
    requires j <= |s|
  {
    forall m :: i <= m < j ==> s[m] != sep
  }

  predicate PieceStart(s: string, sep: char, i: nat) {
    i <= |s| && (i == 0 || s[i - 1] == sep)
  }

  /** The slice from `i` to `j` is a piece: it holds no separator and has one, or an end of the string, on either side. */
  predicate IsPiece(s: string, sep: char, i: nat, j: nat) {
    i <= j <= |s| && PieceStart(s, sep, i) && (j == |s| || s[j] == sep) && Free(s, sep, i, j)
  }

  lemma {:induction false} PieceListed(s: string, sep: char, from: nat, i: nat, j: nat)
    requires IsPiece(s, sep, i, j) && from <= i && PieceStart(s, sep, from)
    ensures s[i..j] in PiecesFrom(s, sep, from)
    decreases |s| - from
  {
    var n := PieceEnd(s, sep, from);
    if from < i {
      assert s[i - 1] == sep;
      PieceListed(s, sep, n + 1, i, j);
    } else {
      assert j == n;
      assert PiecesFrom(s, sep, from)[0] == s[from..n];
    }
  }

  lemma {:induction false} PieceFound(s: string, sep: char, from: nat, x: string) returns (i: nat, j: nat)
    requires PieceStart(s, sep, from) && x in PiecesFrom(s, sep, from)
    ensures IsPiece(s, sep, i, j) && s[i..j] == x
    decreases |s| - from
  {
    var n := PieceEnd(s, sep, from);
    if x == s[from..n] {
      i, j := from, n;
    } else {
      i, j := PieceFound(s, sep, n + 1, x);
    }
  }

  lemma SolePiece(s: string, sep: char)
    requires Free(s, sep, 0, |s|)
    ensures Pieces(s, sep) == [s]
  {
    assert s[0..|s|] == s;
  }
}
