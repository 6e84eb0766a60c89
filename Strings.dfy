/** The string operations of the .NET library that the interpreter relies on. */
module Strings {

  /** String.Split(char): the pieces of `s` between occurrences of `sep`, in order.
      There is always at least one piece; the first piece is the longest prefix
      of `s` without `sep`. */
  function Split(s: string, sep: char): (pieces: seq<string>)
    ensures |pieces| >= 1
  {
    if s == [] then [[]]
    else
      var rest := Split(s[1..], sep);
      if s[0] == sep then [[]] + rest
      else [[s[0]] + rest[0]] + rest[1..]
  }

  /** The pieces with `sep` between each two of them (String.Join). */
  function Join(pieces: seq<string>, sep: string): (r: string)
  {
    if |pieces| == 0 then []
    else if |pieces| == 1 then pieces[0]
    else pieces[0] + sep + Join(pieces[1..], sep)
  }

  /** A string without the separator is a single piece. */
  lemma {:induction false} SplitWithoutSeparator(s: string, sep: char)
    requires sep !in s
    ensures Split(s, sep) == [s]
  {
    if s != [] {
      SplitWithoutSeparator(s[1..], sep);
      assert [s[0]] + s[1..] == s;
    }
  }

  /** Splitting distributes over a separator occurrence. */
  lemma {:induction false} SplitAtSeparator(x: string, sep: char, y: string)
    ensures Split(x + [sep] + y, sep) == Split(x, sep) + Split(y, sep)
  {
    var s := x + [sep] + y;
    if x == [] {
      assert s[1..] == y;
    } else {
      assert s[0] == x[0] && s[1..] == x[1..] + [sep] + y;
      SplitAtSeparator(x[1..], sep, y);
    }
  }

  /** No piece holds the separator, and the first piece is the longest
      prefix of `s` without it. */
  lemma {:induction false} SplitShape(s: string, sep: char)
    ensures var pieces := Split(s, sep);
      && (forall p :: p in pieces ==> sep !in p)
      && |pieces[0]| <= |s| && s[..|pieces[0]|] == pieces[0]
      && (|pieces[0]| < |s| ==> s[|pieces[0]|] == sep)
  {
    if s != [] {
      SplitShape(s[1..], sep);
      var rest := Split(s[1..], sep);
      if s[0] != sep {
        var pieces := Split(s, sep);
        assert pieces[0] == [s[0]] + rest[0];
        assert forall p :: p in pieces ==> p == pieces[0] || p in rest;
      }
    }
  }

  /** Joining the pieces of a split gives back the string. */
  lemma {:induction false} JoinSplit(s: string, sep: char)
    ensures Join(Split(s, sep), [sep]) == s
  {
    if s != [] {
      var rest := Split(s[1..], sep);
      JoinSplit(s[1..], sep);
      if s[0] == sep {
        assert Split(s, sep)[1..] == rest;
        assert [sep] + s[1..] == s;
      } else {
        var pieces := Split(s, sep);
        assert pieces[1..] == rest[1..];
        if |rest| == 1 {
          assert [s[0]] + s[1..] == s;
        } else {
          calc {
            Join(pieces, [sep]);
            [s[0]] + rest[0] + [sep] + Join(rest[1..], [sep]);
            [s[0]] + (rest[0] + [sep] + Join(rest[1..], [sep]));
            [s[0]] + Join(rest, [sep]);
            s;
          }
        }
      }
    }
  }

  /** Splitting a join of separator-free pieces gives back the pieces. */
  lemma {:induction false} SplitJoin(pieces: seq<string>, sep: char)
    requires |pieces| >= 1
    requires forall p :: p in pieces ==> sep !in p
    ensures Split(Join(pieces, [sep]), sep) == pieces
  {
    if |pieces| == 1 {
      SplitWithoutSeparator(pieces[0], sep);
    } else {
      assert pieces[0] in pieces;
      SplitWithoutSeparator(pieces[0], sep);
      SplitJoin(pieces[1..], sep);
      SplitAtSeparator(pieces[0], sep, Join(pieces[1..], [sep]));
      assert [pieces[0]] + pieces[1..] == pieces;
    }
  }

  /** The first piece is empty exactly when the string is empty or starts with the separator. */
  lemma SplitFirstPieceEmpty(s: string, sep: char)
    ensures Split(s, sep)[0] == [] <==> s == [] || s[0] == sep
  {
  }

  /** A string that holds the separator is its first piece, the separator and the rest. */
  lemma SplitAtFirst(s: string, sep: char)
    requires sep in s
    ensures var word := Split(s, sep)[0];
      && |word| < |s|
      && s == word + [sep] + s[|word| + 1..]
      && sep !in word
      && (forall c :: c in word ==> c in s)
  {
    var word := Split(s, sep)[0];
    assert word in Split(s, sep);
    assert s == s[..|word|] + [s[|word|]] + s[|word| + 1..];
  }

  /** Every character of every piece comes from the string. */
  lemma {:induction false} SplitPiecesFromString(s: string, sep: char, c: char)
    ensures forall i :: 0 <= i < |Split(s, sep)| && c in Split(s, sep)[i] ==> c in s
  {
    if s != [] {
      SplitPiecesFromString(s[1..], sep, c);
      var rest := Split(s[1..], sep);
      var pieces := Split(s, sep);
      forall i | 0 <= i < |pieces| && c in pieces[i] ensures c in s
      {
        if s[0] == sep {
          assert pieces[i] == rest[i - 1];
        } else if i == 0 {
          assert pieces[0] == [s[0]] + rest[0];
        } else {
          assert pieces[i] == rest[i];
        }
        assert s == [s[0]] + s[1..];
      }
    }
  }
}
