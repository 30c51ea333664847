/**
 * Colon-separated lists. Paths and library lists are passed around as single
 * strings joined with ':'; Split is android::base::Split with a one-character
 * delimiter set (empty pieces are kept, so "" splits into [""]).
 */
module Strings {

  /** The pieces of `s` between occurrences of `sep`, in order. */
  function Split(s: string, sep: char): (pieces: seq<string>)
    ensures |pieces| >= 1
    decreases |s|
  {
    if s == [] then [[]]
    else
      var rest := Split(s[1..], sep);
      if s[0] == sep then [[]] + rest
      else [[s[0]] + rest[0]] + rest[1..]
  }

  /** The pieces glued back together with `sep` between consecutive ones. */
  function Join(pieces: seq<string>, sep: char): string
    requires |pieces| >= 1
    decreases |pieces|
  {
    if |pieces| == 1 then pieces[0] else pieces[0] + [sep] + Join(pieces[1..], sep)
  }

  /** No piece produced by Split contains the separator. */
  lemma {:induction false} SplitPiecesHaveNoSeparator(s: string, sep: char)
    ensures forall i :: 0 <= i < |Split(s, sep)| ==> sep !in Split(s, sep)[i]
    decreases |s|
  {
    if s != [] {
      SplitPiecesHaveNoSeparator(s[1..], sep);
    }
  }

  /** Splitting loses nothing: joining the pieces gives back the string. */
  lemma {:induction false} JoinSplit(s: string, sep: char)
    ensures Join(Split(s, sep), sep) == s
    decreases |s|
  {
    if s != [] {
      var rest := Split(s[1..], sep);
      JoinSplit(s[1..], sep);
      if s[0] == sep {
        assert Split(s, sep) == [[]] + rest;
        assert ([[]] + rest)[1..] == rest;
      } else {
        var pieces := Split(s, sep);
        assert pieces == [[s[0]] + rest[0]] + rest[1..];
        if |rest| == 1 {
          assert pieces == [[s[0]] + rest[0]];
        } else {
          assert pieces[1..] == rest[1..];
          assert Join(rest, sep) == rest[0] + [sep] + Join(rest[1..], sep);
        }
      }
    }
  }

  /** A string without the separator is a single piece. */
  lemma {:induction false} SplitWithoutSeparator(s: string, sep: char)
    requires sep !in s
    ensures Split(s, sep) == [s]
    decreases |s|
  {
    if s != [] {
      assert sep !in s[1..];
      SplitWithoutSeparator(s[1..], sep);
      assert [s[0]] + s[1..] == s;
    }
  }

  /** Splitting at a separator at index `k` splits the string into the pieces before and after it. */
  lemma {:induction false} SplitAt(s: string, k: nat, sep: char)
    requires k < |s| && s[k] == sep
    ensures Split(s, sep) == Split(s[..k], sep) + Split(s[k + 1..], sep)
    decreases k
  {
    if k > 0 {
      var t := s[1..];
      SplitAt(t, k - 1, sep);
      assert t[..k - 1] == s[..k][1..];
      assert t[k..] == s[k + 1..];
      var left := Split(s[..k][1..], sep);
      var right := Split(s[k + 1..], sep);
      assert Split(t, sep) == left + right;
      if s[0] != sep {
        assert (left + right)[0] == left[0];
        assert (left + right)[1..] == left[1..] + right;
      }
    }
  }

  /** Gluing two lists with one separator concatenates their pieces. */
  lemma SplitConcat(a: string, b: string, sep: char)
    ensures Split(a + [sep] + b, sep) == Split(a, sep) + Split(b, sep)
  {
    var s := a + [sep] + b;
    SplitAt(s, |a|, sep);
    assert s[..|a|] == a;
    assert s[|a| + 1..] == b;
  }

  /** Joining separator-free pieces and splitting again gives back the pieces. */
  lemma {:induction false} SplitJoin(pieces: seq<string>, sep: char)
    requires |pieces| >= 1
    requires forall i :: 0 <= i < |pieces| ==> sep !in pieces[i]
    ensures Split(Join(pieces, sep), sep) == pieces
    decreases |pieces|
  {
    SplitWithoutSeparator(pieces[0], sep);
    if |pieces| > 1 {
      SplitJoin(pieces[1..], sep);
      SplitConcat(pieces[0], Join(pieces[1..], sep), sep);
      assert [pieces[0]] + pieces[1..] == pieces;
    }
  }
}
