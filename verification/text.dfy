/** Splitting and joining strings on separators, as the Rust standard library
    does it (`str::split` with a `char` or a `&str` pattern). */
module Text {
  import opened Common

  /** Index of the first occurrence of `c` in `s`, if any (`str::find`). */
  function Find(s: string, c: char): (r: Option<nat>)
    ensures r.Some? ==> r.value < |s| && s[r.value] == c && c !in s[..r.value]
    ensures r.None? ==> c !in s
  {
    if s == [] then None
    else if s[0] == c then Some(0)
    else
      match Find(s[1..], c)
      case None => None
      case Some(i) => assert s[1..][..i] == s[1..i + 1]; Some(i + 1)
  }

  /** Number of occurrences of `c` in `s`. */
  function Count(s: string, c: char): nat
  {
    if s == [] then 0
    else Count(s[..|s| - 1], c) + (if s[|s| - 1] == c then 1 else 0)
  }

  /** `s.split(c)`: the pieces of `s` between occurrences of `c`, in order.
      There is always at least one piece; consecutive, leading or trailing
      separators give empty pieces. Defined from the right so that a
      left-to-right scan extends it one character at a time. */
  function Split(s: string, c: char): (r: seq<string>)
    ensures |r| >= 1
  {
    if s == [] then [""]
    else
      var init := Split(s[..|s| - 1], c);
      if s[|s| - 1] == c then init + [""]
      else init[..|init| - 1] + [init[|init| - 1] + [s[|s| - 1]]]
  }

  /** `pieces.join(c)`: the pieces with one `c` between neighbours. */
  function Join(pieces: seq<string>, c: char): string
  {
    if |pieces| == 0 then ""
    else if |pieces| == 1 then pieces[0]
    else Join(pieces[..|pieces| - 1], c) + [c] + pieces[|pieces| - 1]
  }

  /** Extending a string by one character extends its split accordingly:
      the scan step the tokenising loop performs. */
  lemma SplitSnoc(s: string, ch: char, c: char)
    ensures var init := Split(s, c);
            Split(s + [ch], c) ==
              if ch == c then init + [""]
              else init[..|init| - 1] + [init[|init| - 1] + [ch]]
  {
    assert (s + [ch])[..|s + [ch]| - 1] == s;
  }

  /** A string without the separator is a single piece. */
  lemma {:induction false} SplitNoSeparator(s: string, c: char)
    requires c !in s
    ensures Split(s, c) == [s]
  {
    if s != [] {
      var t := s[..|s| - 1];
      assert s == t + [s[|s| - 1]];
      SplitNoSeparator(t, c);
    }
  }

  /** The number of pieces is the number of separators plus one. */
  lemma {:induction false} SplitCount(s: string, c: char)
    ensures |Split(s, c)| == Count(s, c) + 1
  {
    if s != [] {
      SplitCount(s[..|s| - 1], c);
    }
  }

  /** No piece contains the separator. */
  lemma {:induction false} SplitPiecesFree(s: string, c: char)
    ensures forall i :: 0 <= i < |Split(s, c)| ==> c !in Split(s, c)[i]
  {
    if s != [] {
      SplitPiecesFree(s[..|s| - 1], c);
    }
  }

  /** Joining the pieces gives back the string. */
  lemma {:induction false} JoinSplit(s: string, c: char)
    ensures Join(Split(s, c), c) == s
  {
    if s != [] {
      var t := s[..|s| - 1];
      var ch := s[|s| - 1];
      assert s == t + [ch];
      JoinSplit(t, c);
      var init := Split(t, c);
      if ch == c {
        JoinSnoc(init, "", c);
      } else {
        var front := init[..|init| - 1];
        var last := init[|init| - 1];
        assert init == front + [last];
        if |front| == 0 {
          assert Split(s, c) == [last + [ch]];
        } else {
          JoinSnoc(front, last, c);
          JoinSnoc(front, last + [ch], c);
        }
      }
    }
  }

  /** Joining one more piece appends a separator and the piece. */
  lemma JoinSnoc(pieces: seq<string>, p: string, c: char)
    requires |pieces| >= 1
    ensures Join(pieces + [p], c) == Join(pieces, c) + [c] + p
  {
    assert (pieces + [p])[..|pieces|] == pieces;
  }

  /** Appending a piece, or extending the last piece, of a concatenation
      of piece lists affects only the second list. */
  lemma ExtendLast(a: seq<string>, b: seq<string>, ch: char)
    requires |b| >= 1
    ensures (a + b) + [""] == a + (b + [""])
    ensures var ab := a + b;
            ab[..|ab| - 1] + [ab[|ab| - 1] + [ch]] == a + (b[..|b| - 1] + [b[|b| - 1] + [ch]])
  {
    var ab := a + b;
    assert ab[..|ab| - 1] == a + b[..|b| - 1];
  }

  /** Splitting `x c y` splits `x` and `y` independently. */
  lemma {:induction false} SplitAppend(x: string, y: string, c: char)
    ensures Split(x + [c] + y, c) == Split(x, c) + Split(y, c)
  {
    if y == [] {
      assert x + [c] + y == x + [c];
      SplitSnoc(x, c, c);
    } else {
      var y' := y[..|y| - 1];
      var ch := y[|y| - 1];
      var front := x + [c] + y';
      var a := Split(x, c);
      var b := Split(y', c);
      assert y == y' + [ch];
      assert x + [c] + y == front + [ch];
      SplitAppend(x, y', c);
      SplitSnoc(front, ch, c);
      SplitSnoc(y', ch, c);
      ExtendLast(a, b, ch);
      if ch == c {
        assert Split(front + [ch], c) == a + Split(y, c);
      } else {
        assert Split(front + [ch], c) == a + Split(y, c);
      }
    }
  }

  /** The pieces of `s` split at the first separator. */
  lemma SplitAtFirst(s: string, i: nat, c: char)
    requires i < |s| && s[i] == c && c !in s[..i]
    ensures Split(s, c) == [s[..i]] + Split(s[i + 1..], c)
  {
    assert s == s[..i] + [c] + s[i + 1..];
    SplitAppend(s[..i], s[i + 1..], c);
    SplitNoSeparator(s[..i], c);
  }

  /** The first piece is the longest separator-free prefix: it is followed
      by a separator or by the end of the string. */
  lemma FirstPiece(s: string, c: char)
    ensures var p := Split(s, c)[0];
            && |p| <= |s| && s[..|p|] == p && c !in p
            && (|p| == |s| || s[|p|] == c)
  {
    match Find(s, c)
    case None =>
      SplitNoSeparator(s, c);
    case Some(i) =>
      SplitAtFirst(s, i, c);
  }

  /** A string that splits into two or more pieces holds the separator, and
      its second piece is the first piece of what follows the first
      separator. */
  lemma SecondPiece(s: string, c: char)
    requires |Split(s, c)| >= 2
    ensures Find(s, c).Some?
    ensures Split(s, c)[1] == Split(s[Find(s, c).value + 1..], c)[0]
  {
    if c !in s {
      SplitNoSeparator(s, c);
    }
    SplitAtFirst(s, Find(s, c).value, c);
  }

  /** Splitting a join of separator-free pieces gives back the pieces: the
      converse round trip of `JoinSplit`. */
  lemma {:induction false} SplitJoin(pieces: seq<string>, c: char)
    requires |pieces| >= 1
    requires forall i :: 0 <= i < |pieces| ==> c !in pieces[i]
    ensures Split(Join(pieces, c), c) == pieces
  {
    if |pieces| == 1 {
      SplitNoSeparator(pieces[0], c);
    } else {
      var front := pieces[..|pieces| - 1];
      var last := pieces[|pieces| - 1];
      SplitJoin(front, c);
      SplitAppend(Join(front, c), last, c);
      SplitNoSeparator(last, c);
      assert pieces == front + [last];
    }
  }

  /** `s.split(", ")`: the pieces between non-overlapping occurrences of the
      two-character separator ", ", scanning from the left. */
  function SplitCommaSpace(s: string): (r: seq<string>)
    ensures |r| >= 1
  {
    if |s| < 2 then [s]
    else if s[0] == ',' && s[1] == ' ' then [""] + SplitCommaSpace(s[2..])
    else
      var rest := SplitCommaSpace(s[1..]);
      [[s[0]] + rest[0]] + rest[1..]
  }

  /** A string without a comma is a single piece. */
  lemma {:induction false} SplitCommaSpaceNoComma(s: string)
    requires ',' !in s
    ensures SplitCommaSpace(s) == [s]
  {
    if |s| >= 2 {
      assert s[0] != ',';
      assert s == [s[0]] + s[1..];
      SplitCommaSpaceNoComma(s[1..]);
    }
  }

  /** A comma-free first field is split off intact. */
  lemma {:induction false} SplitCommaSpaceAppend(x: string, y: string)
    requires ',' !in x
    ensures SplitCommaSpace(x + ", " + y) == [x] + SplitCommaSpace(y)
  {
    var s := x + ", " + y;
    if x == [] {
      assert s == ", " + y;
      assert s[2..] == y;
    } else {
      assert s[0] == x[0];
      assert s[1..] == x[1..] + ", " + y;
      SplitCommaSpaceAppend(x[1..], y);
      assert [x[0]] + x[1..] == x;
    }
  }
}
