/** Cutting text into its maximal runs of non-separator characters, as a left-to-right scan does. */
module Text {

  /** Whether no character of `s` is a separator. */
  predicate Solid(s: string, seps: set<char>) {
    forall k :: 0 <= k < |s| ==> s[k] !in seps
  }

  /** The length of the run of non-separators that `s` starts with. */
  function RunLength(s: string, seps: set<char>): (n: nat)
    ensures n <= |s| && Solid(s[..n], seps) && (n < |s| ==> s[n] in seps)
  {
    if s == "" || s[0] in seps then 0
    else
      var n := RunLength(s[1..], seps);
      assert s[..n + 1] == [s[0]] + s[1..][..n];
      n + 1
  }

  function Pieces(s: string, seps: set<char>): seq<string>
    decreases |s|
  {
    if s == "" then []
    else if s[0] in seps then Pieces(s[1..], seps)
    else
      var n := RunLength(s, seps);
      [s[..n]] + Pieces(s[n..], seps)
  }

  lemma RunLengthIs(s: string, n: nat, seps: set<char>)
    requires n <= |s| && Solid(s[..n], seps) && (n < |s| ==> s[n] in seps)
    ensures RunLength(s, seps) == n
  {
    if n > 0 {
      assert s[0] == s[..n][0];
      assert s[1..][..n - 1] == s[..n][1..];
      RunLengthIs(s[1..], n - 1, seps);
    }
  }

  /** A separator cuts: no piece crosses it. */
  lemma {:induction false} PiecesSplit(a: string, sep: char, b: string, seps: set<char>)
    requires sep in seps
    ensures Pieces(a + [sep] + b, seps) == Pieces(a, seps) + Pieces(b, seps)
    decreases |a|
  {
    var s := a + [sep] + b;
    if a == "" {
      assert s[1..] == b;
    } else if a[0] in seps {
      assert s[1..] == a[1..] + [sep] + b;
      PiecesSplit(a[1..], sep, b, seps);
    } else {
      var n := RunLength(a, seps);
      assert s[..n] == a[..n];
      RunLengthIs(s, n, seps);
      assert s[n..] == a[n..] + [sep] + b;
      PiecesSplit(a[n..], sep, b, seps);
    }
  }

  /** A nonempty run without separators is one piece. */
  lemma SolidIsOnePiece(s: string, seps: set<char>)
    requires s != "" && Solid(s, seps)
    ensures Pieces(s, seps) == [s]
  {
    assert s[..|s|] == s;
    RunLengthIs(s, |s|, seps);
  }

  /** Every piece is a nonempty run without separators. */
  lemma {:induction false} PiecesAreSolid(s: string, seps: set<char>)
    ensures forall k :: 0 <= k < |Pieces(s, seps)| ==> Pieces(s, seps)[k] != "" && Solid(Pieces(s, seps)[k], seps)
    decreases |s|
  {
    if s != "" {
      if s[0] in seps {
        PiecesAreSolid(s[1..], seps);
      } else {
        PiecesAreSolid(s[RunLength(s, seps)..], seps);
      }
    }
  }

  /** Text that neither starts nor ends with a separator starts with its first piece and ends with its last. */
  lemma {:induction false} OuterPieces(s: string, seps: set<char>)
    requires s != "" && s[|s| - 1] !in seps
    ensures var ps := Pieces(s, seps);
            && ps != [] && ps[|ps| - 1] != "" && ps[|ps| - 1][|ps[|ps| - 1]| - 1] == s[|s| - 1]
            && (s[0] !in seps ==> ps[0] != "" && ps[0][0] == s[0])
    decreases |s|
  {
    if s[0] in seps {
      OuterPieces(s[1..], seps);
    } else {
      var n := RunLength(s, seps);
      if n < |s| {
        OuterPieces(s[n..], seps);
      }
    }
  }
}
