/** The input handling of the script's entry point (lines 164-165). */
module Cli {
  import opened Strings

  /**
   * `[piece.replace(' ', '') for piece in text.split(',')]`: one piece per
   * comma plus one, with no spaces and no commas left in any piece, which
   * joined with commas give the input without its spaces.
   */
  function SplitInput(text: string): (pieces: seq<string>)
    ensures |pieces| == Count(text, ',') + 1
    ensures forall i :: 0 <= i < |pieces| ==> ' ' !in pieces[i] && ',' !in pieces[i]
    ensures Join(pieces, ',') == RemoveChar(text, ' ')
  {
    var parts := Split(text, ',');
    var pieces := seq(|parts|, i requires 0 <= i < |parts| => RemoveChar(parts[i], ' '));
    RemoveCharJoin(parts, pieces, ',', ' ');
    pieces
  }

  /** Without spaces, the pieces join back into the input. */
  lemma SplitInputRoundTrip(text: string)
    requires ' ' !in text
    ensures Join(SplitInput(text), ',') == text
  {
    var parts := Split(text, ',');
    forall i | 0 <= i < |parts|
      ensures RemoveChar(parts[i], ' ') == parts[i]
    {
      assert forall c :: c in parts[i] ==> c in text by {
        JoinContains(parts, ',', i);
      }
      RemoveCharAbsent(parts[i], ' ');
    }
    assert SplitInput(text) == parts;
  }

  /** Every character of a piece is a character of the joined text. */
  lemma {:induction false} JoinContains(parts: seq<string>, sep: char, i: nat)
    requires i < |parts|
    ensures forall c :: c in parts[i] ==> c in Join(parts, sep)
    decreases |parts|
  {
    if |parts| > 1 {
      if i > 0 {
        JoinContains(parts[1..], sep, i - 1);
      }
      assert Join(parts, sep) == parts[0] + [sep] + Join(parts[1..], sep);
    }
  }
}
