/**
 * Algebraic square names (src/model/name_store.h): square `8 * row + col`
 * is named by the file letter 'a' + col followed by the rank digit
 * '1' + 7 - row, so square 0 is "a8" and square 63 is "h1".
 */
module NameStore {

  /** The name of a square: file letter, then rank digit. */
  function SquareName(square: int): (name: string)
    requires 0 <= square < 64
    ensures |name| == 2 && 'a' <= name[0] <= 'h' && '1' <= name[1] <= '8'
  {
    [(('a' as int) + square % 8) as char, (('1' as int) + 7 - square / 8) as char]
  }

  /** Reading a name back: the square it names. */
  function SquareOfName(name: string): (square: int)
    requires |name| == 2 && 'a' <= name[0] <= 'h' && '1' <= name[1] <= '8'
    ensures 0 <= square < 64
  {
    8 * (('8' as int) - (name[1] as int)) + ((name[0] as int) - ('a' as int))
  }

  /** Naming a square and reading the name back gives the square. */
  lemma NameRoundTrip(square: int)
    requires 0 <= square < 64
    ensures SquareOfName(SquareName(square)) == square
  {
    var name := SquareName(square);
    assert name[0] as int - 'a' as int == square % 8;
    assert '8' as int - name[1] as int == square / 8;
  }

  /** Distinct squares get distinct names. */
  lemma NamesDistinct(s: int, t: int)
    requires 0 <= s < 64 && 0 <= t < 64 && s != t
    ensures SquareName(s) != SquareName(t)
  {
    NameRoundTrip(s);
    NameRoundTrip(t);
  }

  /** The four corners. */
  lemma CornerNames()
    ensures SquareName(0) == "a8" && SquareName(7) == "h8"
    ensures SquareName(56) == "a1" && SquareName(63) == "h1"
  {
  }

  /** The table of names, filled by the constructor. */
  class ChessNameStore {
    const squareNames: array<string>

    constructor()
      ensures fresh(squareNames) && squareNames.Length == 64
      ensures forall s | 0 <= s < 64 :: squareNames[s] == SquareName(s)
    {
      var names := new string[64](_ => "");
      for i := 0 to 8
        invariant forall s | 0 <= s < 8 * i :: names[s] == SquareName(s)
      {
        for j := 0 to 8
          invariant forall s | 0 <= s < 8 * i + j :: names[s] == SquareName(s)
        {
          names[i * 8 + j] := [(('a' as int) + j) as char, (('1' as int) + 7 - i) as char];
          assert (i * 8 + j) % 8 == j && (i * 8 + j) / 8 == i;
        }
      }
      squareNames := names;
    }
  }
}
