/** Splitting and joining text on a separator, as paths of every kind are. */
module Text {

  /** `text` cut at every `separator`; there is always at least one piece. */
  function Split(text: string, separator: char): (pieces: seq<string>)
    ensures |pieces| >= 1
  {
    if text == [] then [""]
    else if text[0] == separator then [""] + Split(text[1..], separator)
    else
      var rest := Split(text[1..], separator);
      [[text[0]] + rest[0]] + rest[1..]
  }

  /** `pieces` with a `separator` between each two. */
  function Join(pieces: seq<string>, separator: char): string {
    if |pieces| == 0 then ""
    else if |pieces| == 1 then pieces[0]
    else pieces[0] + [separator] + Join(pieces[1..], separator)
  }

  function LowerChar(c: char): char {
    if 'A' <= c <= 'Z' then c - 'A' + 'a' else c
  }

  /** ASCII letters lower-cased. Nothing else this code compares has case. */
  function Lower(text: string): (lowered: string)
    ensures |lowered| == |text|
    ensures forall i :: 0 <= i < |text| ==> lowered[i] == LowerChar(text[i])
  {
    seq(|text|, i requires 0 <= i < |text| => LowerChar(text[i]))
  }

  predicate IsLower(text: string) {
    forall i :: 0 <= i < |text| ==> LowerChar(text[i]) == text[i]
  }

  lemma LowerOfLower(text: string)
    requires IsLower(text)
    ensures Lower(text) == text
  {
  }

  lemma LowerIsLower(text: string)
    ensures IsLower(Lower(text))
  {
  }

  lemma {:induction false} JoinOfSplit(text: string, separator: char)
    ensures Join(Split(text, separator), separator) == text
  {
    if text != [] {
      JoinOfSplit(text[1..], separator);
      var rest := Split(text[1..], separator);
      if text[0] == separator {
        assert ([""] + rest)[1..] == rest;
      } else {
        var pieces := [[text[0]] + rest[0]] + rest[1..];
        assert pieces[1..] == rest[1..];
        if |rest| == 1 {
          assert Join(rest, separator) == rest[0];
        } else {
          assert Join(rest, separator) == rest[0] + [separator] + Join(rest[1..], separator);
        }
        assert Join(pieces, separator) == [text[0]] + Join(rest, separator);
      }
      assert text == [text[0]] + text[1..];
    }
  }

  lemma {:induction false} SplitOfPiece(piece: string, separator: char)
    requires separator !in piece
    ensures Split(piece, separator) == [piece]
  {
    if piece != [] {
      SplitOfPiece(piece[1..], separator);
      assert piece == [piece[0]] + piece[1..];
    }
  }

  lemma {:induction false} SplitOfConcat(piece: string, rest: string, separator: char)
    requires separator !in piece
    ensures Split(piece + [separator] + rest, separator) == [piece] + Split(rest, separator)
  {
    var whole := piece + [separator] + rest;
    if piece == [] {
      assert whole[1..] == rest;
    } else {
      SplitOfConcat(piece[1..], rest, separator);
      assert whole[1..] == piece[1..] + [separator] + rest;
      assert piece == [piece[0]] + piece[1..];
    }
  }

  lemma {:induction false} SplitOfJoin(pieces: seq<string>, separator: char)
    requires |pieces| >= 1
    requires forall piece :: piece in pieces ==> separator !in piece
    ensures Split(Join(pieces, separator), separator) == pieces
  {
    if |pieces| == 1 {
      SplitOfPiece(pieces[0], separator);
    } else {
      SplitOfJoin(pieces[1..], separator);
      SplitOfConcat(pieces[0], Join(pieces[1..], separator), separator);
    }
  }
}
