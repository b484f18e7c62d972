/** Exactly which lines of a response are read, and as what. */
module Syntax {
  import opened Wrappers
  import opened Text
  import opened Hex
  import opened Octets
  import opened Responses
  import opened Wires
  import opened Heads

  // ---- Stripping ----------------------------------------------------------

  predicate AllDrop(s: Octets, drops: char -> bool) {
    forall i :: 0 <= i < |s| ==> drops(s[i])
  }

  predicate EndsKept(s: Octets, drops: char -> bool) {
    s != [] ==> !drops(s[0]) && !drops(s[|s| - 1])
  }

  /** Stripped text is what is left between what is dropped at either end. */
  lemma {:induction false} TrimExactly(front: Octets, s: Octets, back: Octets, drops: char -> bool)
    requires AllDrop(front, drops) && AllDrop(back, drops) && EndsKept(s, drops)
    ensures Trim(front + s + back, drops) == s
    decreases |front| + |back|
  {
    var whole := front + s + back;
    if front != [] {
      assert whole[1..] == front[1..] + s + back;
      TrimExactly(front[1..], s, back, drops);
    } else if back != [] {
      var less := back[..|back| - 1];
      assert whole[..|whole| - 1] == front + s + less;
      if s == [] {
        assert whole == back && whole[1..] == front + s + back[1..];
        TrimExactly(front, s, back[1..], drops);
      } else {
        TrimExactly(front, s, less, drops);
      }
    } else {
      assert whole == s;
    }
  }

  lemma {:induction false} TrimLeaves(s: Octets, drops: char -> bool) returns (front: Octets, back: Octets)
    ensures s == front + Trim(s, drops) + back && AllDrop(front, drops) && AllDrop(back, drops)
    ensures EndsKept(Trim(s, drops), drops)
    decreases |s|
  {
    if s == [] {
      front, back := [], [];
    } else if drops(s[0]) {
      front, back := TrimLeaves(s[1..], drops);
      front := [s[0]] + front;
      assert s == [s[0]] + s[1..];
    } else if drops(s[|s| - 1]) {
      front, back := TrimLeaves(s[..|s| - 1], drops);
      back := back + [s[|s| - 1]];
      assert s == s[..|s| - 1] + [s[|s| - 1]];
    } else {
      front, back := [], [];
    }
  }

  // ---- The status line ----------------------------------------------------

  /** Whether `line` gives these: with no reason, or with one that may be empty. */
  predicate IsStatusLine(line: Octets, minorVersion: char, digits: Octets, reason: Octets) {
    && IsDecimal(minorVersion) && |digits| == 3 && AllDecimal(digits) && '\n' !in reason
    && var start := "HTTP/1." + [minorVersion, ' '] + digits;
       (line == start && reason == []) || line == start + [' '] + reason
  }

  lemma StatusLineIsRead(line: Octets, minorVersion: char, digits: Octets, reason: Octets)
    requires IsStatusLine(line, minorVersion, digits, reason)
    ensures ParseStatusLine(line) == Some(StatusLine(minorVersion, Decimal(digits), reason))
  {
    assert line[..7] == "HTTP/1." && line[7] == minorVersion && line[8] == ' ';
    assert line[9..12] == digits;
    if |line| > 12 {
      assert line[13..] == reason;
    }
  }

  /** A status line is read if and only if it is one, and as what it gives. */
  lemma StatusLineExactly(line: Octets, minorVersion: char, status: nat, reason: Octets)
    ensures ParseStatusLine(line) == Some(StatusLine(minorVersion, status, reason)) <==>
            exists digits :: IsStatusLine(line, minorVersion, digits, reason) && Decimal(digits) == status
  {
    if ParseStatusLine(line) == Some(StatusLine(minorVersion, status, reason)) {
      var digits := line[9..12];
      assert line[..7] == "HTTP/1.";
      assert line == line[..7] + [line[7], line[8]] + digits + line[12..];
      if |line| > 12 {
        assert line[12..] == [' '] + line[13..];
      }
      assert IsStatusLine(line, minorVersion, digits, reason);
    }
    forall digits | IsStatusLine(line, minorVersion, digits, reason) && Decimal(digits) == status
      ensures ParseStatusLine(line) == Some(StatusLine(minorVersion, status, reason))
    {
      StatusLineIsRead(line, minorVersion, digits, reason);
    }
  }

  // ---- A field's line -----------------------------------------------------

  /** Whether `line` is a field: a name, a colon, and its value with blanks about it. */
  predicate IsFieldLine(line: Octets, name: Octets, front: Octets, value: Octets, back: Octets) {
    && line == name + [':'] + (front + value + back)
    && IsToken(name) && IsFieldValue(value) && AllDrop(front, IsBlank) && AllDrop(back, IsBlank) && EndsKept(value, IsBlank)
  }

  lemma FieldLineIsRead(line: Octets, name: Octets, front: Octets, value: Octets, back: Octets, rest: seq<Octets>, headers: Headers)
    requires IsFieldLine(line, name, front, value, back)
    ensures ParseFields([line] + rest, headers) == ParseFields(rest, WithField(headers, name, value))
  {
    assert ':' !in name;
    IndexOfFirst(name, ':', front + value + back);
    assert line[..|name|] == name && line[|name| + 1..] == front + value + back;
    TrimExactly(front, value, back, IsBlank);
    assert ([line] + rest)[1..] == rest;
  }

  /** Fields are refused at the first line that is none. */
  lemma OtherLinesFail(line: Octets, rest: seq<Octets>, headers: Headers)
    requires !exists name, front, value, back :: IsFieldLine(line, name, front, value, back)
    ensures ParseFields([line] + rest, headers) == Failure(BadHeaderLine(line))
  {
    var colon := IndexOf(line, ':');
    if colon < |line| {
      var name, value := line[..colon], Trim(line[colon + 1..], IsBlank);
      var front, back := TrimLeaves(line[colon + 1..], IsBlank);
      assert line == name + [':'] + (front + value + back);
      assert !IsFieldLine(line, name, front, value, back);
    }
  }

  // ---- The size of a chunk ------------------------------------------------

  /** `n` in hexadecimal digits, at least so many. */
  function HexNumeral(n: nat, least: nat): (text: Octets)
    ensures text != [] && |text| >= least && AllDigits(text)
    decreases n + least
  {
    (if n < 16 && least <= 1 then [] else HexNumeral(n / 16, if least == 0 then 0 else least - 1)) + [Digit(n % 16)]
  }

  lemma {:induction false} HexNumeralReads(n: nat, least: nat)
    ensures HexNumber(HexNumeral(n, least)) == n
    decreases n + least
  {
    var text := HexNumeral(n, least);
    if n >= 16 || least > 1 {
      HexNumeralReads(n / 16, if least == 0 then 0 else least - 1);
      assert text[..|text| - 1] == HexNumeral(n / 16, if least == 0 then 0 else least - 1);
    } else {
      assert text[..0] == [];
    }
  }

  /** Whether `line` gives a size: up to sixteen hexadecimal digits, blanks about them, then any extensions. */
  predicate IsSizeLine(line: Octets, front: Octets, digits: Octets, back: Octets, extensions: Octets) {
    && line == front + digits + back + extensions
    && AllDrop(front, IsBlank) && AllDrop(back, IsBlank) && (extensions != [] ==> extensions[0] == ';')
    && 1 <= |digits| <= 16 && forall i :: 0 <= i < |digits| ==> IsAnyDigit(digits[i])
  }

  lemma SizeLineIsRead(line: Octets, front: Octets, digits: Octets, back: Octets, extensions: Octets)
    requires IsSizeLine(line, front, digits, back, extensions)
    ensures ChunkSize(line) == Some(HexNumber(digits))
  {
    var text := front + digits + back;
    assert ';' !in text;
    if extensions == [] {
      assert line == text && IndexOf(line, ';') == |line|;
    } else {
      assert line == text + [';'] + extensions[1..];
      IndexOfFirst(text, ';', extensions[1..]);
    }
    assert line[..|text|] == text;
    TrimExactly(front, digits, back, IsBlank);
  }

  /** A chunk's size is read if and only if its line gives one, and as the number that is. */
  lemma ChunkSizeExactly(line: Octets, size: nat)
    ensures ChunkSize(line) == Some(size) <==>
            exists front, digits, back, extensions ::
              IsSizeLine(line, front, digits, back, extensions) && HexNumber(digits) == size
  {
    if ChunkSize(line) == Some(size) {
      var i := IndexOf(line, ';');
      var digits := Trim(line[..i], IsBlank);
      var front, back := TrimLeaves(line[..i], IsBlank);
      assert line == front + digits + back + line[i..];
      assert IsSizeLine(line, front, digits, back, line[i..]);
    }
    forall front, digits, back, extensions | IsSizeLine(line, front, digits, back, extensions) && HexNumber(digits) == size
      ensures ChunkSize(line) == Some(size)
    {
      SizeLineIsRead(line, front, digits, back, extensions);
    }
  }

  // ---- The options of a field ---------------------------------------------

  /** Whether a comma-separated field lists `option`, whatever its case and the white space about it. */
  ghost predicate Lists(field: Octets, option: Octets) {
    exists front, piece, back :: IsPiece(field, front, piece, back) && Lower(Trim(piece, IsWhite)) == option
  }

  /** Whether `piece` stands in `field` between commas, or its ends. */
  predicate IsPiece(field: Octets, front: Octets, piece: Octets, back: Octets) {
    && field == front + piece + back && ',' !in piece
    && (front != [] ==> front[|front| - 1] == ',') && (back != [] ==> back[0] == ',')
  }

  lemma PieceBehind(field: Octets, i: nat, front: Octets, piece: Octets, back: Octets)
    requires i < |field| && field[i] == ',' && IsPiece(field[i + 1..], front, piece, back)
    ensures IsPiece(field, field[..i + 1] + front, piece, back)
  {
    assert field == field[..i + 1] + field[i + 1..];
  }

  lemma WholeIsPiece(field: Octets)
    requires IndexOf(field, ',') == |field|
    ensures IsPiece(field, [], field, [])
  {
    assert [] + field + [] == field;
  }

  lemma PieceAfter(field: Octets, i: nat, front: Octets, piece: Octets, back: Octets)
    requires IsPiece(field, front, piece, back) && i < |front|
    ensures IsPiece(field[i + 1..], front[i + 1..], piece, back)
  {
  }

  lemma {:induction false} PiecesAreCut(field: Octets, front: Octets, piece: Octets, back: Octets)
    requires IsPiece(field, front, piece, back)
    ensures piece in Cut(field, ',')
    decreases |front|
  {
    var i := IndexOf(field, ',');
    if front == [] {
      if back == [] {
        assert field == piece;
      } else {
        assert field == piece + [','] + back[1..];
        IndexOfFirst(piece, ',', back[1..]);
        assert field[..i] == piece;
      }
    } else {
      assert field[|front| - 1] == ',';
      assert i < |front|;
      PieceAfter(field, i, front, piece, back);
      PiecesAreCut(field[i + 1..], front[i + 1..], piece, back);
    }
  }

  lemma {:induction false} CutsArePieces(field: Octets, piece: Octets) returns (front: Octets, back: Octets)
    requires piece in Cut(field, ',')
    ensures IsPiece(field, front, piece, back)
    decreases |field|
  {
    var i := IndexOf(field, ',');
    if i == |field| {
      front, back := [], [];
      WholeIsPiece(field);
    } else if piece == field[..i] {
      front, back := [], field[i..];
      FirstIsPiece(field, i);
    } else {
      CutGoesOn(field, i, piece);
      var within, after := CutsArePieces(field[i + 1..], piece);
      PieceBehind(field, i, within, piece, after);
      front, back := field[..i + 1] + within, after;
    }
  }

  lemma CutGoesOn(field: Octets, i: nat, piece: Octets)
    requires i == IndexOf(field, ',') < |field| && piece in Cut(field, ',') && piece != field[..i]
    ensures piece in Cut(field[i + 1..], ',')
  {
    var pieces := Cut(field, ',');
    var k :| 0 <= k < |pieces| && pieces[k] == piece;
    assert pieces[1..] == Cut(field[i + 1..], ',') && pieces[1..][k - 1] == piece;
  }

  lemma FirstIsPiece(field: Octets, i: nat)
    requires i == IndexOf(field, ',') < |field|
    ensures IsPiece(field, [], field[..i], field[i..])
  {
    assert field == [] + field[..i] + field[i..];
  }

  lemma OptionsExactly(field: Octets, option: Octets)
    ensures option in Options(field) <==> Lists(field, option)
  {
    var pieces := Cut(field, ',');
    if option in Options(field) {
      var i :| 0 <= i < |pieces| && Lower(Trim(pieces[i], IsWhite)) == option;
      var front, back := CutsArePieces(field, pieces[i]);
    }
    forall front, piece, back | IsPiece(field, front, piece, back) && Lower(Trim(piece, IsWhite)) == option
      ensures option in Options(field)
    {
      PiecesAreCut(field, front, piece, back);
      var i :| 0 <= i < |pieces| && pieces[i] == piece;
      assert Options(field)[i] == option;
    }
  }

  /**
   A response closes the connection if and only if its Connection field lists "close", or it is
   of HTTP/1.0 and that does not list "keep-alive".
   */
  lemma ClosesExactly(minorVersion: char, headers: Headers)
    ensures var field := if "connection" in headers then headers["connection"] else [];
            Closes(minorVersion, headers) <==>
            Lists(field, "close") || (minorVersion == '0' && !Lists(field, "keep-alive"))
  {
    var field := if "connection" in headers then headers["connection"] else [];
    OptionsExactly(field, "close");
    OptionsExactly(field, "keep-alive");
  }

  // ---- A chunk ------------------------------------------------------------

  lemma LineExactly(b: Octets, start: nat, position: nat, sizeBytes: nat)
    ensures var limit := start + sizeBytes + 65536;
            var end := Find(b, "\r\n", position, limit);
            LineAt(b, start, position, sizeBytes) ==
            if end.Some? then ALine(b[position..end.value], end.value + 2)
            else if |b| >= limit then LineTooLong
            else NoLine
  {
    assert LINE_END == "\r\n";
  }

  /**
   What is at `position` of a chunked body: its line, within what is allowed beside the data
   before it; its data, within what is taken; and the line break after that. Each may be yet to
   come, and each fails in its own way.
   */
  lemma ChunkExactly(b: Octets, start: nat, position: nat, sizeBytes: nat, maxBody: nat)
    ensures var limit := start + sizeBytes + 65536;
            var end := Find(b, "\r\n", position, limit);
            ChunkAt(b, start, position, sizeBytes, Http(maxBody)) ==
            if end.None? then if |b| >= limit then BadChunk(FramingTooLarge) else NoChunk
            else
              var line, next := b[position..end.value], end.value + 2;
              var size := ChunkSize(line);
              if size.None? then BadChunk(BadChunkSize(line))
              else if size.value == 0 then LastChunk(next)
              else if sizeBytes + size.value > maxBody then BadChunk(BodyTooLarge)
              else if |b| < next + size.value + 2 then NoChunk
              else if b[next + size.value..next + size.value + 2] != "\r\n" then BadChunk(BadChunkEnd)
              else AChunk(b[next..next + size.value], next + size.value + 2)
  {
    LineExactly(b, start, position, sizeBytes);
  }
}
