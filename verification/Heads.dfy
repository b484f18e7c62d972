/** A response's head as a peer writes it, and what the parser reads of it. */
module Heads {
  import opened Wrappers
  import opened Text
  import opened Octets
  import opened Responses
  import opened Wires

  datatype FieldSent = FieldSent(name: Octets, value: Octets)

  /** A value as sent: nothing a field may not hold, and no blank at either end. */
  predicate IsValue(value: Octets) {
    IsFieldValue(value) && (value != [] ==> !IsBlank(value[0]) && !IsBlank(value[|value| - 1]))
  }

  predicate IsField(f: FieldSent) {
    IsToken(f.name) && IsValue(f.value)
  }

  function FieldLine(f: FieldSent): Octets {
    f.name + [':', ' '] + f.value
  }

  function FieldLines(fields: seq<FieldSent>): (lines: seq<Octets>)
    ensures |lines| == |fields|
  {
    if fields == [] then [] else [FieldLine(fields[0])] + FieldLines(fields[1..])
  }

  function Collected(fields: seq<FieldSent>, headers: Headers): Headers {
    if fields == [] then headers else Collected(fields[1..], WithField(headers, fields[0].name, fields[0].value))
  }

  /** The values sent under `key`, whatever case their names were in, in order. */
  function ValuesOf(fields: seq<FieldSent>, key: Octets): seq<Octets> {
    if fields == [] then []
    else (if Lower(fields[0].name) == key then [fields[0].value] else []) + ValuesOf(fields[1..], key)
  }

  function Listed(values: seq<Octets>): Octets
    requires values != []
  {
    if |values| == 1 then values[0] else Listed(values[..|values| - 1]) + ", " + values[|values| - 1]
  }

  lemma ListedMore(values: seq<Octets>, value: Octets)
    requires values != []
    ensures Listed(values + [value]) == Listed(values) + ", " + value
  {
    assert (values + [value])[..|values|] == values;
  }

  /** Whether `headers` hold, under each key, the values sent under it, joined. */
  ghost predicate Holds(headers: Headers, sent: seq<FieldSent>) {
    forall key :: (key in headers <==> ValuesOf(sent, key) != []) &&
                  (key in headers ==> headers[key] == Listed(ValuesOf(sent, key)))
  }

  lemma {:induction false} ValuesOfMore(sent: seq<FieldSent>, f: FieldSent, key: Octets)
    ensures ValuesOf(sent + [f], key) ==
            ValuesOf(sent, key) + (if Lower(f.name) == key then [f.value] else [])
  {
    if sent != [] {
      assert (sent + [f])[1..] == sent[1..] + [f];
      ValuesOfMore(sent[1..], f, key);
    }
  }

  lemma HoldsMore(headers: Headers, sent: seq<FieldSent>, f: FieldSent)
    requires Holds(headers, sent)
    ensures Holds(WithField(headers, f.name, f.value), sent + [f])
  {
    var more := WithField(headers, f.name, f.value);
    forall key
      ensures key in more <==> ValuesOf(sent + [f], key) != []
      ensures key in more ==> more[key] == Listed(ValuesOf(sent + [f], key))
    {
      ValuesOfMore(sent, f, key);
      assert key in headers <==> ValuesOf(sent, key) != [];
      if key == Lower(f.name) {
        if key in headers {
          ListedMore(ValuesOf(sent, key), f.value);
        }
      } else {
        assert ValuesOf(sent + [f], key) == ValuesOf(sent, key);
      }
    }
  }

  lemma {:induction false} CollectedHolds(fields: seq<FieldSent>, headers: Headers, sent: seq<FieldSent>,
                                          all: seq<FieldSent>)
    requires Holds(headers, sent) && all == sent + fields
    ensures Holds(Collected(fields, headers), all)
    decreases |fields|
  {
    if fields == [] {
      assert all == sent;
    } else {
      HoldsMore(headers, sent, fields[0]);
      assert all == (sent + [fields[0]]) + fields[1..];
      CollectedHolds(fields[1..], WithField(headers, fields[0].name, fields[0].value), sent + [fields[0]], all);
    }
  }

  lemma IndexOfFirst(s: Octets, c: char, rest: Octets)
    requires c !in s
    ensures IndexOf(s + [c] + rest, c) == |s|
  {
    var i := IndexOf(s + [c] + rest, c);
    assert (s + [c] + rest)[|s|] == c;
    assert forall j :: 0 <= j < |s| ==> (s + [c] + rest)[j] == s[j];
  }

  lemma TrimOfValue(value: Octets)
    requires IsValue(value)
    ensures Trim([' '] + value, IsBlank) == value
  {
    assert ([' '] + value)[1..] == value;
  }

  lemma FieldLineReads(f: FieldSent)
    requires IsField(f)
    ensures IndexOf(FieldLine(f), ':') == |f.name| < |FieldLine(f)|
    ensures FieldLine(f)[..|f.name|] == f.name
    ensures Trim(FieldLine(f)[|f.name| + 1..], IsBlank) == f.value
  {
    assert ':' !in f.name;
    IndexOfFirst(f.name, ':', [' '] + f.value);
    assert FieldLine(f) == f.name + [':'] + ([' '] + f.value);
    TrimOfValue(f.value);
  }

  lemma {:induction false} FieldsRead(fields: seq<FieldSent>, headers: Headers)
    requires forall i :: 0 <= i < |fields| ==> IsField(fields[i])
    ensures ParseFields(FieldLines(fields), headers) == Success(Collected(fields, headers))
    decreases |fields|
  {
    if fields != [] {
      FieldLineReads(fields[0]);
      assert FieldLines(fields)[1..] == FieldLines(fields[1..]);
      FieldsRead(fields[1..], WithField(headers, fields[0].name, fields[0].value));
    }
  }

  lemma NoneHeld()
    ensures Holds(map[], [])
  {
  }

  lemma AllHeld(fields: seq<FieldSent>, headers: Headers)
    requires headers == Collected(fields, map[])
    ensures Holds(headers, fields)
  {
    NoneHeld();
    assert fields == [] + fields;
    CollectedHolds(fields, map[], [], fields);
  }

  /** Header fields as sent are read as their names and values, those sent twice joined. */
  lemma SentFieldsAreHeld(fields: seq<FieldSent>, lines: seq<Octets>)
    requires forall i :: 0 <= i < |fields| ==> IsField(fields[i])
    requires lines == FieldLines(fields)
    ensures ParseFields(lines, map[]).Success? && Holds(ParseFields(lines, map[]).value, fields)
  {
    FieldsRead(fields, map[]);
    AllHeld(fields, Collected(fields, map[]));
  }

  // ---- The whole head -----------------------------------------------------

  function Joined(lines: seq<Octets>): Octets
    requires lines != []
  {
    if |lines| == 1 then lines[0] else lines[0] + LINE_END + Joined(lines[1..])
  }

  lemma {:induction false} NoLineEnd(line: Octets, start: nat)
    requires IsLine(line)
    ensures Find(line, LINE_END, start, |line|) == None
    decreases |line| - start
  {
    if start + 2 <= |line| {
      assert !StandsAt(line, LINE_END, start);
      NoLineEnd(line, start + 1);
    }
  }

  predicate AreLines(lines: seq<Octets>) {
    forall i :: 0 <= i < |lines| ==> IsLine(lines[i])
  }

  lemma {:induction false} LinesOfJoined(lines: seq<Octets>)
    requires lines != [] && AreLines(lines)
    ensures Lines(Joined(lines)) == lines
    decreases |lines|
  {
    var s := Joined(lines);
    if |lines| == 1 {
      NoLineEnd(s, 0);
    } else {
      var rest := Joined(lines[1..]);
      FindLine(lines[0], rest, 0, |s|);
      assert s[..|lines[0]|] == lines[0] && s[|lines[0]| + 2..] == rest;
      LinesOfJoined(lines[1..]);
    }
  }

  function DecimalText(status: nat): Octets
    requires status < 1000
  {
    ['0' + (status / 100) as char, '0' + (status / 10 % 10) as char, '0' + (status % 10) as char]
  }

  function StatusText(minorVersion: char, status: nat, reason: Octets): Octets
    requires status < 1000
  {
    "HTTP/1." + [minorVersion, ' '] + DecimalText(status) + [' '] + reason
  }

  lemma DecimalOfText(status: nat)
    requires status < 1000
    ensures AllDecimal(DecimalText(status)) && Decimal(DecimalText(status)) == status
  {
    var text := DecimalText(status);
    assert text[..2][..1] == text[..1] && text[..1][..0] == [];
    assert Decimal(text[..1]) == status / 100;
    assert Decimal(text[..2]) == status / 10;
  }

  lemma StatusLineReads(minorVersion: char, status: nat, reason: Octets)
    requires IsDecimal(minorVersion) && status < 1000 && '\n' !in reason
    ensures ParseStatusLine(StatusText(minorVersion, status, reason)) == Some(StatusLine(minorVersion, status, reason))
  {
    var line := StatusText(minorVersion, status, reason);
    DecimalOfText(status);
    assert line[9..12] == DecimalText(status);
    assert line[13..] == reason;
    assert line[..7] == "HTTP/1.";
  }

  predicate IsHead(minorVersion: char, status: nat, reason: Octets, fields: seq<FieldSent>) {
    && IsDecimal(minorVersion) && status < 1000 && '\n' !in reason
    && (forall i :: 0 <= i < |fields| ==> IsField(fields[i]))
    && AreLines(HeadLines(minorVersion, status, reason, fields))
  }

  function HeadLines(minorVersion: char, status: nat, reason: Octets, fields: seq<FieldSent>): (lines: seq<Octets>)
    requires status < 1000
    ensures lines != []
  {
    [StatusText(minorVersion, status, reason)] + FieldLines(fields)
  }

  /** The bytes of a head, without the blank line that ends it. */
  function SentHead(line: StatusLine, fields: seq<FieldSent>): Octets
    requires line.status < 1000
  {
    Joined(HeadLines(line.minorVersion, line.status, line.reason, fields))
  }

  /** What a head whose status line and fields are read is read as. */
  function HeadGiven(status: StatusLine, headers: Headers, method_: string, maxBody: nat, sizeBytes: nat)
    : Result<Head, ParseError>
  {
    var framing :- FramingOf(method_, status.status, headers, maxBody);
    Success(HeadOf(status, headers, framing, sizeBytes))
  }

  lemma HeadOfParts(text: Octets, lines: seq<Octets>, status: StatusLine, headers: Headers,
                    method_: string, maxBody: nat)
    requires lines != [] && Lines(text) == lines
    requires ParseStatusLine(lines[0]) == Some(status)
    requires ParseFields(lines[1..], map[]) == Success(headers)
    ensures ParseHead(text, method_, maxBody) == HeadGiven(status, headers, method_, maxBody, |text| + HEAD_END_BYTES)
  {
  }

  /**
   A head as sent is read as sent: its status, its reason and its fields, those sent
   twice joined, framed and closing the connection as those say.
   */
  lemma SentHeadReads(line: StatusLine, fields: seq<FieldSent>, text: Octets, headers: Headers,
                      method_: string, maxBody: nat)
    requires IsHead(line.minorVersion, line.status, line.reason, fields)
    requires text == SentHead(line, fields) && headers == Collected(fields, map[])
    ensures ParseHead(text, method_, maxBody) == HeadGiven(line, headers, method_, maxBody, |text| + HEAD_END_BYTES)
  {
    var lines := SentLines(line, fields, text, headers);
    HeadOfParts(text, lines, line, headers, method_, maxBody);
  }

  lemma SentLines(line: StatusLine, fields: seq<FieldSent>, text: Octets, headers: Headers) returns (lines: seq<Octets>)
    requires IsHead(line.minorVersion, line.status, line.reason, fields)
    requires text == SentHead(line, fields) && headers == Collected(fields, map[])
    ensures lines != [] && Lines(text) == lines
    ensures ParseFields(lines[1..], map[]) == Success(headers)
    ensures ParseStatusLine(lines[0]) == Some(line)
  {
    lines := HeadLines(line.minorVersion, line.status, line.reason, fields);
    LinesOfJoined(lines);
    StatusLineReads(line.minorVersion, line.status, line.reason);
    FieldsRead(fields, map[]);
    assert lines[1..] == FieldLines(fields);
  }

  /** Without a Connection field, HTTP/1.0 closes the connection and HTTP/1.1 keeps it. */
  lemma UnsaidConnectionCloses(minorVersion: char, headers: Headers)
    requires "connection" !in headers
    ensures Closes(minorVersion, headers) <==> minorVersion == '0'
  {
    assert Cut([], ',') == [[]];
    assert Trim([], IsWhite) == [];
    assert Options([])[0] == [];
  }
}
