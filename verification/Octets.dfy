/** Searching bytes, kept as the characters latin-1 reads them as. */
module Octets {
  import opened Wrappers

  type Octets = seq<char>

  const LINE_END: Octets := ['\r', '\n']
  const HEAD_END: Octets := ['\r', '\n', '\r', '\n']
  const LINE_END_BYTES: nat := 2
  const HEAD_END_BYTES: nat := 4

  predicate StandsAt(s: Octets, sub: Octets, i: nat) {
    i + |sub| <= |s| && s[i..i + |sub|] == sub
  }

  /** Where `sub` first stands in `s`, from `start` and all before `stop`. */
  function Find(s: Octets, sub: Octets, start: nat, stop: nat): (at: Option<nat>)
    ensures at.Some? ==> start <= at.value && at.value + |sub| <= stop && StandsAt(s, sub, at.value)
    decreases |s| - start
  {
    if start + |sub| > stop || start + |sub| > |s| || start >= |s| then None
    else if StandsAt(s, sub, start) then Some(start)
    else Find(s, sub, start + 1, stop)
  }

  lemma {:induction false} FindIsFirst(s: Octets, sub: Octets, start: nat, stop: nat, i: nat)
    requires sub != [] && start <= i && i + |sub| <= stop && StandsAt(s, sub, i)
    ensures Find(s, sub, start, stop).Some? && Find(s, sub, start, stop).value <= i
    decreases i - start
  {
    if start < i && !StandsAt(s, sub, start) {
      FindIsFirst(s, sub, start + 1, stop, i);
    }
  }

  /** What is found stays found, and what was searched for in full stays absent, as bytes arrive. */
  lemma {:induction false} FindMore(s: Octets, more: Octets, sub: Octets, start: nat, stop: nat)
    requires sub != []
    ensures Find(s, sub, start, stop).Some? ==> Find(s + more, sub, start, stop) == Find(s, sub, start, stop)
    ensures |s| >= stop ==> Find(s + more, sub, start, stop) == Find(s, sub, start, stop)
    decreases |s| - start
  {
    if start + |sub| <= |s| {
      assert (s + more)[start..start + |sub|] == s[start..start + |sub|];
      if start + |sub| <= stop && !StandsAt(s, sub, start) {
        FindMore(s, more, sub, start + 1, stop);
      }
    }
  }

  /** Whether `sub` stands in `whole` just where it does in `s`, so much further on. */
  ghost predicate Alike(s: Octets, whole: Octets, shift: nat, sub: Octets) {
    |whole| == shift + |s| && forall i: nat :: StandsAt(whole, sub, shift + i) <==> StandsAt(s, sub, i)
  }

  lemma AlikeAt(s: Octets, whole: Octets, shift: nat, sub: Octets, i: nat)
    requires Alike(s, whole, shift, sub)
    ensures |whole| == shift + |s| && (StandsAt(whole, sub, shift + i) <==> StandsAt(s, sub, i))
  {
    assert StandsAt(whole, sub, shift + i) <==> StandsAt(s, sub, i);
  }

  lemma ShiftedAlike(front: Octets, s: Octets, whole: Octets, sub: Octets)
    requires whole == front + s
    ensures Alike(s, whole, |front|, sub)
  {
    forall i: nat
      ensures StandsAt(whole, sub, |front| + i) <==> StandsAt(s, sub, i)
    {
      StandsShifted(front, s, whole, sub, i);
    }
  }

  /** Searching past bytes in front finds what searching without them does. */
  lemma {:induction false} FindAlike(s: Octets, whole: Octets, shift: nat, sub: Octets, start: nat, stop: nat)
    requires sub != [] && Alike(s, whole, shift, sub)
    ensures Find(whole, sub, shift + start, shift + stop) ==
            match Find(s, sub, start, stop) case None => None case Some(i) => Some(shift + i)
    decreases |s| - start
  {
    AlikeAt(s, whole, shift, sub, start);
    if start + |sub| <= |s| && start + |sub| <= stop && !StandsAt(s, sub, start) {
      FindAlike(s, whole, shift, sub, start + 1, stop);
    }
  }

  lemma StandsShifted(front: Octets, s: Octets, whole: Octets, sub: Octets, i: nat)
    requires whole == front + s
    ensures |whole| == |front| + |s|
    ensures StandsAt(whole, sub, |front| + i) <==> StandsAt(s, sub, i)
  {
    if i + |sub| <= |s| {
      assert whole[|front| + i..|front| + i + |sub|] == s[i..i + |sub|];
    }
  }

  /** Where bytes stand in a stretch of others, they stand in those. */
  lemma StandsWithin(b: Octets, from: nat, to: nat, sub: Octets, i: nat)
    requires from <= to <= |b| && StandsAt(b[from..to], sub, i)
    ensures from + i + |sub| <= to && StandsAt(b, sub, from + i)
  {
    var stretch := b[from..to];
    forall k | 0 <= k < |sub|
      ensures b[from + i..from + i + |sub|][k] == sub[k]
    {
      assert stretch[i..i + |sub|][k] == stretch[i + k];
    }
  }

  /** The lines `s` holds, between line breaks. */
  function Lines(s: Octets): (lines: seq<Octets>)
    ensures |lines| >= 1
    decreases |s|
  {
    match Find(s, LINE_END, 0, |s|)
    case None => [s]
    case Some(i) => [s[..i]] + Lines(s[i + 2..])
  }

  function IndexOf(s: Octets, c: char): (i: nat)
    ensures i <= |s| && (i < |s| ==> s[i] == c)
    ensures forall j :: 0 <= j < i ==> s[j] != c
  {
    if s == [] || s[0] == c then 0 else 1 + IndexOf(s[1..], c)
  }

  function Cut(s: Octets, c: char): (pieces: seq<Octets>)
    ensures |pieces| >= 1
    decreases |s|
  {
    var i := IndexOf(s, c);
    if i == |s| then [s] else [s[..i]] + Cut(s[i + 1..], c)
  }

  predicate IsBlank(c: char) {
    c == ' ' || c == '\t'
  }

  /** What text is stripped of, of what latin-1 holds. */
  predicate IsWhite(c: char) {
    '\t' <= c <= '\r' || '\U{1c}' <= c <= ' ' || c == '\U{85}' || c == '\U{a0}'
  }

  function Trim(s: Octets, drops: char -> bool): Octets {
    if s == [] then []
    else if drops(s[0]) then Trim(s[1..], drops)
    else if drops(s[|s| - 1]) then Trim(s[..|s| - 1], drops)
    else s
  }
}
