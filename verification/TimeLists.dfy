/** A time noted for each of some content, in the order noted. */
module TimeLists {
  import opened Wrappers
  import opened PartPaths

  type Time = real

  datatype Entry = Entry(key: ContentId, at: Time)

  function At(entries: seq<Entry>, key: ContentId): Option<Time> {
    if entries == [] then None else if entries[0].key == key then Some(entries[0].at) else At(entries[1..], key)
  }

  predicate EachOnce(entries: seq<Entry>) {
    entries == [] || (At(entries[1..], entries[0].key).None? && EachOnce(entries[1..]))
  }

  /** `key` noted at `at`, in its place if it was noted before, otherwise last. */
  function Put(entries: seq<Entry>, key: ContentId, at: Time): seq<Entry> {
    if entries == [] then [Entry(key, at)]
    else if entries[0].key == key then [Entry(key, at)] + entries[1..]
    else [entries[0]] + Put(entries[1..], key, at)
  }

  function Without(entries: seq<Entry>, key: ContentId): seq<Entry> {
    if entries == [] then []
    else if entries[0].key == key then entries[1..]
    else [entries[0]] + Without(entries[1..], key)
  }

  /** Those first noted for `by` or before, dropped. */
  function Dropped(entries: seq<Entry>, until: Time): seq<Entry> {
    if entries != [] && entries[0].at <= until then Dropped(entries[1..], until) else entries
  }

  lemma {:induction false} PutIsAt(entries: seq<Entry>, key: ContentId, at: Time, other: ContentId)
    requires EachOnce(entries)
    ensures At(Put(entries, key, at), other) == if other == key then Some(at) else At(entries, other)
    ensures EachOnce(Put(entries, key, at))
  {
    if entries != [] {
      PutIsAt(entries[1..], key, at, other);
      PutIsAt(entries[1..], key, at, entries[0].key);
    }
  }

  lemma {:induction false} WithoutIsNotAt(entries: seq<Entry>, key: ContentId, other: ContentId)
    requires EachOnce(entries)
    ensures At(Without(entries, key), other) == if other == key then None else At(entries, other)
    ensures EachOnce(Without(entries, key))
  {
    if entries != [] {
      WithoutIsNotAt(entries[1..], key, other);
      WithoutIsNotAt(entries[1..], key, entries[0].key);
    }
  }

  /** Dropping what is over drops nothing that is not. */
  lemma {:induction false} DroppedIsOver(entries: seq<Entry>, until: Time, key: ContentId)
    requires EachOnce(entries)
    ensures var at := At(entries, key);
            At(Dropped(entries, until), key) == at ||
            (At(Dropped(entries, until), key).None? && at.Some? && at.value <= until)
    ensures EachOnce(Dropped(entries, until))
  {
    if entries != [] && entries[0].at <= until {
      DroppedIsOver(entries[1..], until, key);
    }
  }

  predicate InOrder(entries: seq<Entry>) {
    forall i, j :: 0 <= i < j < |entries| ==> entries[i].at <= entries[j].at
  }

  predicate UpTo(entries: seq<Entry>, now: Time) {
    forall i :: 0 <= i < |entries| ==> entries[i].at <= now
  }

  /** Of entries in order of time, dropping leaves those after `until` alone. */
  lemma {:induction false} DroppedInOrder(entries: seq<Entry>, until: Time)
    requires InOrder(entries)
    ensures var left := Dropped(entries, until);
            && InOrder(left) && (forall now :: UpTo(entries, now) ==> UpTo(left, now))
            && (forall i :: 0 <= i < |left| ==> left[i].at > until)
  {
    if entries != [] && entries[0].at <= until {
      DroppedInOrder(entries[1..], until);
    }
  }

  lemma {:induction false} WithoutInOrder(entries: seq<Entry>, key: ContentId)
    requires InOrder(entries)
    ensures InOrder(Without(entries, key))
    ensures forall now :: UpTo(entries, now) ==> UpTo(Without(entries, key), now)
    ensures forall entry :: entry in Without(entries, key) ==> entry in entries
  {
    if entries != [] && entries[0].key != key {
      WithoutInOrder(entries[1..], key);
      var rest := Without(entries[1..], key);
      forall i | 0 <= i < |rest|
        ensures entries[0].at <= rest[i].at
      {
        assert rest[i] in entries[1..];
      }
    }
    assert forall entry :: entry in Without(entries, key) ==> entry in entries;
    forall now, i | UpTo(entries, now) && 0 <= i < |Without(entries, key)|
      ensures Without(entries, key)[i].at <= now
    {
      assert Without(entries, key)[i] in entries;
    }
  }

  /** What is noted is noted at some time. */
  lemma {:induction false} AtIsOne(entries: seq<Entry>, key: ContentId) returns (i: nat)
    requires At(entries, key).Some?
    ensures i < |entries| && entries[i] == Entry(key, At(entries, key).value)
  {
    if entries[0].key == key {
      i := 0;
    } else {
      i := AtIsOne(entries[1..], key);
      i := i + 1;
    }
  }
}
