/**
 Overlaying a directory bundle's extensions.

 `Meaning.Chain` is the definition: the last extension is resolved first and each before it
 replaces whole entries. `Walk` is the reader's loop: depth-first, keeping the first
 entry found and skipping an extension already visited.
 */
module Overlay {
  import opened Wrappers
  import opened PartPaths
  import opened Shapes

  datatype Loaded = Held(bundle: Bundle) | Absent(ids: seq<ContentId>) | Refused(error: BundleError)

  /** How names are parsed, and what reading each path gives. */
  datatype Reader = Reader(
    parse: string -> Result<PartPath, BundleError>,
    load: PartPath -> Loaded)

  predicate HeldDirectory(r: Reader, p: PartPath) {
    r.load(p).Held? && r.load(p).bundle.Dir?
  }

  function ExtensionsOf(r: Reader, p: PartPath): seq<string> {
    if HeldDirectory(r, p) then r.load(p).bundle.directory.extensions else []
  }

  function EntriesOf(r: Reader, p: PartPath): Layer {
    if HeldDirectory(r, p) then r.load(p).bundle.directory.entries else map[]
  }

  // ---- The reader's loop --------------------------------------------------

  /** Where a walk has got to; `todo` holds the names left, first to be followed first. */
  datatype Trail = Trail(
    resolved: Layer,
    visited: set<PartPath>,
    missing: seq<ContentId>,
    todo: seq<string>,
    loads: seq<PartPath>)

  datatype Answer =
    | Overlaid(entries: map<string, Entry>)
    | Lacking(ids: seq<ContentId>)
    | TooManyExtensions
    | Failed(error: BundleError)

  /** What a walk answers, and the paths it read, in order. */
  datatype Outcome = Outcome(answer: Answer, loads: seq<PartPath>)

  /** `ids`, each once, where it first stands. */
  function Distinct(ids: seq<ContentId>): (distinct: seq<ContentId>)
    ensures forall id :: id in distinct <==> id in ids
    ensures forall i, j :: 0 <= i < j < |distinct| ==> distinct[i] != distinct[j]
  {
    if ids == [] then []
    else
      var front := Distinct(ids[..|ids| - 1]);
      var last := ids[|ids| - 1];
      assert forall id :: id in ids <==> id in ids[..|ids| - 1] || id == last;
      if last in front then front else front + [last]
  }

  function Finished(t: Trail): Outcome {
    Outcome(
      if t.missing != [] then Lacking(Distinct(t.missing)) else Overlaid(Present(t.resolved)),
      t.loads)
  }

  function AfterAbsent(t: Trail, p: PartPath, ids: seq<ContentId>): Trail
    requires t.todo != []
  {
    Trail(t.resolved, t.visited + {p}, t.missing + ids, t.todo[1..], t.loads + [p])
  }

  function AfterDirectory(t: Trail, p: PartPath, directory: Directory): Trail
    requires t.todo != []
  {
    Trail(directory.entries + t.resolved, t.visited + {p}, t.missing,
          directory.extensions + t.todo[1..], t.loads + [p])
  }

  datatype Progress = Going(trail: Trail) | Done(outcome: Outcome)

  /** One turn of the loop. */
  function Advance(r: Reader, max: nat, t: Trail): (next: Progress)
    requires |t.visited| <= max
    ensures next.Going? ==>
              && |next.trail.visited| <= max
              && (|next.trail.visited| > |t.visited| ||
                  (next.trail.visited == t.visited && |next.trail.todo| < |t.todo|))
  {
    if t.todo == [] then Done(Finished(t))
    else
      match r.parse(t.todo[0])
      case Failure(error) => Done(Outcome(Failed(error), t.loads))
      case Success(p) =>
        if p in t.visited then Going(t.(todo := t.todo[1..]))
        else if |t.visited + {p}| > max then Done(Outcome(TooManyExtensions, t.loads))
        else
          match r.load(p)
          case Refused(error) => Done(Outcome(Failed(error), t.loads + [p]))
          case Absent(ids) => Going(AfterAbsent(t, p, ids))
          case Held(Single(_)) => Done(Outcome(Failed(MalformedBundle), t.loads + [p]))
          case Held(Dir(directory)) => Going(AfterDirectory(t, p, directory))
  }

  function Walk(r: Reader, max: nat, t: Trail): Outcome
    requires |t.visited| <= max
    decreases max - |t.visited|, |t.todo|
  {
    match Advance(r, max, t)
    case Done(outcome) => outcome
    case Going(next) => Walk(r, max, next)
  }

  function Start(top: Directory): Trail {
    Trail(top.entries, {}, [], top.extensions, [])
  }

  /** What a reader following at most `max` extensions makes of `top`. */
  function Resolved(r: Reader, top: Directory, max: nat): Outcome {
    Walk(r, max, Start(top))
  }

  /** The names left in a stack of iterators, those of its last first. */
  function Remaining(pending: seq<seq<string>>): seq<string> {
    if pending == [] then []
    else pending[|pending| - 1] + Remaining(pending[..|pending| - 1])
  }

  lemma RemainingOf(below: seq<seq<string>>, names: seq<string>)
    ensures Remaining(below + [names]) == names + Remaining(below)
  {
    assert (below + [names])[..|below|] == below;
  }

  function FrameCount(pending: seq<seq<string>>): nat {
    |Remaining(pending)| + |pending|
  }

  /** The loop as the reader runs it, over a stack of the iterators it has open. */
  method ResolveDirectory(r: Reader, top: Directory, max: nat)
    returns (answer: Answer, loads: seq<PartPath>)
    ensures Outcome(answer, loads) == Resolved(r, top, max)
  {
    var resolved: Layer := top.entries;
    var visited: set<PartPath> := {};
    var missing: seq<ContentId> := [];
    var pending := [top.extensions];
    loads := [];
    RemainingOf([], top.extensions);
    assert [] + [top.extensions] == pending && Remaining(pending) == top.extensions;
    while pending != []
      invariant |visited| <= max
      invariant Walk(r, max, Trail(resolved, visited, missing, Remaining(pending), loads)) == Resolved(r, top, max)
      decreases max - |visited|, FrameCount(pending)
    {
      var names := pending[|pending| - 1];
      var below := pending[..|pending| - 1];
      assert pending == below + [names];
      RemainingOf(below, names);
      ghost var t := Trail(resolved, visited, missing, Remaining(pending), loads);
      if names == [] {
        assert Remaining(below) == Remaining(pending);
        pending := below;
        continue;
      }
      var rest := names[1..];
      RemainingOf(below, rest);
      assert t.todo[0] == names[0] && t.todo[1..] == Remaining(below + [rest]);
      pending := below + [rest];
      var parsed := r.parse(names[0]);
      if parsed.Failure? {
        return Failed(parsed.error), loads;
      }
      var p := parsed.value;
      if p in visited {
        continue;
      }
      if |visited + {p}| > max {
        return TooManyExtensions, loads;
      }
      visited := visited + {p};
      loads := loads + [p];
      match r.load(p) {
        case Refused(error) => return Failed(error), loads;
        case Absent(ids) =>
          missing := missing + ids;
          assert AfterAbsent(t, p, ids) == Trail(resolved, visited, missing, Remaining(pending), loads);
        case Held(Single(_)) => return Failed(MalformedBundle), loads;
        case Held(Dir(extension)) =>
          resolved := extension.entries + resolved;
          RemainingOf(pending, extension.extensions);
          pending := pending + [extension.extensions];
          assert AfterDirectory(t, p, extension) == Trail(resolved, visited, missing, Remaining(pending), loads);
      }
    }
    if missing != [] {
      return Lacking(Distinct(missing)), loads;
    }
    return Overlaid(Present(resolved)), loads;
  }
}
