/** What a walk over extensions reaches, and so what it answers, whatever is loaded. */
module Reach {
  import opened Wrappers
  import opened PartPaths
  import opened Shapes
  import opened Overlay

  ghost predicate Names(r: Reader, names: seq<string>, p: PartPath) {
    exists name :: name in names && r.parse(name) == Success(p)
  }

  ghost predicate Reaches(r: Reader, top: seq<string>, p: PartPath, steps: nat)
    decreases steps
  {
    if steps == 0 then Names(r, top, p)
    else exists q :: Reaches(r, top, q, steps - 1) && Names(r, ExtensionsOf(r, q), p)
  }

  /** Whether `p` is an extension named at the top, or by one reached and held. */
  ghost predicate Reachable(r: Reader, top: seq<string>, p: PartPath) {
    exists steps: nat :: Reaches(r, top, p, steps)
  }

  /** Whether `name` is one a reader comes to. */
  ghost predicate Listed(r: Reader, top: seq<string>, name: string) {
    name in top || exists q :: Reachable(r, top, q) && name in ExtensionsOf(r, q)
  }

  predicate Lacks(r: Reader, p: PartPath, id: ContentId) {
    r.load(p).Absent? && id in r.load(p).ids
  }

  /** Whether reading `p` ends the walk with `error`. */
  predicate Spoils(r: Reader, p: PartPath, error: BundleError) {
    r.load(p) == Refused(error) || (r.load(p).Held? && r.load(p).bundle.Single? && error == MalformedBundle)
  }

  predicate Unspoiled(r: Reader, p: PartPath) {
    HeldDirectory(r, p) || r.load(p).Absent?
  }

  ghost predicate Unique(ps: seq<PartPath>) {
    forall i, j :: 0 <= i < j < |ps| ==> ps[i] != ps[j]
  }

  ghost predicate ReachesExactly(r: Reader, top: seq<string>, ps: seq<PartPath>) {
    forall p :: p in ps <==> Reachable(r, top, p)
  }

  ghost predicate Complete(r: Reader, top: seq<string>, max: nat, loads: seq<PartPath>) {
    && Unique(loads) && |loads| <= max
    && ReachesExactly(r, top, loads)
    && (forall name :: Listed(r, top, name) ==> r.parse(name).Success?)
    && (forall p :: p in loads ==> Unspoiled(r, p))
  }

  ghost predicate TooManyReached(r: Reader, top: seq<string>, max: nat) {
    exists ps :: |ps| == max + 1 && Unique(ps) && forall p :: p in ps ==> Reachable(r, top, p)
  }

  /** What each answer says of everything reachable. */
  ghost predicate Answers(r: Reader, top: seq<string>, max: nat, outcome: Outcome) {
    && Unique(outcome.loads)
    && match outcome.answer
       case Overlaid(_) =>
         && Complete(r, top, max, outcome.loads)
         && forall p, id :: p in outcome.loads ==> !Lacks(r, p, id)
       case Lacking(ids) =>
         && Complete(r, top, max, outcome.loads)
         && (exists id :: id in ids)
         && (forall i, j :: 0 <= i < j < |ids| ==> ids[i] != ids[j])
         && forall id :: id in ids <==> exists p :: Reachable(r, top, p) && Lacks(r, p, id)
       case TooManyExtensions => TooManyReached(r, top, max)
       case Failed(error) =>
         || (exists p :: Reachable(r, top, p) && Spoils(r, p, error))
         || (exists name :: Listed(r, top, name) && r.parse(name) == Failure(error))
  }

  predicate Noted(r: Reader, t: Trail, name: string) {
    name in t.todo || (r.parse(name).Success? && r.parse(name).value in t.visited)
  }

  ghost predicate Sound(r: Reader, top: seq<string>, t: Trail) {
    && (forall p :: p in t.visited ==> Reachable(r, top, p) && Unspoiled(r, p))
    && (forall name :: name in t.todo ==> Listed(r, top, name))
  }

  ghost predicate Closed(r: Reader, top: seq<string>, t: Trail) {
    && (forall name :: name in top ==> Noted(r, t, name))
    && (forall p, name :: p in t.visited && name in ExtensionsOf(r, p) ==> Noted(r, t, name))
  }

  ghost predicate Counted(r: Reader, t: Trail) {
    && Unique(t.loads) && |t.loads| == |t.visited|
    && (forall p :: p in t.loads <==> p in t.visited)
    && (forall id :: id in t.missing <==> exists p :: p in t.visited && Lacks(r, p, id))
  }

  ghost predicate Invariant(r: Reader, top: seq<string>, t: Trail) {
    Sound(r, top, t) && Closed(r, top, t) && Counted(r, t)
  }

  lemma NamedIsReachable(r: Reader, top: seq<string>, name: string)
    requires Listed(r, top, name) && r.parse(name).Success?
    ensures Reachable(r, top, r.parse(name).value)
  {
    var p := r.parse(name).value;
    if name in top {
      assert Reaches(r, top, p, 0);
    } else {
      var q :| Reachable(r, top, q) && name in ExtensionsOf(r, q);
      var steps: nat :| Reaches(r, top, q, steps);
      assert Names(r, ExtensionsOf(r, q), p);
      assert Reaches(r, top, p, steps + 1);
    }
  }

  lemma {:induction false} ReachesVisited(r: Reader, top: seq<string>, t: Trail, p: PartPath, steps: nat)
    requires Closed(r, top, t) && t.todo == [] && Reaches(r, top, p, steps)
    ensures p in t.visited
    decreases steps
  {
    if steps > 0 {
      var q :| Reaches(r, top, q, steps - 1) && Names(r, ExtensionsOf(r, q), p);
      ReachesVisited(r, top, t, q, steps - 1);
      var name :| name in ExtensionsOf(r, q) && r.parse(name) == Success(p);
      assert Noted(r, t, name);
    } else {
      var name :| name in top && r.parse(name) == Success(p);
      assert Noted(r, t, name);
    }
  }

  lemma FinishedAnswers(r: Reader, top: seq<string>, max: nat, t: Trail)
    requires Invariant(r, top, t) && t.todo == [] && |t.visited| <= max
    ensures Answers(r, top, max, Finished(t))
  {
    forall p | Reachable(r, top, p)
      ensures p in t.visited
    {
      var steps: nat :| Reaches(r, top, p, steps);
      ReachesVisited(r, top, t, p, steps);
    }
    forall name | Listed(r, top, name)
      ensures Noted(r, t, name)
    {
    }
    assert Complete(r, top, max, t.loads);
    if t.missing == [] {
      forall p, id | p in t.loads
        ensures !Lacks(r, p, id)
      {
        assert id !in t.missing;
      }
    } else {
      assert t.missing[0] in Distinct(t.missing);
    }
  }

  lemma SkippedKeeps(r: Reader, top: seq<string>, t: Trail)
    requires Invariant(r, top, t) && t.todo != []
    requires r.parse(t.todo[0]).Success? && r.parse(t.todo[0]).value in t.visited
    ensures Invariant(r, top, t.(todo := t.todo[1..]))
  {
    assert forall name :: name in t.todo ==> name == t.todo[0] || name in t.todo[1..];
    assert forall name :: Noted(r, t, name) ==> Noted(r, t.(todo := t.todo[1..]), name);
  }

  lemma ReadKeeps(r: Reader, top: seq<string>, t: Trail, p: PartPath, after: Trail)
    requires Invariant(r, top, t) && t.todo != [] && r.parse(t.todo[0]) == Success(p)
    requires p !in t.visited
    requires || (r.load(p).Absent? && after == AfterAbsent(t, p, r.load(p).ids))
             || (HeldDirectory(r, p) && after == AfterDirectory(t, p, r.load(p).bundle.directory))
    ensures Invariant(r, top, after)
  {
    assert forall name :: name in t.todo ==> name == t.todo[0] || name in t.todo[1..];
    NamedIsReachable(r, top, t.todo[0]);
    assert Sound(r, top, after);
    assert forall name :: Noted(r, t, name) ==> Noted(r, after, name);
    assert forall name :: name in ExtensionsOf(r, p) ==> Noted(r, after, name);
    assert Closed(r, top, after);
    assert forall id :: id in after.missing <==> id in t.missing || Lacks(r, p, id);
  }

  lemma DoneAnswers(r: Reader, top: seq<string>, max: nat, t: Trail, p: PartPath)
    requires Invariant(r, top, t) && |t.visited| <= max && Advance(r, max, t).Done?
    requires t.todo != [] && r.parse(t.todo[0]) == Success(p) && Reachable(r, top, p)
    ensures Answers(r, top, max, Advance(r, max, t).outcome)
  {
    if |t.visited + {p}| > max {
      var ps := t.loads + [p];
      assert |ps| == max + 1 && Unique(ps);
      assert TooManyReached(r, top, max);
    } else {
      assert Spoils(r, p, Advance(r, max, t).outcome.answer.error);
    }
  }

  lemma {:induction false} WalkAnswers(r: Reader, top: seq<string>, max: nat, t: Trail)
    requires Invariant(r, top, t) && |t.visited| <= max
    ensures Answers(r, top, max, Walk(r, max, t))
    decreases max - |t.visited|, |t.todo|
  {
    if t.todo == [] {
      FinishedAnswers(r, top, max, t);
    } else if r.parse(t.todo[0]).Failure? {
      assert Listed(r, top, t.todo[0]);
    } else {
      var p := r.parse(t.todo[0]).value;
      NamedIsReachable(r, top, t.todo[0]);
      match Advance(r, max, t) {
        case Going(next) =>
          if p in t.visited {
            SkippedKeeps(r, top, t);
          } else {
            ReadKeeps(r, top, t, p, next);
          }
          WalkAnswers(r, top, max, next);
        case Done(outcome) =>
          DoneAnswers(r, top, max, t, p);
      }
    }
  }

  /** Every answer a reader gives says exactly what is reachable, each path read once. */
  lemma ResolvedAnswers(r: Reader, top: Directory, max: nat)
    ensures Answers(r, top.extensions, max, Resolved(r, top, max))
  {
    WalkAnswers(r, top.extensions, max, Start(top));
  }

  lemma {:induction false} UniqueWithin(ps: seq<PartPath>, whole: set<PartPath>)
    requires Unique(ps) && forall p :: p in ps ==> p in whole
    ensures |ps| <= |whole|
  {
    if ps != [] {
      assert forall p :: p in ps[1..] ==> p in ps && p != ps[0];
      UniqueWithin(ps[1..], whole - {ps[0]});
    }
  }

  /** A reader overlays what it is given whenever nothing reachable stands in its way. */
  lemma OverlaysWhatItCan(r: Reader, top: Directory, max: nat, reached: set<PartPath>)
    requires |reached| <= max
    requires forall p :: Reachable(r, top.extensions, p) ==> p in reached && HeldDirectory(r, p)
    requires forall name :: Listed(r, top.extensions, name) ==> r.parse(name).Success?
    ensures Resolved(r, top, max).answer.Overlaid?
    ensures |Resolved(r, top, max).loads| <= |reached|
  {
    ResolvedAnswers(r, top, max);
    var outcome := Resolved(r, top, max);
    match outcome.answer {
      case Overlaid(_) => UniqueWithin(outcome.loads, reached);
      case Lacking(ids) =>
        assert false;
      case TooManyExtensions =>
        var ps :| |ps| == max + 1 && Unique(ps) && forall p :: p in ps ==> Reachable(r, top.extensions, p);
        UniqueWithin(ps, reached);
      case Failed(error) =>
    }
  }
}
