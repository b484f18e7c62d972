/** Following a path through a bundle's symlinks, as POSIX does. */
module Symlinks {
  import opened Wrappers
  import opened Text
  import opened Shapes

  /** As Linux's. */
  const MAX_SYMLINK_HOPS: nat := 40
  const PARENT := ".."

  datatype PathEnd = Outside | TooManyLinks | BeneathFile | NotFound

  type Segments = seq<string>

  /** What stands at a path: a link, with its target's segments; a file; or what may be passed, or not. */
  datatype Seen = Link(target: Segments) | AFile | Passable | Missing

  /** What `entries` hold at a path; with `directories`, what is no entry must be one of them. */
  function LooksIn(entries: map<string, Entry>, directories: Option<set<string>>): Segments -> Seen {
    (at: Segments) =>
      var path := Join(at, '/');
      if path in entries && entries[path].Symlink? then Link(Split(entries[path].target, '/'))
      else if path in entries && entries[path].File? then AFile
      else if directories.Some? && path !in directories.value then Missing
      else Passable
  }

  predicate IsNoStep(segment: string) {
    segment == "" || segment == "."
  }

  // ---- The meaning: each link followed to its end, from where it stands ----

  datatype Walked = At(at: Segments, left: nat) | Ends(end: PathEnd)

  /**
   The path `path` leads to from `at`, following at most `left` links, and how many more may
   be. `more` is whether anything of the path follows.
   */
  function Walk(at: Segments, path: Segments, left: nat, more: bool, look: Segments -> Seen): (r: Walked)
    ensures r.At? ==> r.left <= left
    decreases left, 1 + |path|
  {
    if path == [] then At(at, left)
    else
      match Step(at, path[0], left, more || |path| > 1, look)
      case Ends(end) => Ends(end)
      case At(next, leftThen) => Walk(next, path[1..], leftThen, more, look)
  }

  function Step(at: Segments, segment: string, left: nat, more: bool, look: Segments -> Seen): (r: Walked)
    ensures r.At? ==> r.left <= left
    decreases left, 0
  {
    if IsNoStep(segment) then At(at, left)
    else if segment == PARENT then if at == [] then Ends(Outside) else At(at[..|at| - 1], left)
    else
      match look(at + [segment])
      case Link(target) => if left == 0 then Ends(TooManyLinks) else Walk(at, target, left - 1, more, look)
      case AFile => if more then Ends(BeneathFile) else At(at + [segment], left)
      case Missing => Ends(NotFound)
      case Passable => At(at + [segment], left)
  }

  /** Walking one path and then another is walking both in turn, with the links left over. */
  lemma {:induction false} WalkComposes(at: Segments, first: Segments, second: Segments, left: nat, more: bool,
                                        look: Segments -> Seen)
    ensures Walk(at, first + second, left, more, look) ==
            match Walk(at, first, left, more || second != [], look)
            case Ends(end) => Ends(end)
            case At(then_, leftThen) => Walk(then_, second, leftThen, more, look)
    decreases |first|
  {
    var both := first + second;
    if first == [] {
      assert both == second;
    } else {
      assert both[0] == first[0] && both[1..] == first[1..] + second;
      assert (more || |both| > 1) == (more || second != [] || |first| > 1);
      match Step(at, first[0], left, more || |both| > 1, look) {
        case Ends(_) =>
        case At(next, leftThen) => WalkComposes(next, first[1..], second, leftThen, more, look);
      }
    }
  }

  predicate IsStep(segment: string) {
    !IsNoStep(segment) && segment != PARENT
  }

  // ---- The loop -----------------------------------------------------------

  /** How far the loop has got: where, what is left of the path, and how many links it has followed. */
  datatype Trail = Going(reached: Segments, pending: Segments, hops: nat) | Ended(end: PathEnd)

  /** What one segment of a path does to the rest of it; a link puts its target in front. */
  function Advance(t: Trail, look: Segments -> Seen): Trail
    requires t.Going? && t.pending != []
  {
    var segment, rest := t.pending[0], t.pending[1..];
    if IsNoStep(segment) then t.(pending := rest)
    else if segment == PARENT then
      if t.reached == [] then Ended(Outside) else t.(reached := t.reached[..|t.reached| - 1], pending := rest)
    else
      match look(t.reached + [segment])
      case Link(target) =>
        if t.hops == MAX_SYMLINK_HOPS then Ended(TooManyLinks)
        else t.(pending := target + rest, hops := t.hops + 1)
      case AFile => if rest != [] then Ended(BeneathFile) else t.(reached := t.reached + [segment], pending := rest)
      case Missing => Ended(NotFound)
      case Passable => t.(reached := t.reached + [segment], pending := rest)
  }

  /** Where the rest of a trail leads. */
  function Leads(t: Trail, look: Segments -> Seen): Walked
    requires t.Going? ==> t.hops <= MAX_SYMLINK_HOPS
  {
    match t
    case Ended(end) => Ends(end)
    case Going(reached, pending, hops) => Walk(reached, pending, MAX_SYMLINK_HOPS - hops, false, look)
  }

  /** Putting a link's target in front of what is left leads where following the link first does. */
  lemma AdvanceLeadsOn(t: Trail, look: Segments -> Seen)
    requires t.Going? && t.pending != [] && t.hops <= MAX_SYMLINK_HOPS
    ensures var next := Advance(t, look);
            (next.Going? ==> next.hops <= MAX_SYMLINK_HOPS) && Leads(t, look) == Leads(next, look)
  {
    NextStep(t.reached, t.pending[0], t.pending[1..], MAX_SYMLINK_HOPS - t.hops, look);
    assert t.pending == [t.pending[0]] + t.pending[1..];
  }

  /** What one segment of a path does to where it leads. */
  lemma NextStep(at: Segments, segment: string, rest: Segments, left: nat, look: Segments -> Seen)
    ensures var r := Walk(at, [segment] + rest, left, false, look);
            if IsNoStep(segment) then r == Walk(at, rest, left, false, look)
            else if segment == PARENT then
              if at == [] then r == Ends(Outside) else r == Walk(at[..|at| - 1], rest, left, false, look)
            else
              match look(at + [segment])
              case Link(target) =>
                if left == 0 then r == Ends(TooManyLinks) else r == Walk(at, target + rest, left - 1, false, look)
              case AFile => if rest != [] then r == Ends(BeneathFile) else r == At(at + [segment], left)
              case Missing => r == Ends(NotFound)
              case Passable => r == Walk(at + [segment], rest, left, false, look)
  {
    var path := [segment] + rest;
    assert path[1..] == rest;
    if IsStep(segment) && look(at + [segment]).Link? && left > 0 {
      WalkComposes(at, look(at + [segment]).target, rest, left - 1, false, look);
    }
  }

  /** Follows `path` from `start`, a segment at a time. */
  method Follow(start: Segments, path: Segments, look: Segments -> Seen) returns (r: Result<Segments, PathEnd>)
    ensures r == match Walk(start, path, MAX_SYMLINK_HOPS, false, look)
                 case Ends(end) => Failure(end)
                 case At(at, _) => Success(at)
  {
    var reached, pending, hops := start, path, 0;
    while pending != []
      invariant hops <= MAX_SYMLINK_HOPS
      invariant Leads(Going(reached, pending, hops), look) == Walk(start, path, MAX_SYMLINK_HOPS, false, look)
      decreases MAX_SYMLINK_HOPS - hops, |pending|
    {
      ghost var next := Advance(Going(reached, pending, hops), look);
      AdvanceLeadsOn(Going(reached, pending, hops), look);
      var segment := pending[0];
      pending := pending[1..];
      if segment == PARENT {
        if reached == [] {
          return Failure(Outside);
        }
        reached := reached[..|reached| - 1];
      } else if !IsNoStep(segment) {
        match look(reached + [segment]) {
          case Link(target) =>
            hops := hops + 1;
            if hops > MAX_SYMLINK_HOPS {
              return Failure(TooManyLinks);
            }
            pending := target + pending;
          case AFile =>
            if pending != [] {
              return Failure(BeneathFile);
            }
            reached := reached + [segment];
          case Missing =>
            return Failure(NotFound);
          case Passable =>
            reached := reached + [segment];
        }
      }
      assert Going(reached, pending, hops) == next;
    }
    r := Success(reached);
  }

  /** The entry path `path` leads to from `start`, or why it leads to none. */
  method PathReached(entries: map<string, Entry>, start: Segments, path: string, directories: Option<set<string>>)
    returns (r: Result<string, PathEnd>)
    ensures r == match Walk(start, Split(path, '/'), MAX_SYMLINK_HOPS, false, LooksIn(entries, directories))
                 case Ends(end) => Failure(end)
                 case At(at, _) => Success(Join(at, '/'))
  {
    var followed := Follow(start, Split(path, '/'), LooksIn(entries, directories));
    match followed {
      case Failure(end) => r := Failure(end);
      case Success(at) => r := Success(Join(at, '/'));
    }
  }

  // ---- Where a walk may end -----------------------------------------------

  /** Each part of the way is a real step, to no link; and beneath no file, but for the whole. */
  predicate Clear(at: Segments, look: Segments -> Seen) {
    forall k :: 0 < k <= |at| ==> ClearTo(at, k, look)
  }

  predicate ClearTo(at: Segments, k: nat, look: Segments -> Seen)
    requires 0 < k <= |at|
  {
    IsStep(at[k - 1]) && !look(at[..k]).Link? && !look(at[..k]).Missing? && (look(at[..k]).AFile? ==> k == |at|)
  }

  predicate AtFile(at: Segments, look: Segments -> Seen) {
    at != [] && look(at).AFile?
  }

  /**
   From where every step is clear, a walk gets to where every step is: it never ends on a
   link, or beneath a file, or where nothing is; and at a file only if nothing is to follow.
   */
  lemma {:induction false} WalkStaysClear(at: Segments, path: Segments, left: nat, more: bool, look: Segments -> Seen)
    requires Clear(at, look) && !AtFile(at, look)
    ensures var r := Walk(at, path, left, more, look);
            r.At? ==> Clear(r.at, look) && (AtFile(r.at, look) ==> !more)
    decreases left, 1 + |path|
  {
    if path != [] {
      StepStaysClear(at, path[0], left, more || |path| > 1, look);
      match Step(at, path[0], left, more || |path| > 1, look) {
        case Ends(_) =>
        case At(next, leftThen) =>
          if |path| > 1 {
            WalkStaysClear(next, path[1..], leftThen, more, look);
          }
      }
    }
  }

  lemma {:induction false} StepStaysClear(at: Segments, segment: string, left: nat, more: bool, look: Segments -> Seen)
    requires Clear(at, look) && !AtFile(at, look)
    ensures var r := Step(at, segment, left, more, look);
            r.At? ==> Clear(r.at, look) && (AtFile(r.at, look) ==> !more)
    decreases left, 0
  {
    if IsNoStep(segment) {
    } else if segment == PARENT {
      if at != [] {
        ParentIsClear(at, look);
      }
    } else {
      match look(at + [segment]) {
        case Link(target) =>
          if left > 0 {
            WalkStaysClear(at, target, left - 1, more, look);
          }
        case Missing =>
        case _ => ChildIsClear(at, segment, look);
      }
    }
  }

  lemma ParentIsClear(at: Segments, look: Segments -> Seen)
    requires at != [] && Clear(at, look)
    ensures Clear(at[..|at| - 1], look) && !AtFile(at[..|at| - 1], look)
  {
    var parent := at[..|at| - 1];
    forall k | 0 < k <= |parent|
      ensures ClearTo(parent, k, look)
    {
      assert ClearTo(at, k, look);
      assert parent[..k] == at[..k];
    }
    if parent != [] {
      assert ClearTo(at, |parent|, look);
      assert parent[..|parent|] == at[..|parent|] == parent;
    }
  }

  lemma ChildIsClear(at: Segments, segment: string, look: Segments -> Seen)
    requires Clear(at, look) && !AtFile(at, look) && IsStep(segment)
    requires look(at + [segment]).AFile? || look(at + [segment]).Passable?
    ensures Clear(at + [segment], look)
  {
    var child := at + [segment];
    forall k | 0 < k <= |child|
      ensures ClearTo(child, k, look)
    {
      if k == |child| {
        assert child[..k] == child;
      } else {
        assert ClearTo(at, k, look);
        assert child[..k] == at[..k];
        assert k == |at| ==> at[..k] == at;
      }
    }
  }

  /** From the root, a path never reaches a symlink, nor what is beneath a file or nowhere. */
  lemma RootReachesNoLink(entries: map<string, Entry>, path: string, directories: Option<set<string>>, left: nat)
    ensures var look := LooksIn(entries, directories);
            var r := Walk([], Split(path, '/'), left, false, look);
            r.At? ==> Clear(r.at, look) && (r.at != [] ==> !look(r.at).Link? && !look(r.at).Missing?)
  {
    var look := LooksIn(entries, directories);
    WalkStaysClear([], Split(path, '/'), left, false, look);
    var r := Walk([], Split(path, '/'), left, false, look);
    if r.At? && r.at != [] {
      assert ClearTo(r.at, |r.at|, look) && r.at[..|r.at|] == r.at;
    }
  }

  function EntryAt(entries: map<string, Entry>, at: Segments): Option<Entry> {
    if Join(at, '/') in entries then Some(entries[Join(at, '/')]) else None
  }

  /** What stands at a path is its own entry, if that is a link or a file, or else whether it is a directory. */
  lemma SeesWhatIsThere(entries: map<string, Entry>, directories: Option<set<string>>, at: Segments)
    ensures var seen, entry := LooksIn(entries, directories)(at), EntryAt(entries, at);
            && (seen.Link? <==> entry.Some? && entry.value.Symlink?)
            && (seen.Link? ==> seen.target == Split(entry.value.target, '/'))
            && (seen.AFile? <==> entry.Some? && entry.value.File?)
            && (seen.Missing? <==> (entry.Some? ==> entry.value.Marker?) && directories.Some? &&
                                   Join(at, '/') !in directories.value)
  {
  }

  /** From the root, every path on the way to what is reached is that of no link, nor of a file but for the last. */
  lemma RootReachesWhatIsThere(entries: map<string, Entry>, path: string, directories: Option<set<string>>, left: nat, k: nat)
    requires Walk([], Split(path, '/'), left, false, LooksIn(entries, directories)).At?
    requires 0 < k <= |Walk([], Split(path, '/'), left, false, LooksIn(entries, directories)).at|
    ensures var at := Walk([], Split(path, '/'), left, false, LooksIn(entries, directories)).at;
            var entry := EntryAt(entries, at[..k]);
            && IsStep(at[k - 1])
            && (entry.Some? ==> !entry.value.Symlink? && (entry.value.File? ==> k == |at|))
            && (directories.Some? ==> (entry.Some? && entry.value.File?) || Join(at[..k], '/') in directories.value)
  {
    var look := LooksIn(entries, directories);
    var at := Walk([], Split(path, '/'), left, false, look).at;
    WalkStaysClear([], Split(path, '/'), left, false, look);
    SeesWhatIsThere(entries, directories, at[..k]);
    assert ClearTo(at, k, look);
  }

  // ---- The limit on links -------------------------------------------------

  /** More links allowed change no answer but that there were too many. */
  lemma {:induction false} MoreLinksChangeNothing(at: Segments, path: Segments, left: nat, extra: nat, more: bool,
                                                  look: Segments -> Seen)
    ensures match Walk(at, path, left, more, look)
            case Ends(TooManyLinks) => true
            case Ends(end) => Walk(at, path, left + extra, more, look) == Ends(end)
            case At(then_, leftThen) => Walk(at, path, left + extra, more, look) == At(then_, leftThen + extra)
    decreases left, 1 + |path|
  {
    if path != [] {
      MoreLinksStep(at, path[0], left, extra, more || |path| > 1, look);
      match Step(at, path[0], left, more || |path| > 1, look) {
        case Ends(_) =>
        case At(next, leftThen) => MoreLinksChangeNothing(next, path[1..], leftThen, extra, more, look);
      }
    }
  }

  lemma {:induction false} MoreLinksStep(at: Segments, segment: string, left: nat, extra: nat, more: bool,
                                         look: Segments -> Seen)
    ensures match Step(at, segment, left, more, look)
            case Ends(TooManyLinks) => true
            case Ends(end) => Step(at, segment, left + extra, more, look) == Ends(end)
            case At(then_, leftThen) => Step(at, segment, left + extra, more, look) == At(then_, leftThen + extra)
    decreases left, 0
  {
    if IsStep(segment) {
      var seen := look(at + [segment]);
      if seen.Link? && left > 0 {
        MoreLinksChangeNothing(at, seen.target, left - 1, extra, more, look);
      }
    }
  }

  /** A link to itself is never got to the end of, however many links may be followed. */
  lemma {:induction false} LoopEnds(at: Segments, segment: string, left: nat, more: bool, look: Segments -> Seen)
    requires IsStep(segment) && look(at + [segment]) == Link([segment])
    ensures Walk(at, [segment], left, more, look) == Ends(TooManyLinks)
  {
    if left > 0 {
      LoopEnds(at, segment, left - 1, more, look);
    }
  }

  // ---- Where there are no links -------------------------------------------

  /** `path` taken as it is spelled, each ".." undoing the step before it. */
  function Spelled(at: Segments, path: Segments): Option<Segments>
    decreases |path|
  {
    if path == [] then Some(at)
    else if IsNoStep(path[0]) then Spelled(at, path[1..])
    else if path[0] == PARENT then if at == [] then None else Spelled(at[..|at| - 1], path[1..])
    else Spelled(at + [path[0]], path[1..])
  }

  /** Without links or files, a path leads where it is spelled to, and outside exactly if that climbs above the root. */
  lemma {:induction false} WithoutLinksIsSpelled(at: Segments, path: Segments, left: nat, more: bool, look: Segments -> Seen)
    requires forall p :: look(p).Passable?
    ensures Walk(at, path, left, more, look) ==
            match Spelled(at, path) case None => Ends(Outside) case Some(to) => At(to, left)
    decreases |path|
  {
    if path != [] {
      match Step(at, path[0], left, more || |path| > 1, look) {
        case Ends(_) =>
        case At(next, leftThen) => WithoutLinksIsSpelled(next, path[1..], leftThen, more, look);
      }
    }
  }
}
