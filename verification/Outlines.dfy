/** What entries make of a directory, but for metadata: every path, and what is there. */
module Outlines {
  import opened Wrappers
  import opened Text
  import opened Shapes

  /** A file's bytes are known by its parts. */
  datatype Thing = AFile(parts: seq<string>) | ALink(target: string) | ADirectory

  function ThingOf(entry: Entry): Thing {
    match entry
    case File(parts, _, _, _) => AFile(parts)
    case Symlink(target) => ALink(target)
    case Marker(_) => ADirectory
  }

  /** The directory `depth` segments down on the way to `path`. */
  function AncestorAt(path: string, depth: nat): string
    requires depth <= |Split(path, '/')|
  {
    Join(Split(path, '/')[..depth], '/')
  }

  /** Every directory above one of `paths`. */
  function Ancestors(paths: set<string>): set<string> {
    set path, depth | path in paths && 1 <= depth < |Split(path, '/')| :: AncestorAt(path, depth)
  }

  function Outline(entries: map<string, Entry>): map<string, Thing> {
    (map path | path in Ancestors(entries.Keys) :: ADirectory) +
    (map path | path in entries :: ThingOf(entries[path]))
  }

  predicate Beneath(path: string, directory: string) {
    directory + "/" <= path
  }

  /** What is at `path` once `entries` are made: its own entry, or a directory others lie beneath. */
  ghost function WhatIsAt(entries: map<string, Entry>, path: string): Option<Thing> {
    if path in entries then Some(ThingOf(entries[path]))
    else if exists other :: other in entries && Beneath(other, path) then Some(ADirectory)
    else None
  }

  /** Whether two sets of entries make the same paths, kinds, bytes and targets. */
  ghost predicate SameContent(e: map<string, Entry>, f: map<string, Entry>) {
    forall path :: WhatIsAt(e, path) == WhatIsAt(f, path)
  }

  lemma SplitPrepends(c: char, a: seq<string>, b: seq<string>, separator: char)
    requires a != []
    ensures [[c] + (a + b)[0]] + (a + b)[1..] == ([[c] + a[0]] + a[1..]) + b
    ensures [""] + (a + b) == ([""] + a) + b
  {
    assert (a + b)[1..] == a[1..] + b;
  }

  lemma {:induction false} SplitOfBoth(a: string, b: string, separator: char)
    ensures Split(a + [separator] + b, separator) == Split(a, separator) + Split(b, separator)
  {
    var whole := a + [separator] + b;
    if a == [] {
      assert whole[1..] == b;
    } else {
      SplitOfBoth(a[1..], b, separator);
      assert whole[0] == a[0] && whole[1..] == a[1..] + [separator] + b;
      SplitPrepends(a[0], Split(a[1..], separator), Split(b, separator), separator);
    }
  }

  lemma {:induction false} JoinOfBoth(a: seq<string>, b: seq<string>, separator: char)
    requires a != [] && b != []
    ensures Join(a + b, separator) == Join(a, separator) + [separator] + Join(b, separator)
  {
    assert (a + b)[1..] == a[1..] + b;
    if |a| > 1 {
      JoinOfBoth(a[1..], b, separator);
    }
  }

  /** A path's ancestors are the directories it lies beneath. */
  lemma AncestorsAreAbove(paths: set<string>, directory: string)
    ensures directory in Ancestors(paths) <==> exists path :: path in paths && Beneath(path, directory)
  {
    if directory in Ancestors(paths) {
      var path, depth :| path in paths && 1 <= depth < |Split(path, '/')| && directory == AncestorAt(path, depth);
      var segments := Split(path, '/');
      JoinOfSplit(path, '/');
      assert segments == segments[..depth] + segments[depth..];
      JoinOfBoth(segments[..depth], segments[depth..], '/');
      assert Beneath(path, directory);
    }
    if path :| path in paths && Beneath(path, directory) {
      var rest := path[|directory| + 1..];
      assert path == directory + ['/'] + rest;
      SplitOfBoth(directory, rest, '/');
      JoinOfSplit(directory, '/');
      var depth := |Split(directory, '/')|;
      assert Split(path, '/')[..depth] == Split(directory, '/');
      assert directory == AncestorAt(path, depth);
    }
  }

  lemma OutlineAt(entries: map<string, Entry>, path: string)
    ensures path in Outline(entries) <==> WhatIsAt(entries, path).Some?
    ensures path in Outline(entries) ==> WhatIsAt(entries, path) == Some(Outline(entries)[path])
  {
    AncestorsAreAbove(entries.Keys, path);
  }

  /** Outlines are equal exactly when nothing but metadata differs. */
  lemma OutlinesTell(e: map<string, Entry>, f: map<string, Entry>)
    ensures Outline(e) == Outline(f) <==> SameContent(e, f)
  {
    forall path
      ensures path in Outline(e) <==> WhatIsAt(e, path).Some?
      ensures path in Outline(f) <==> WhatIsAt(f, path).Some?
      ensures path in Outline(e) ==> WhatIsAt(e, path) == Some(Outline(e)[path])
      ensures path in Outline(f) ==> WhatIsAt(f, path) == Some(Outline(f)[path])
    {
      OutlineAt(e, path);
      OutlineAt(f, path);
    }
    if SameContent(e, f) {
      forall path
        ensures path in Outline(e) <==> path in Outline(f)
        ensures path in Outline(e) ==> Outline(e)[path] == Outline(f)[path]
      {
        assert WhatIsAt(e, path) == WhatIsAt(f, path);
      }
    }
  }
}
