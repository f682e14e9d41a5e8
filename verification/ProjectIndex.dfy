/**
 * Which repository a directory belongs to: a climb, and a cache of what it found
 * (daemon/src/project-index.ts).
 *
 * Paths are absolute and normalised: a sequence of names, written out with slashes. Which of them
 * hold a `.git` is a set that changes between calls and not during one.
 */
module ProjectIndex {
  import opened Common

  type Name = s: string | s != "" && '/' !in s witness "a"

  type Path = seq<Name>

  const MAX_CLIMB := 40

  // ---------------------------------------------------------------------------------------
  // Paths as text

  function Rendered(p: Path): string {
    if p == [] then "" else "/" + p[0] + Rendered(p[1..])
  }

  function Render(p: Path): string {
    if p == [] then "/" else Rendered(p)
  }

  predicate StartsWith(text: string, prefix: string) {
    prefix <= text
  }

  lemma NamesEndTogether(n: Name, m: Name, x: string, y: string)
    requires n + x <= m + y && x != "" && x[0] == '/' && (y == "" || y[0] == '/')
    ensures n == m && x <= y
  {
    var left, right := n + x, m + y;
    assert left[|n|] == '/' && left[|n|] == right[|n|];
    assert forall i :: 0 <= i < |n| ==> left[i] == n[i] && left[i] != '/' && left[i] == right[i];
    assert forall i :: 0 <= i < |m| ==> right[i] == m[i] && right[i] != '/';
    assert |m| < |right| ==> right[|m|] == '/';
    assert |n| == |m|;
    assert left[..|n|] == n && right[..|n|] == m;
    assert left[|n|..] == x && right[|n|..] == y;
  }

  lemma {:induction false} PrefixOfRendered(p: Path, k: Path)
    ensures Rendered(p) + "/" <= Rendered(k) <==> p < k
  {
    if p == [] {
      assert Rendered(p) + "/" == "/";
      assert k != [] ==> Rendered(k)[0] == '/';
    } else if k != [] {
      var x, y := Rendered(p[1..]) + "/", Rendered(k[1..]);
      PrefixOfRendered(p[1..], k[1..]);
      RenderedOnward(p);
      RenderedOnward(k);
      PathsOnward(p, k);
      hide Rendered;
      AfterTheSlash(p[0] + x, k[0] + y);
      if p[0] + x <= k[0] + y {
        NamesEndTogether(p[0], k[0], x, y);
      }
    }
  }

  lemma RenderedOnward(p: Path)
    requires p != []
    ensures var x := Rendered(p[1..]);
      && Rendered(p) == "/" + (p[0] + x) && Rendered(p) + "/" == "/" + (p[0] + (x + "/"))
      && (x == "" || x[0] == '/') && (x + "/")[0] == '/'
  {
  }

  lemma PathsOnward(p: Path, k: Path)
    requires p != [] && k != []
    ensures p < k <==> p[0] == k[0] && p[1..] < k[1..]
  {
    assert p == [p[0]] + p[1..] && k == [k[0]] + k[1..];
  }

  lemma AfterTheSlash(a: string, b: string)
    ensures "/" + a <= "/" + b <==> a <= b
  {
    assert ("/" + a)[1..] == a && ("/" + b)[1..] == b;
    if "/" + a <= "/" + b {
      assert b[..|a|] == a by {
        assert ("/" + b)[..1 + |a|] == "/" + a;
        assert ("/" + b)[1..1 + |a|] == b[..|a|];
      }
    }
  }

  /** "Starts with this path and a slash" means "is under it" for every path but the root. */
  lemma UnderIff(p: Path, k: Path)
    ensures p != [] ==> (StartsWith(Render(k), Render(p) + "/") <==> p < k)
    ensures p == [] ==> !StartsWith(Render(k), Render(p) + "/")
  {
    if p != [] {
      PrefixOfRendered(p, k);
      if k == [] {
        assert |Rendered(p)| > 1;
      }
    } else if k != [] {
      assert Render(p) + "/" == "//";
      assert Rendered(k) == "/" + (k[0] + Rendered(k[1..])) && Rendered(k)[1] == k[0][0];
    }
  }

  // ---------------------------------------------------------------------------------------
  // The climb

  function Parent(p: Path): Path
    requires p != []
  {
    p[..|p| - 1]
  }

  /** The repository a directory is in: the nearest marked directory at or above it, no higher than home. */
  function RootOf(marked: set<Path>, home: Path, dir: Path): Option<Path> {
    if dir in marked then Some(dir)
    else if dir == home || dir == [] then None
    else RootOf(marked, home, Parent(dir))
  }

  type Cache = map<Path, Option<Path>>

  /** The directories passed, the answer, and whether the climb was given up. */
  datatype Climb = Climb(visited: seq<Path>, answer: Option<Path>, gaveUp: bool)

  function ClimbFrom(cache: Cache, marked: set<Path>, home: Path, current: Path, turns: nat): Climb {
    if turns == 0 then Climb([], None, true)
    else if current in cache then Climb([], cache[current], false)
    else if current in marked then Climb([current], Some(current), false)
    else if current == home || current == [] then Climb([current], None, false)
    else
      var above := ClimbFrom(cache, marked, home, Parent(current), turns - 1);
      above.(visited := [current] + above.visited)
  }

  function Fill(cache: Cache, dirs: seq<Path>, answer: Option<Path>): Cache {
    if dirs == [] then cache else Fill(cache, dirs[..|dirs| - 1], answer)[dirs[|dirs| - 1] := answer]
  }

  function Found(cache: Cache, marked: set<Path>, home: Path, dir: Path): Climb {
    ClimbFrom(cache, marked, home, dir, MAX_CLIMB)
  }

  function AfterFind(cache: Cache, marked: set<Path>, home: Path, dir: Path): Cache {
    var climb := Found(cache, marked, home, dir);
    Fill(cache, climb.visited, climb.answer)
  }

  /** Every remembered answer is the one a fresh climb of any height would give. */
  ghost predicate Right(cache: Cache, marked: set<Path>, home: Path) {
    forall dir :: dir in cache ==> cache[dir] == RootOf(marked, home, dir)
  }

  lemma {:induction false} FillAt(cache: Cache, dirs: seq<Path>, answer: Option<Path>, dir: Path)
    ensures dir in Fill(cache, dirs, answer) <==> dir in cache || dir in dirs
    ensures dir in dirs ==> Fill(cache, dirs, answer)[dir] == answer
    ensures dir !in dirs && dir in cache ==> Fill(cache, dirs, answer)[dir] == cache[dir]
  {
    if dirs != [] {
      FillAt(cache, dirs[..|dirs| - 1], answer, dir);
      assert dirs == dirs[..|dirs| - 1] + [dirs[|dirs| - 1]];
    }
  }

  /** Everything passed on the way up has the same answer, and the climb finds it unless it gives up. */
  lemma {:induction false} ClimbsTogether(cache: Cache, marked: set<Path>, home: Path, dir: Path, turns: nat)
    requires Right(cache, marked, home)
    ensures var climb := ClimbFrom(cache, marked, home, dir, turns);
      && (forall d :: d in climb.visited ==> RootOf(marked, home, d) == RootOf(marked, home, dir))
      && (if climb.gaveUp then climb.answer == None else climb.answer == RootOf(marked, home, dir))
      && (climb.gaveUp && turns > 0 ==> climb.visited != [] && dir in climb.visited)
  {
    if turns > 0 && dir !in cache && dir !in marked && dir != home && dir != [] {
      ClimbsTogether(cache, marked, home, Parent(dir), turns - 1);
    }
  }

  /** When the climb is given up: so many directories in a row with nothing to say, and still more above. */
  lemma {:induction false} GivesUpIff(cache: Cache, marked: set<Path>, home: Path, dir: Path, turns: nat)
    ensures ClimbFrom(cache, marked, home, dir, turns).gaveUp
       <==> turns <= |dir| && forall i :: |dir| - turns < i <= |dir| ==>
              dir[..i] !in cache && dir[..i] !in marked && dir[..i] != home
  {
    if turns > 0 {
      assert dir[..|dir|] == dir;
      if dir !in cache && dir !in marked && dir != home && dir != [] {
        GivesUpIff(cache, marked, home, Parent(dir), turns - 1);
        forall i | 0 <= i < |dir|
          ensures Parent(dir)[..i] == dir[..i]
        {
        }
      }
    }
  }

  /** The exact condition: a lookup spoils the cache only by giving up below a repository. */
  lemma FindKeepsTheCacheRightIff(cache: Cache, marked: set<Path>, home: Path, dir: Path)
    requires Right(cache, marked, home)
    ensures Right(AfterFind(cache, marked, home, dir), marked, home)
       <==> !(Found(cache, marked, home, dir).gaveUp && RootOf(marked, home, dir).Some?)
  {
    var climb := Found(cache, marked, home, dir);
    ClimbsTogether(cache, marked, home, dir, MAX_CLIMB);
    var after := AfterFind(cache, marked, home, dir);
    forall d | d in after
      ensures d in climb.visited ==> after[d] == climb.answer
      ensures d !in climb.visited ==> d in cache && after[d] == cache[d]
    {
      FillAt(cache, climb.visited, climb.answer, d);
    }
    if climb.gaveUp {
      FillAt(cache, climb.visited, climb.answer, dir);
      assert after[dir] == None;
    }
  }

  /** Every directory a fresh climb passes on its way to the repository is remembered as being in it. */
  lemma {:induction false} ClimbPasses(cache: Cache, marked: set<Path>, home: Path, dir: Path, turns: nat, i: nat)
    requires RootOf(marked, home, dir).Some? && |RootOf(marked, home, dir).value| <= i <= |dir|
    requires |dir| < turns + |RootOf(marked, home, dir).value|
    requires forall k :: 0 <= k <= |dir| ==> dir[..k] !in cache
    ensures dir[..i] in ClimbFrom(cache, marked, home, dir, turns).visited
  {
    assert dir[..|dir|] == dir;
    if dir !in marked {
      RootIsNoLonger(marked, home, Parent(dir));
      forall k | 0 <= k < |dir|
        ensures Parent(dir)[..k] == dir[..k]
      {
      }
      if i < |dir| {
        ClimbPasses(cache, marked, home, Parent(dir), turns - 1, i);
      }
    }
  }

  lemma {:induction false} RootIsNoLonger(marked: set<Path>, home: Path, dir: Path)
    ensures RootOf(marked, home, dir).Some? ==> RootOf(marked, home, dir).value <= dir
  {
    if dir !in marked && dir != home && dir != [] {
      RootIsNoLonger(marked, home, Parent(dir));
    }
  }

  /** So one lookup answers for every directory between it and its repository. */
  lemma EveryDirectoryPassedIsRemembered(cache: Cache, marked: set<Path>, home: Path, dir: Path, i: nat)
    requires Right(cache, marked, home) && |dir| < MAX_CLIMB
    requires RootOf(marked, home, dir).Some? && |RootOf(marked, home, dir).value| <= i <= |dir|
    requires forall k :: 0 <= k <= |dir| ==> dir[..k] !in cache
    ensures var after := AfterFind(cache, marked, home, dir);
      dir[..i] in after && after[dir[..i]] == RootOf(marked, home, dir)
  {
    ClimbPasses(cache, marked, home, dir, MAX_CLIMB, i);
    FindIsRight(cache, marked, home, dir);
    var climb := Found(cache, marked, home, dir);
    FillAt(cache, climb.visited, climb.answer, dir[..i]);
  }

  /** No real path is that deep: below the limit, every answer is right and so is everything remembered. */
  lemma FindIsRight(cache: Cache, marked: set<Path>, home: Path, dir: Path)
    requires Right(cache, marked, home) && |dir| < 40
    ensures Found(cache, marked, home, dir).answer == RootOf(marked, home, dir)
    ensures Right(AfterFind(cache, marked, home, dir), marked, home)
    ensures dir in AfterFind(cache, marked, home, dir)
  {
    GivesUpIff(cache, marked, home, dir, MAX_CLIMB);
    ClimbsTogether(cache, marked, home, dir, MAX_CLIMB);
    FindKeepsTheCacheRightIff(cache, marked, home, dir);
    var climb := Found(cache, marked, home, dir);
    FillAt(cache, climb.visited, climb.answer, dir);
  }

  /** A directory forty-one deep in a repository at the top is remembered as being in none. */
  lemma ADeepDirectoryIsLost()
    ensures exists marked: set<Path>, home: Path, dir: Path ::
              |dir| == 41 && !Right(AfterFind(map[], marked, home, dir), marked, home)
  {
    var dir: Path := seq(41, _ => "d");
    var home: Path := ["h"];
    var marked: set<Path> := {["d"]};
    GivesUpIff(map[], marked, home, dir, MAX_CLIMB);
    assert forall i :: 1 < i <= |dir| ==> |dir[..i]| == i;
    RootIsAbove(marked, home, dir);
    FindKeepsTheCacheRightIff(map[], marked, home, dir);
  }

  lemma {:induction false} RootIsAbove(marked: set<Path>, home: Path, dir: Path)
    requires dir != [] && marked == {["d"]} && home == ["h"] && forall i :: 0 <= i < |dir| ==> dir[i] == "d"
    ensures RootOf(marked, home, dir) == Some(["d"])
  {
    if |dir| == 1 {
      assert dir == ["d"];
    } else {
      assert dir != home && dir != ["d"];
      RootIsAbove(marked, home, Parent(dir));
    }
  }

  // ---------------------------------------------------------------------------------------
  // Forgetting

  /** What is forgotten with a path: itself, what is written under it, and the blanks written above it. */
  predicate Forgotten(path: Path, key: Path, value: Option<Path>) {
    || key == path || StartsWith(Render(key), Render(path) + "/")
    || (value.None? && StartsWith(Render(path), Render(key) + "/"))
  }

  function Invalidated(cache: Cache, path: Path): Cache {
    map key | key in cache && !Forgotten(path, key, cache[key]) :: cache[key]
  }

  /** A `.git` appears in or disappears from one directory. */
  predicate ChangedAt(before: set<Path>, after: set<Path>, path: Path) {
    forall dir :: dir in before + after && dir != path ==> dir in before && dir in after
  }

  /** A climb that never comes to a directory does not care about it. */
  lemma {:induction false} OnlyAncestorsMatter(before: set<Path>, after: set<Path>, path: Path, home: Path, dir: Path)
    requires ChangedAt(before, after, path) && !(path <= dir)
    ensures RootOf(before, home, dir) == RootOf(after, home, dir)
  {
    assert dir != path;
    if dir in before || dir in after {
      assert dir in before + after;
    } else if dir != home && dir != [] {
      OnlyAncestorsMatter(before, after, path, home, Parent(dir));
    }
  }

  /** A climb that ends before the top of the filesystem, at home or at a repository. */
  predicate EndsBelowTheTop(marked: set<Path>, home: Path, dir: Path) {
    dir != [] && (dir in marked || dir == home || EndsBelowTheTop(marked, home, Parent(dir)))
  }

  lemma {:induction false} TheTopMattersIff(before: set<Path>, after: set<Path>, home: Path, dir: Path)
    requires ChangedAt(before, after, []) && dir != [] && ([] in before) != ([] in after)
    ensures RootOf(before, home, dir) == RootOf(after, home, dir) <==> EndsBelowTheTop(before, home, dir)
  {
    if dir in before || dir in after {
      assert dir in before + after;
    } else if dir != home {
      var up := Parent(dir);
      if up == [] {
        assert !EndsBelowTheTop(before, home, up);
      } else {
        TheTopMattersIff(before, after, home, up);
      }
    }
  }

  /**
   * After a `.git` appears or disappears and its directory is invalidated, every answer still
   * remembered is right for the filesystem as it now is, exactly when the directory is not the root or
   * no remembered climb gets that far. For the root, "starts with this path and a slash" matches nothing.
   */
  lemma InvalidatingIsEnoughIff(cache: Cache, before: set<Path>, after: set<Path>, path: Path, home: Path)
    requires Right(cache, before, home) && ChangedAt(before, after, path) && (path in before) != (path in after)
    ensures Right(Invalidated(cache, path), after, home)
       <==> path != [] || forall key :: key in cache && key != [] ==> EndsBelowTheTop(before, home, key)
  {
    var left := Invalidated(cache, path);
    if path != [] {
      forall key | key in left
        ensures left[key] == RootOf(after, home, key)
      {
        UnderIff(path, key);
        OnlyAncestorsMatter(before, after, path, home, key);
      }
    } else {
      forall key | key in cache && key != []
        ensures key in left && (left[key] == RootOf(after, home, key) <==> EndsBelowTheTop(before, home, key))
      {
        UnderIff(path, key);
        UnderIff(key, path);
        TheTopMattersIff(before, after, home, key);
      }
    }
  }

  /**
   * And no more is forgotten than has to be: for a path that is not the root, exactly the path itself,
   * everything under it, and whatever above it was remembered as being in no repository.
   */
  lemma WhatIsForgottenIff(cache: Cache, path: Path, key: Path)
    requires path != [] && key in cache
    ensures key in Invalidated(cache, path) <==>
              !(path <= key) && !(key < path && key != [] && cache[key].None?)
    ensures key in Invalidated(cache, path) ==> Invalidated(cache, path)[key] == cache[key]
  {
    UnderIff(path, key);
    UnderIff(key, path);
    assert path <= key <==> path == key || path < key;
  }

  // ---------------------------------------------------------------------------------------
  // Runs

  datatype Event = Look(dir: Path) | Mark(dir: Path) | Unmark(dir: Path)

  datatype World = World(cache: Cache, marked: set<Path>)

  /** A lookup, or a change to the filesystem followed by its invalidation. */
  function Step(w: World, home: Path, e: Event): World {
    match e
    case Look(dir) => w.(cache := AfterFind(w.cache, w.marked, home, dir))
    case Mark(dir) => World(Invalidated(w.cache, dir), w.marked + {dir})
    case Unmark(dir) => World(Invalidated(w.cache, dir), w.marked - {dir})
  }

  function Exec(home: Path, marked: set<Path>, events: seq<Event>): World {
    if events == [] then World(map[], marked)
    else Step(Exec(home, marked, events[..|events| - 1]), home, events[|events| - 1])
  }

  predicate Ordinary(e: Event) {
    if e.Look? then |e.dir| < MAX_CLIMB else e.dir != []
  }

  /** Over any run of lookups and of announced changes below the root, the cache only ever tells the truth. */
  lemma {:induction false} TheCacheIsAlwaysRight(home: Path, marked: set<Path>, events: seq<Event>)
    requires forall k :: 0 <= k < |events| ==> Ordinary(events[k])
    ensures var w := Exec(home, marked, events); Right(w.cache, w.marked, home)
  {
    if events != [] {
      var init, e := events[..|events| - 1], events[|events| - 1];
      TheCacheIsAlwaysRight(home, marked, init);
      var w := Exec(home, marked, init);
      match e
      case Look(dir) => FindIsRight(w.cache, w.marked, home, dir);
      case Mark(dir) =>
        if dir in w.marked {
          assert w.marked + {dir} == w.marked;
        } else {
          InvalidatingIsEnoughIff(w.cache, w.marked, w.marked + {dir}, dir, home);
        }
      case Unmark(dir) =>
        if dir !in w.marked {
          assert w.marked - {dir} == w.marked;
        } else {
          InvalidatingIsEnoughIff(w.cache, w.marked, w.marked - {dir}, dir, home);
        }
    }
  }

  // ---------------------------------------------------------------------------------------
  // The object

  datatype ProjectRef = ProjectRef(root: Path, name: string)

  function Ref(root: Path): ProjectRef {
    ProjectRef(root, if root == [] then "/" else root[|root| - 1])
  }

  /** A repository is called by the last part of its path, as it is written. */
  lemma ARepositoryIsCalledByItsPath(root: Path)
    ensures Ref(root).root == root
    ensures if root == [] then Ref(root).name == Render(root) else Render(root) == Rendered(Parent(root)) + "/" + Ref(root).name
  {
    if root != [] {
      RenderedLast(root);
    }
  }

  lemma {:induction false} RenderedLast(p: Path)
    requires p != []
    ensures Rendered(p) == Rendered(Parent(p)) + "/" + p[|p| - 1]
  {
    if |p| == 1 {
      assert Rendered(p[1..]) == "" && Parent(p) == [];
      assert "/" + p[0] + "" == "" + "/" + p[0];
    } else {
      RenderedLast(p[1..]);
      assert Parent(p)[1..] == Parent(p[1..]) && Parent(p)[0] == p[0];
    }
  }

  function RefOf(root: Option<Path>): Option<ProjectRef> {
    match root
    case None => None
    case Some(path) => Some(Ref(path))
  }

  class ProjectIndex {
    var cache: Cache

    constructor ()
      ensures cache == map[]
    {
      cache := map[];
    }

    /** The repository containing a directory; None for a path that is not absolute. */
    method Find(dir: Option<Path>, marked: set<Path>, home: Path) returns (project: Option<ProjectRef>)
      modifies this
      ensures dir.None? ==> project == None && cache == old(cache)
      ensures dir.Some? ==>
                && project == RefOf(Found(old(cache), marked, home, dir.value).answer)
                && cache == AfterFind(old(cache), marked, home, dir.value)
    {
      if dir.None? {
        return None;
      }
      if dir.value in cache {
        return RefOf(cache[dir.value]);
      }
      var visited: seq<Path> := [];
      var current := dir.value;
      var i := 0;
      ghost var climb := Found(cache, marked, home, dir.value);
      while i < MAX_CLIMB
        modifies this
        invariant i <= MAX_CLIMB && cache == old(cache)
        invariant var rest := ClimbFrom(cache, marked, home, current, MAX_CLIMB - i);
          climb == rest.(visited := visited + rest.visited)
      {
        if current in cache {
          var known := cache[current];
          assert visited + [] == visited;
          Remember(visited, known);
          return RefOf(known);
        }
        ghost var rest := ClimbFrom(cache, marked, home, current, MAX_CLIMB - i);
        assert rest.visited != [] && rest.visited[0] == current;
        assert visited + rest.visited == visited + [current] + rest.visited[1..];
        visited := visited + [current];
        if current in marked {
          Remember(visited, Some(current));
          return Some(Ref(current));
        }
        if current == home || current == [] {
          break;
        }
        current := Parent(current);
        i := i + 1;
      }
      assert climb.visited == visited && climb.answer == None;
      Remember(visited, None);
      return None;
    }

    method Remember(dirs: seq<Path>, answer: Option<Path>)
      modifies this
      ensures cache == Fill(old(cache), dirs, answer)
    {
      var i := 0;
      assert dirs[..0] == [];
      while i < |dirs|
        invariant 0 <= i <= |dirs|
        invariant cache == Fill(old(cache), dirs[..i], answer)
      {
        assert dirs[..i + 1][..i] == dirs[..i];
        cache := cache[dirs[i] := answer];
        i := i + 1;
      }
      assert dirs[..|dirs|] == dirs;
    }

    method Invalidate(path: Path)
      modifies this
      ensures cache == Invalidated(old(cache), path)
    {
      var keys := cache.Keys;
      while keys != {}
        invariant keys <= old(cache).Keys && cache.Keys <= old(cache).Keys
        invariant forall k :: k in cache ==> cache[k] == old(cache)[k]
        invariant forall k :: k in old(cache) ==>
                    (k in cache <==> k in keys || !(k == path || StartsWith(Render(k), Render(path) + "/")))
      {
        var key :| key in keys;
        keys := keys - {key};
        if key == path || StartsWith(Render(key), Render(path) + "/") {
          cache := cache - {key};
        }
      }
      ghost var below := cache;
      keys := cache.Keys;
      while keys != {}
        invariant keys <= below.Keys && cache.Keys <= below.Keys
        invariant forall k :: k in cache ==> cache[k] == below[k]
        invariant forall k :: k in below ==>
                    (k in cache <==> k in keys || !(below[k].None? && StartsWith(Render(path), Render(k) + "/")))
      {
        var key :| key in keys;
        keys := keys - {key};
        if key in cache && cache[key].None? && StartsWith(Render(path), Render(key) + "/") {
          cache := cache - {key};
        }
      }
    }

    /** What is already known, without looking: nothing, in no repository, or which one. */
    method Cached(dir: Path) returns (known: Option<Option<ProjectRef>>)
      ensures known == if dir in cache then Some(RefOf(cache[dir])) else None
    {
      if dir !in cache {
        return None;
      }
      return Some(RefOf(cache[dir]));
    }
  }
}
