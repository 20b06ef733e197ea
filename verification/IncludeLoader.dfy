/** Loading tool definitions through nested includes (`_load_definitions` in app/engine/tool_wrapper.py). */
module IncludeLoader {
  import opened Wrappers
  import opened Sorting

  type Path = string
  type Definition = string

  /** An include entry, resolved: inside the registry root, or outside it. */
  datatype Include = Inside(path: Path) | Escaping

  datatype File = Malformed | Config(tools: map<string, Definition>, includes: seq<Include>)

  type Files = map<Path, File>

  datatype Error = CyclicInclude(path: Path) | Missing(path: Path) | BadConfig(path: Path) | Escapes(path: Path) | DuplicateTool(name: string) | NoTools

  // ----- The unfolded include tree -----

  /** A walk names a place in the unfolded tree: the positions of the include entries followed from the start. */
  type Walk = seq<nat>

  predicate CanFollow(files: Files, path: Path, i: nat) {
    path in files && files[path].Config? && i < |files[path].includes| && files[path].includes[i].Inside?
  }

  function Followed(files: Files, path: Path, i: nat): Path
    requires CanFollow(files, path, i)
  {
    files[path].includes[i].path
  }

  function Reach(files: Files, path: Path, walk: Walk): Option<Path>
    decreases |walk|
  {
    if walk == [] then Some(path)
    else if CanFollow(files, path, walk[0]) then Reach(files, Followed(files, path, walk[0]), walk[1..])
    else None
  }

  /** The files passed on the way, the start included. */
  function Trail(files: Files, path: Path, walk: Walk): seq<Path>
    requires Reach(files, path, walk).Some?
    decreases |walk|
  {
    if walk == [] then [path] else [path] + Trail(files, Followed(files, path, walk[0]), walk[1..])
  }

  predicate Readable(files: Files, path: Path) {
    path in files && files[path].Config? && forall i | 0 <= i < |files[path].includes| :: files[path].includes[i].Inside?
  }

  ghost predicate SoundWalk(files: Files, path: Path, visited: set<Path>, walk: Walk)
    requires Reach(files, path, walk).Some?
  {
    && Readable(files, Reach(files, path, walk).value)
    && NoDup(Trail(files, path, walk))
    && (forall p | p in Trail(files, path, walk) :: p !in visited)
  }

  /** Every place in the tree is a readable file, and no branch passes a file twice or passes a visited one. */
  ghost predicate Sound(files: Files, path: Path, visited: set<Path>) {
    forall walk | Reach(files, path, walk).Some? :: SoundWalk(files, path, visited, walk)
  }

  /** The tool `name` is defined at this place. */
  ghost predicate DefinedAt(files: Files, path: Path, walk: Walk, name: string) {
    && Reach(files, path, walk).Some?
    && var p := Reach(files, path, walk).value;
    && p in files && files[p].Config? && name in files[p].tools
  }

  function DefinitionAt(files: Files, path: Path, walk: Walk, name: string): Definition
    requires DefinedAt(files, path, walk, name)
  {
    files[Reach(files, path, walk).value].tools[name]
  }

  ghost predicate Defined(files: Files, path: Path, name: string) {
    exists walk :: DefinedAt(files, path, walk, name)
  }

  /** No tool name occurs at two places of the tree. */
  ghost predicate Unique(files: Files, path: Path) {
    forall v, w, name | DefinedAt(files, path, v, name) && DefinedAt(files, path, w, name) :: v == w
  }

  /** `loaded` holds exactly the definitions found in the tree. */
  ghost predicate UnionOf(files: Files, path: Path, loaded: map<string, Definition>) {
    && (forall name :: name in loaded <==> Defined(files, path, name))
    && (forall walk, name | DefinedAt(files, path, walk, name) ::
          name in loaded && loaded[name] == DefinitionAt(files, path, walk, name))
  }

  /** The walk ends at `p`, which was visited already or is passed earlier on the walk. */
  ghost predicate Closes(files: Files, path: Path, visited: set<Path>, walk: Walk, p: Path) {
    Reach(files, path, walk) == Some(p) && (p in visited || exists i | 0 <= i < |walk| ::
          Reach(files, path, walk[..i]) == Some(p))
  }

  ghost predicate Repeated(files: Files, path: Path, name: string) {
    exists v, w :: v != w && DefinedAt(files, path, v, name) && DefinedAt(files, path, w, name)
  }

  /** Every refusal names a real defect of the tree. */
  ghost predicate Justified(files: Files, path: Path, visited: set<Path>, error: Error) {
    match error
    case CyclicInclude(p) => exists walk :: Closes(files, path, visited, walk, p)
    case Missing(p) => p !in files && exists walk :: Reach(files, path, walk) == Some(p)
    case BadConfig(p) => p in files && files[p].Malformed? && exists walk :: Reach(files, path, walk) == Some(p)
    case Escapes(p) => p in files && files[p].Config? && Escaping in files[p].includes && exists walk :: Reach(files, path, walk) == Some(p)
    case DuplicateTool(name) => Repeated(files, path, name)
    case NoTools => false
  }

  lemma ReachBelow(files: Files, path: Path, i: nat, walk: Walk)
    requires CanFollow(files, path, i)
    ensures Reach(files, path, [i] + walk) == Reach(files, Followed(files, path, i), walk)
  {
    assert ([i] + walk)[1..] == walk;
  }

  lemma ClosesBelow(files: Files, path: Path, visited: set<Path>, i: nat, walk: Walk, p: Path)
    requires CanFollow(files, path, i) && Closes(files, Followed(files, path, i), visited + {path}, walk, p)
    ensures Closes(files, path, visited, [i] + walk, p)
  {
    ReachBelow(files, path, i, walk);
    var longer := [i] + walk;
    if p == path {
      assert Reach(files, path, longer[..0]) == Some(p);
    } else if p !in visited {
      var k :| 0 <= k < |walk| && Reach(files, Followed(files, path, i), walk[..k]) == Some(p);
      ReachBelow(files, path, i, walk[..k]);
      assert longer[..k + 1] == [i] + walk[..k];
    }
  }

  /** A defect of an included file's tree is one of the including file's tree. */
  lemma JustifiedBelow(files: Files, path: Path, visited: set<Path>, i: nat, error: Error)
    requires CanFollow(files, path, i) && Justified(files, Followed(files, path, i), visited + {path}, error)
    ensures Justified(files, path, visited, error)
  {
    var below := Followed(files, path, i);
    match error
    case CyclicInclude(p) =>
      var walk :| Closes(files, below, visited + {path}, walk, p);
      ClosesBelow(files, path, visited, i, walk, p);
    case DuplicateTool(name) =>
      var v, w :| v != w && DefinedAt(files, below, v, name) && DefinedAt(files, below, w, name);
      ReachBelow(files, path, i, v);
      ReachBelow(files, path, i, w);
      assert ([i] + v)[1..] == v && ([i] + w)[1..] == w;
      assert DefinedAt(files, path, [i] + v, name) && DefinedAt(files, path, [i] + w, name);
    case Missing(p) => var walk :| Reach(files, below, walk) == Some(p); ReachBelow(files, path, i, walk);
    case BadConfig(p) => var walk :| Reach(files, below, walk) == Some(p); ReachBelow(files, path, i, walk);
    case Escapes(p) => var walk :| Reach(files, below, walk) == Some(p); ReachBelow(files, path, i, walk);
    case NoTools =>
  }

  /** What the file itself can be refused for. */
  ghost predicate RefusedHere(files: Files, path: Path, visited: set<Path>, error: Error) {
    if path in visited then error == CyclicInclude(path)
    else if path !in files then error == Missing(path)
    else if files[path].Malformed? then error == BadConfig(path)
    else Escaping in files[path].includes && error == Escapes(path)
  }

  lemma RefusedIsUnsound(files: Files, path: Path, visited: set<Path>, error: Error)
    requires RefusedHere(files, path, visited, error)
    ensures Justified(files, path, visited, error) && !Sound(files, path, visited)
  {
    assert Reach(files, path, []) == Some(path);
    assert path in visited ==> Closes(files, path, visited, [], path);
    SoundStep(files, path, visited);
  }

  // ----- One level of the tree -----

  lemma DefinedAtStep(files: Files, path: Path, walk: Walk, name: string)
    ensures walk == [] ==> (DefinedAt(files, path, walk, name) <==> path in files && files[path].Config? && name in files[path].tools)
    ensures walk != [] ==> (DefinedAt(files, path, walk, name) <==>
              CanFollow(files, path, walk[0]) && DefinedAt(files, Followed(files, path, walk[0]), walk[1..], name))
  {
  }

  lemma DefinedBelow(files: Files, path: Path, i: nat, name: string)
    requires CanFollow(files, path, i) && Defined(files, Followed(files, path, i), name)
    ensures exists rest :: DefinedAt(files, path, [i] + rest, name)
  {
    var rest :| DefinedAt(files, Followed(files, path, i), rest, name);
    assert ([i] + rest)[1..] == rest;
    DefinedAtStep(files, path, [i] + rest, name);
  }

  /** A file is sound exactly when it is not visited, is readable, and each include is sound below it. */
  lemma SoundStep(files: Files, path: Path, visited: set<Path>)
    ensures Sound(files, path, visited) ==> path !in visited && Readable(files, path)
    ensures forall i: nat | Sound(files, path, visited) && CanFollow(files, path, i) ::
              Sound(files, Followed(files, path, i), visited + {path})
    ensures path !in visited && Readable(files, path)
            && (forall i: nat | CanFollow(files, path, i) :: Sound(files, Followed(files, path, i), visited + {path}))
            ==> Sound(files, path, visited)
  {
    if Sound(files, path, visited) {
      assert SoundWalk(files, path, visited, []);
      assert path in Trail(files, path, []);
      forall i: nat, rest | CanFollow(files, path, i) && Reach(files, Followed(files, path, i), rest).Some?
        ensures SoundWalk(files, Followed(files, path, i), visited + {path}, rest)
      {
        SoundTail(files, path, visited, i, rest);
      }
    }
    if path !in visited && Readable(files, path)
       && (forall i: nat | CanFollow(files, path, i) :: Sound(files, Followed(files, path, i), visited + {path})) {
      forall walk | Reach(files, path, walk).Some? ensures SoundWalk(files, path, visited, walk) {
        if walk != [] {
          var below := Followed(files, path, walk[0]);
          assert SoundWalk(files, below, visited + {path}, walk[1..]);
          PrependTrail(path, Trail(files, below, walk[1..]));
        }
      }
    }
  }

  lemma PrependTrail(path: Path, trail: seq<Path>)
    ensures NoDup([path] + trail) <==> NoDup(trail) && path !in trail
  {
    var longer := [path] + trail;
    if NoDup(longer) {
      forall i, j | 0 <= i < j < |trail| ensures trail[i] != trail[j] { assert longer[i + 1] != longer[j + 1]; }
      forall i | 0 <= i < |trail| ensures trail[i] != path { assert longer[0] != longer[i + 1]; }
    }
  }

  lemma SoundTail(files: Files, path: Path, visited: set<Path>, i: nat, rest: Walk)
    requires Sound(files, path, visited) && CanFollow(files, path, i)
    requires Reach(files, Followed(files, path, i), rest).Some?
    ensures SoundWalk(files, Followed(files, path, i), visited + {path}, rest)
  {
    var walk := [i] + rest;
    assert walk[1..] == rest;
    assert SoundWalk(files, path, visited, walk);
    var below := Trail(files, Followed(files, path, i), rest);
    assert Trail(files, path, walk) == [path] + below;
    PrependTrail(path, below);
    forall p | p in below ensures p !in visited + {path} { assert p in [path] + below; }
  }

  // ----- Merging includes one after the other -----

  /** Names found in the file itself or under its first `k` includes. */
  ghost predicate DefinedUpTo(files: Files, path: Path, k: nat, walk: Walk, name: string) {
    DefinedAt(files, path, walk, name) && (walk == [] || walk[0] < k)
  }

  ghost predicate UniqueUpTo(files: Files, path: Path, k: nat) {
    forall v, w, name | DefinedUpTo(files, path, k, v, name) && DefinedUpTo(files, path, k, w, name) :: v == w
  }

  ghost predicate UnionUpTo(files: Files, path: Path, k: nat, loaded: map<string, Definition>) {
    && (forall name | name in loaded :: exists walk :: DefinedUpTo(files, path, k, walk, name))
    && (forall walk, name | DefinedUpTo(files, path, k, walk, name) ::
          name in loaded && loaded[name] == DefinitionAt(files, path, walk, name))
  }

  /** Adding the definitions of the next include keeps the union, if no name is there twice. */
  lemma MergeNext(files: Files, path: Path, k: nat, loaded: map<string, Definition>, sub: map<string, Definition>)
    requires CanFollow(files, path, k) && UnionUpTo(files, path, k, loaded)
             && UnionOf(files, Followed(files, path, k), sub)
    requires UniqueUpTo(files, path, k) && Unique(files, Followed(files, path, k)) && loaded.Keys !! sub.Keys
    ensures UnionUpTo(files, path, k + 1, loaded + sub) && UniqueUpTo(files, path, k + 1)
  {
    var below, m := Followed(files, path, k), k + 1;
    forall walk, name | DefinedUpTo(files, path, m, walk, name)
      ensures if walk != [] && walk[0] == k then DefinedAt(files, below, walk[1..], name) && name in sub
              else DefinedUpTo(files, path, k, walk, name) && name in loaded
      ensures name in loaded + sub && (loaded + sub)[name] == DefinitionAt(files, path, walk, name)
    {
      DefinedAtStep(files, path, walk, name);
      if walk == [] || walk[0] != k { assert DefinedUpTo(files, path, k, walk, name); }
    }
    forall name | name in loaded + sub ensures exists walk :: DefinedUpTo(files, path, m, walk, name) {
      if name in sub {
        DefinedBelow(files, path, k, name);
        var rest :| DefinedAt(files, path, [k] + rest, name);
        assert DefinedUpTo(files, path, m, [k] + rest, name);
      } else {
        var walk :| DefinedUpTo(files, path, k, walk, name);
        assert DefinedUpTo(files, path, m, walk, name);
      }
    }
    forall v, w, name | DefinedUpTo(files, path, m, v, name) && DefinedUpTo(files, path, m, w, name) ensures v == w {
      if v != [] && v[0] == k {
        assert name in sub && DefinedAt(files, below, v[1..], name);
        assert w != [] && w[0] == k && DefinedAt(files, below, w[1..], name);
        assert v[1..] == w[1..];
        assert v == [k] + v[1..] && w == [k] + w[1..];
      } else {
        assert name in loaded;
        assert DefinedUpTo(files, path, k, w, name);
      }
    }
  }

  /** A name found both before and under the next include occurs twice in the tree. */
  lemma ClashNotUnique(files: Files, path: Path, k: nat, loaded: map<string, Definition>, sub: map<string,
                       Definition>, name: string)
    requires CanFollow(files, path, k) && UnionUpTo(files, path, k, loaded)
             && UnionOf(files, Followed(files, path, k), sub)
    requires name in loaded && name in sub
    ensures Repeated(files, path, name) && !Unique(files, path)
  {
    var walk :| DefinedUpTo(files, path, k, walk, name);
    DefinedBelow(files, path, k, name);
    var rest :| DefinedAt(files, path, [k] + rest, name);
    assert walk != [k] + rest;
  }

  lemma UniqueBelow(files: Files, path: Path, k: nat)
    requires CanFollow(files, path, k) && Unique(files, path)
    ensures Unique(files, Followed(files, path, k))
  {
    var below := Followed(files, path, k);
    forall v, w, name | DefinedAt(files, below, v, name) && DefinedAt(files, below, w, name) ensures v == w {
      assert ([k] + v)[1..] == v && ([k] + w)[1..] == w;
      DefinedAtStep(files, path, [k] + v, name);
      DefinedAtStep(files, path, [k] + w, name);
      assert [k] + v == [k] + w;
    }
  }

  /** The state of the loop over the includes: the first `k` are loaded and nothing was refused. */
  ghost predicate LoadedUpTo(files: Files, path: Path, visited: set<Path>, k: nat, loaded: map<string, Definition>) {
    && path !in visited && path in files && files[path].Config? && k <= |files[path].includes|
    && UnionUpTo(files, path, k, loaded) && UniqueUpTo(files, path, k)
    && (forall i | 0 <= i < k :: files[path].includes[i].Inside?)
    && (forall i: nat | i < k && CanFollow(files, path, i) :: Sound(files, Followed(files, path, i), visited + {path}))
  }

  lemma LoadedNone(files: Files, path: Path, visited: set<Path>)
    requires path !in visited && path in files && files[path].Config?
    ensures LoadedUpTo(files, path, visited, 0, files[path].tools)
  {
    forall name | name in files[path].tools ensures DefinedUpTo(files, path, 0, [], name) {}
  }

  lemma LoadedNext(files: Files, path: Path, visited: set<Path>, k: nat, loaded: map<string, Definition>,
                   sub: map<string, Definition>)
    requires LoadedUpTo(files, path, visited, k, loaded) && CanFollow(files, path, k)
    requires Sound(files, Followed(files, path, k), visited + {path}) && Unique(files, Followed(files, path, k))
    requires UnionOf(files, Followed(files, path, k), sub) && loaded.Keys !! sub.Keys
    ensures LoadedUpTo(files, path, visited, k + 1, loaded + sub)
  {
    MergeNext(files, path, k, loaded, sub);
  }

  lemma LoadedAll(files: Files, path: Path, visited: set<Path>, loaded: map<string, Definition>)
    requires path in files && files[path].Config? && LoadedUpTo(files, path, visited, |files[path].includes|, loaded)
    ensures Sound(files, path, visited) && Unique(files, path) && UnionOf(files, path, loaded)
  {
    var n := |files[path].includes|;
    SoundStep(files, path, visited);
    forall walk, name | DefinedAt(files, path, walk, name) ensures DefinedUpTo(files, path, n, walk, name) {
      DefinedAtStep(files, path, walk, name);
    }
  }

  /** An include that cannot be loaded makes the whole file unloadable, for the same reason. */
  lemma BelowFails(files: Files, path: Path, visited: set<Path>, k: nat, error: Error)
    requires CanFollow(files, path, k) && Justified(files, Followed(files, path, k), visited + {path}, error)
    requires !(Sound(files, Followed(files, path, k), visited + {path}) && Unique(files, Followed(files, path, k)))
    ensures Justified(files, path, visited, error) && !(Sound(files, path, visited) && Unique(files, path))
  {
    JustifiedBelow(files, path, visited, k, error);
    if Sound(files, path, visited) && Unique(files, path) {
      SoundStep(files, path, visited);
      UniqueBelow(files, path, k);
    }
  }

  class ToolWrapperFactory {
    const files: Files
    var visited: set<Path>

    constructor (files: Files)
      ensures this.files == files && visited == {}
    {
      this.files, visited := files, {};
    }

    /** The duplicate check while the definitions of an include are copied over. */
    method Merge(combined: map<string, Definition>, sub: map<string, Definition>)
      returns (r: Result<map<string, Definition>, Error>)
      ensures r.Success? <==> combined.Keys !! sub.Keys
      ensures r.Success? ==> r.value == combined + sub
      ensures r.Failure? ==> r.error.DuplicateTool? && r.error.name in combined && r.error.name in sub
    {
      var result := combined;
      var left := sub.Keys;
      while left != {}
        invariant left <= sub.Keys
        invariant result == combined + (sub - left)
        invariant (sub.Keys - left) !! combined.Keys
        decreases left
      {
        var name :| name in left;
        if name in result {
          return Failure(DuplicateTool(name));
        }
        result := result[name := sub[name]];
        left := left - {name};
      }
      assert sub - left == sub;
      return Success(result);
    }

    /** `_load_definitions`: terminates although it takes files off the visited set again.  It succeeds exactly on a
        sound tree without repeated names, and then returns the union of the tree's definitions. */
    method LoadDefinitions(path: Path) returns (r: Result<map<string, Definition>, Error>)
      requires visited <= files.Keys
      modifies this`visited
      ensures r.Success? <==> Sound(files, path, old(visited)) && Unique(files, path)
      ensures r.Success? ==> UnionOf(files, path, r.value) && visited == old(visited)
      ensures r.Failure? ==> Justified(files, path, old(visited), r.error)
      decreases files.Keys - visited
    {
      if path in visited {
        RefusedIsUnsound(files, path, visited, CyclicInclude(path));
        return Failure(CyclicInclude(path));
      }
      if path !in files {
        RefusedIsUnsound(files, path, visited, Missing(path));
        return Failure(Missing(path));
      }
      visited := visited + {path};
      var config := files[path];
      if config.Malformed? {
        RefusedIsUnsound(files, path, old(visited), BadConfig(path));
        return Failure(BadConfig(path));
      }
      var combined := config.tools;
      LoadedNone(files, path, old(visited));
      for k := 0 to |config.includes|
        invariant visited == old(visited) + {path}
        invariant LoadedUpTo(files, path, old(visited), k, combined)
      {
        if config.includes[k].Escaping? {
          RefusedIsUnsound(files, path, old(visited), Escapes(path));
          return Failure(Escapes(path));
        }
        assert CanFollow(files, path, k);
        var sub := LoadDefinitions(config.includes[k].path);
        if sub.Failure? {
          BelowFails(files, path, old(visited), k, sub.error);
          return sub;
        }
        var merged := Merge(combined, sub.value);
        if merged.Failure? {
          ClashNotUnique(files, path, k, combined, sub.value, merged.error.name);
          return merged;
        }
        LoadedNext(files, path, old(visited), k, combined, sub.value);
        combined := merged.value;
      }
      LoadedAll(files, path, old(visited), combined);
      visited := visited - {path};
      return Success(combined);
    }
  }

  /** The definition step of `load`: the whole registry, refused when it defines no tool. */
  method LoadRegistry(files: Files, root: Path) returns (r: Result<map<string, Definition>, Error>)
    ensures r.Success? <==> Sound(files, root, {}) && Unique(files, root) && exists name :: Defined(files, root, name)
    ensures r.Success? ==> UnionOf(files, root, r.value)
    ensures r.Failure? ==> Justified(files, root, {}, r.error)
                           || (r.error == NoTools && Sound(files, root, {}) && forall name :: !Defined(files, root, name))
  {
    var factory := new ToolWrapperFactory(files);
    r := factory.LoadDefinitions(root);
    if r.Success? && |r.value| == 0 {
      assert forall name :: name !in r.value;
      r := Failure(NoTools);
    } else if r.Success? {
      assert r.value.Keys != {};
      var name :| name in r.value;
      assert Defined(files, root, name);
    }
  }
}
