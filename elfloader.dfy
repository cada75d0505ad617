/**
 * The ELF-loader application descriptor: the values it holds, the make
 * arguments it derives (with the libc libraries first), its sorted name
 * listings, target lookup and replacement, and its component list.
 */
module ElfLoader {
  import opened Wrappers
  import opened GoSort
  import opened MapUpdates
  import GoFilepath

  /** kconfig.DotConfigFileName */
  const DotConfigFileName := ".config"

  /** A library component: its name, its directory and whether its source is unpacked. */
  datatype Library = Library(name: string, path: string, unpacked: bool)

  /** A build target: its name and the path of the kernel image it builds. */
  datatype Target = Target(name: string, kernel: string)

  /** The Unikraft core component, by the source it is taken from. */
  datatype UnikraftConfig = UnikraftConfig(source: string)

  /** The components an application is made of. */
  datatype Component = CoreComponent(core: UnikraftConfig) | LibraryComponent(library: Library)

  /** A Go map of libraries by name; a reference, so copies of a loader share it. */
  class LibraryMap {
    var entries: map<string, Library>

    constructor (entries: map<string, Library>)
      ensures this.entries == entries
    {
      this.entries := entries;
    }
  }

  /** The entries of a library map; a nil map reads as empty. */
  function Entries(m: LibraryMap?): map<string, Library>
    reads m
  {
    if m == null then map[] else m.entries
  }

  datatype ELFLoader = ELFLoader(
    name: string,
    version: string,
    source: string,
    path: string,
    workingDir: string,
    outDir: string,
    filename: string,
    binname: string,
    kraftfiles: seq<string>,
    configuration: map<string, string>,
    unikraft: UnikraftConfig,
    libraries: LibraryMap?,
    targets: seq<Target>)
  {
    /** Path: the application's directory, which is its working directory. */
    function Path(): string
    {
      workingDir
    }
  }

  /** core.MakeArgs; the library directories are kept as a list. */
  datatype CoreMakeArgs = CoreMakeArgs(
    outputDir: string, applicationDir: string, libraryDirs: seq<string>, configPath: string, name: string)

  /**
   * The .config file of the application: `.config` in the working directory,
   * followed by a dot and the base name of the target's kernel when a target
   * is given.
   */
  function KConfigFile(l: ELFLoader, tc: Option<Target>): (k: string)
    ensures var dot := GoFilepath.Join(l.workingDir, DotConfigFileName);
      && |dot| <= |k| && k[..|dot|] == dot
      && (tc.None? <==> k == dot)
      && (tc.Some? ==> k[|dot|..] == "." + GoFilepath.Base(tc.value.kernel))
  {
    var dot := GoFilepath.Join(l.workingDir, DotConfigFileName);
    if tc.None? then dot
    else
      var k := dot + ("." + GoFilepath.Base(tc.value.kernel));
      assert k[..|dot|] == dot && k[|dot|..] == "." + GoFilepath.Base(tc.value.kernel);
      k
  }

  /**
   * The configuration file sits in the application's path, whatever the
   * target, when that path is clean (the form filepath.Join leaves alone).
   */
  lemma KConfigFileInPath(l: ELFLoader, tc: Option<Target>)
    requires GoFilepath.Clean(l.Path()) && l.Path() != "."
    ensures var k := KConfigFile(l, tc);
      |l.Path()| < |k| && k[..|l.Path()|] == l.Path()
  {
  }

  /** The libc libraries that go first, in order: musl, or else newlib and then pthread-embedded. */
  function LibcOrder(m: map<string, Library>): (p: seq<string>)
    ensures forall i :: 0 <= i < |p| ==> p[i] in m
    ensures forall i, j :: 0 <= i < j < |p| ==> p[i] != p[j]
  {
    if "musl" in m then ["musl"]
    else if "newlib" in m then ["newlib"] + (if "pthread-embedded" in m then ["pthread-embedded"] else [])
    else []
  }

  /** `order` lists every key of `keys` exactly once, and nothing else. */
  ghost predicate IsEnumeration(order: seq<string>, keys: set<string>)
  {
    multiset(order) == multiset(keys)
  }

  /** An enumeration is as long as the set it enumerates. */
  lemma EnumerationSize(order: seq<string>, keys: set<string>)
    requires IsEnumeration(order, keys)
    ensures |order| == |keys|
  {
    assert |multiset(order)| == |order|;
    assert |multiset(keys)| == |keys|;
  }

  /** Listing one more key, not listed before, keeps the listing an enumeration. */
  lemma EnumerationExtend(order: seq<string>, done: set<string>, k: string)
    requires IsEnumeration(order, done) && k !in done
    ensures IsEnumeration(order + [k], done + {k})
  {
    assert multiset(done + {k}) == multiset(done) + multiset{k};
  }

  /** The libc listing enumerates exactly the keys it names. */
  lemma EnumerationPrefix(libc: seq<string>, done: set<string>)
    requires forall i, j :: 0 <= i < j < |libc| ==> libc[i] != libc[j]
    requires forall k :: k in done <==> k in libc
    ensures IsEnumeration(libc, done)
  {
    if libc != [] {
      var last := libc[|libc| - 1];
      var init := libc[..|libc| - 1];
      EnumerationPrefix(init, done - {last});
      assert libc == init + [last];
      EnumerationExtend(init, done - {last}, last);
      assert done == (done - {last}) + {last};
    }
  }

  /** The error for a library whose source is not unpacked. */
  function NoSourceError(name: string): string
  {
    "cannot determine library \"" + name + "\" path without component source"
  }

  /**
   * The first part of MakeArgs: the directories of the libc libraries, in
   * LibcOrder, and the copy of the library map without them.
   */
  method TakeLibc(libs: map<string, Library>) returns (libraries: seq<string>, ghost order: seq<string>, unformatted: map<string, Library>)
    ensures order == LibcOrder(libs)
    ensures |libraries| == |order|
    ensures forall i :: 0 <= i < |order| ==> libraries[i] == libs[order[i]].path
    ensures forall k :: k in unformatted <==> k in libs && k !in order
    ensures forall k :: k in unformatted ==> unformatted[k] == libs[k]
  {
    // the copy the source makes; the receiver's map is never written
    unformatted := libs;
    libraries := [];
    order := [];
    if "musl" in unformatted {
      libraries := libraries + [unformatted["musl"].path];
      order := order + ["musl"];
      unformatted := unformatted - {"musl"};
    } else if "newlib" in unformatted {
      libraries := libraries + [unformatted["newlib"].path];
      order := order + ["newlib"];
      unformatted := unformatted - {"newlib"};
      if "pthread-embedded" in unformatted {
        libraries := libraries + [unformatted["pthread-embedded"].path];
        order := order + ["pthread-embedded"];
        unformatted := unformatted - {"pthread-embedded"};
      }
    }
  }

  /** A listing that starts with LibcOrder puts musl first, or else newlib followed by pthread-embedded. */
  lemma LibcComesFirst(libs: map<string, Library>, order: seq<string>, dirs: seq<string>)
    requires |LibcOrder(libs)| <= |order| && order[..|LibcOrder(libs)|] == LibcOrder(libs)
    requires |dirs| == |order| && forall i :: 0 <= i < |order| ==> order[i] in libs && dirs[i] == libs[order[i]].path
    ensures "musl" in libs ==> dirs[0] == libs["musl"].path
    ensures "musl" !in libs && "newlib" in libs ==>
      && dirs[0] == libs["newlib"].path
      && ("pthread-embedded" in libs ==> dirs[1] == libs["pthread-embedded"].path)
  {
    var libc := LibcOrder(libs);
    if "musl" in libs {
      assert order[0] == libc[0] == "musl";
    } else if "newlib" in libs {
      assert order[0] == libc[0] == "newlib";
      if "pthread-embedded" in libs {
        assert order[1] == libc[1] == "pthread-embedded";
      }
    }
  }

  /**
   * `dirs` lists the directories of the libraries named by `order`, which
   * lists the keys of `done` once each, starting with `libc`.
   */
  ghost predicate Listing(libs: map<string, Library>, libc: seq<string>, order: seq<string>, dirs: seq<string>, done: set<string>)
  {
    && |libc| <= |order| && order[..|libc|] == libc
    && IsEnumeration(order, done)
    && |dirs| == |order|
    && (forall i :: 0 <= i < |order| ==> order[i] in libs && dirs[i] == libs[order[i]].path)
  }

  lemma ListingExtend(libs: map<string, Library>, libc: seq<string>, order: seq<string>, dirs: seq<string>, done: set<string>, k: string)
    requires Listing(libs, libc, order, dirs, done)
    requires k in libs && k !in done
    ensures Listing(libs, libc, order + [k], dirs + [libs[k].path], done + {k})
  {
    EnumerationExtend(order, done, k);
    assert (order + [k])[..|libc|] == order[..|libc|];
  }

  /**
   * The range loop of MakeArgs: after the libc directories `libraries`, the
   * directory of every library left in `unformatted`, in map iteration order,
   * failing at the first library that is not unpacked.
   */
  method AppendRest(libs: map<string, Library>, ghost libc: seq<string>, libraries: seq<string>, unformatted: map<string, Library>)
    returns (r: Result<seq<string>, string>, ghost order: seq<string>)
    requires Listing(libs, libc, libc, libraries, libs.Keys - unformatted.Keys)
    requires unformatted.Keys <= libs.Keys
    requires forall k :: k in unformatted ==> unformatted[k] == libs[k]
    ensures r.Err? <==> exists k :: k in unformatted && !unformatted[k].unpacked
    ensures r.Err? ==> exists k :: k in unformatted && !unformatted[k].unpacked && r.error == NoSourceError(unformatted[k].name)
    ensures r.Ok? ==> Listing(libs, libc, order, r.value, libs.Keys)
  {
    var dirs := libraries;
    order := libc;
    // the keys the range loop has not reached yet, and those it has
    var pending := unformatted.Keys;
    ghost var done := libs.Keys - unformatted.Keys;
    while pending != {}
      invariant pending <= unformatted.Keys
      invariant done !! pending && done + pending == libs.Keys
      invariant Listing(libs, libc, order, dirs, done)
      invariant forall k :: k in unformatted && k !in pending ==> unformatted[k].unpacked
      decreases |pending|
    {
      var k :| k in pending;
      var library := unformatted[k];
      if !library.unpacked {
        return Err(NoSourceError(library.name)), order;
      }
      ListingExtend(libs, libc, order, dirs, done, k);
      dirs := dirs + [library.path];
      order := order + [k];
      pending := pending - {k};
      done := done + {k};
    }
    assert done == libs.Keys;
    r := Ok(dirs);
  }

  /**
   * The library directories of MakeArgs: those of every library, once each,
   * in the order `order` of their keys: the libc libraries first, the rest in
   * map iteration order. Every library other than the leading libc ones must
   * be unpacked.
   */
  method LibraryDirs(libs: map<string, Library>) returns (r: Result<seq<string>, string>, ghost order: seq<string>)
    ensures r.Err? <==> exists k :: k in libs && k !in LibcOrder(libs) && !libs[k].unpacked
    ensures r.Err? ==> exists k :: k in libs && k !in LibcOrder(libs) && !libs[k].unpacked && r.error == NoSourceError(libs[k].name)
    ensures r.Ok? ==> Listing(libs, LibcOrder(libs), order, r.value, libs.Keys)
  {
    var libc, unformatted;
    ghost var libcOrder;
    libc, libcOrder, unformatted := TakeLibc(libs);
    EnumerationPrefix(libcOrder, libs.Keys - unformatted.Keys);
    r, order := AppendRest(libs, libcOrder, libc, unformatted);
    if r.Err? {
      ghost var k :| k in unformatted && !unformatted[k].unpacked && r.error == NoSourceError(unformatted[k].name);
      assert k in libs && k !in libcOrder;
    }
  }

  /**
   * MakeArgs: the arguments for make, for the target `tc` if one is given.
   * The library directories are those of LibraryDirs; their order puts
   * musl first, or else newlib followed by pthread-embedded.
   */
  method MakeArgs(l: ELFLoader, tc: Option<Target>) returns (r: Result<CoreMakeArgs, string>, ghost order: seq<string>)
    ensures var libs := Entries(l.libraries);
      r.Err? <==> exists k :: k in libs && k !in LibcOrder(libs) && !libs[k].unpacked
    ensures var libs := Entries(l.libraries);
      r.Err? ==> exists k :: k in libs && k !in LibcOrder(libs) && !libs[k].unpacked && r.error == NoSourceError(libs[k].name)
    ensures var libs := Entries(l.libraries);
      r.Ok? ==>
        && IsEnumeration(order, libs.Keys)
        && |LibcOrder(libs)| <= |order| && order[..|LibcOrder(libs)|] == LibcOrder(libs)
        && |r.value.libraryDirs| == |order|
        && (forall i :: 0 <= i < |order| ==> order[i] in libs && r.value.libraryDirs[i] == libs[order[i]].path)
    ensures var libs := Entries(l.libraries);
      r.Ok? ==>
        && ("musl" in libs ==> r.value.libraryDirs[0] == libs["musl"].path)
        && ("musl" !in libs && "newlib" in libs ==>
              && r.value.libraryDirs[0] == libs["newlib"].path
              && ("pthread-embedded" in libs ==> r.value.libraryDirs[1] == libs["pthread-embedded"].path))
    ensures r.Ok? ==>
      && r.value.outputDir == l.outDir
      && r.value.applicationDir == l.workingDir
      && r.value.configPath == KConfigFile(l, tc)
      && r.value.name == (if tc.Some? then tc.value.name else "")
  {
    var libs := Entries(l.libraries);
    var dirs;
    dirs, order := LibraryDirs(libs);
    if dirs.Err? {
      ghost var bad :| bad in libs && bad !in LibcOrder(libs) && !libs[bad].unpacked;
      r := Err(dirs.error);
      assert Entries(l.libraries) == libs;
      assert r.Err? && bad in Entries(l.libraries) && bad !in LibcOrder(Entries(l.libraries)) && !Entries(l.libraries)[bad].unpacked;
      return;
    }
    var libraries := dirs.value;
    LibcComesFirst(libs, order, libraries);

    r := Ok(CoreMakeArgs(
      l.outDir,
      l.workingDir,
      libraries,
      KConfigFile(l, tc),
      if tc.Some? then tc.value.name else ""));
  }

  /** A sequence holding the elements of a set, each as often as the set does, repeats none. */
  lemma {:induction false} SeqOfSetDistinct(s: seq<string>, keys: set<string>)
    requires multiset(s) == multiset(keys)
    ensures forall i, j :: 0 <= i < j < |s| ==> s[i] != s[j]
  {
    if s != [] {
      assert s == [s[0]] + s[1..];
      assert s[0] in multiset(keys);
      assert multiset(keys - {s[0]}) == multiset(keys) - multiset{s[0]};
      assert multiset(s[1..]) == multiset(s) - multiset{s[0]};
      SeqOfSetDistinct(s[1..], keys - {s[0]});
      assert s[0] !in multiset(s[1..]);
      forall j | 1 <= j < |s|
        ensures s[0] != s[j]
      {
        assert s[j] == s[1..][j - 1];
        assert s[j] in multiset(s[1..]);
      }
    }
  }

  /** LibraryNames: the names the libraries are kept under, each once, ascending. */
  method LibraryNames(l: ELFLoader) returns (names: seq<string>)
    ensures multiset(names) == multiset(Entries(l.libraries).Keys)
    ensures forall i, j :: 0 <= i < j < |names| ==> Less(names[i], names[j])
  {
    var keys := Entries(l.libraries).Keys;
    var collected: seq<string> := [];
    var pending := keys;
    while pending != {}
      invariant pending <= keys
      invariant multiset(collected) + multiset(pending) == multiset(keys)
      decreases |pending|
    {
      var k :| k in pending;
      collected := collected + [k];
      pending := pending - {k};
    }
    names := Sort(collected);
    SeqOfSetDistinct(names, keys);
    SortedDistinctAscending(names);
  }

  /** The names of `targets`, in their order. */
  function TargetNameList(targets: seq<Target>): (names: seq<string>)
    ensures |names| == |targets|
    ensures forall i :: 0 <= i < |targets| ==> names[i] == targets[i].name
  {
    if targets == [] then [] else [targets[0].name] + TargetNameList(targets[1..])
  }

  /** TargetNames: the name of every target, ascending. */
  method TargetNames(l: ELFLoader) returns (names: seq<string>)
    ensures Sorted(names)
    ensures multiset(names) == multiset(TargetNameList(l.targets))
  {
    var collected: seq<string> := [];
    var i := 0;
    while i < |l.targets|
      invariant 0 <= i <= |l.targets|
      invariant collected == TargetNameList(l.targets[..i])
    {
      assert l.targets[..i + 1] == l.targets[..i] + [l.targets[i]];
      collected := collected + [l.targets[i].name];
      i := i + 1;
    }
    assert l.targets[..i] == l.targets;
    names := Sort(collected);
  }

  /**
   * TargetByName: the first target called `name`; an empty name and a name
   * no target has are errors.
   */
  method TargetByName(l: ELFLoader, name: string) returns (r: Result<Target, string>)
    ensures name == "" ==> r == Err("no target name specified in lookup")
    ensures name != "" ==>
      (r.Ok? <==> exists i :: 0 <= i < |l.targets| && l.targets[i].name == name)
    ensures name != "" && r.Err? ==> r.error == "unknown target: " + name
    ensures r.Ok? ==>
      exists i :: && 0 <= i < |l.targets| && l.targets[i] == r.value && r.value.name == name
                  && forall j :: 0 <= j < i ==> l.targets[j].name != name
  {
    if |name| == 0 {
      return Err("no target name specified in lookup");
    }
    var i := 0;
    while i < |l.targets|
      invariant 0 <= i <= |l.targets|
      invariant forall j :: 0 <= j < i ==> l.targets[j].name != name
    {
      if l.targets[i].name == name {
        return Ok(l.targets[i]);
      }
      i := i + 1;
    }
    return Err("unknown target: " + name);
  }

  /** WithTarget: a copy of the loader whose only target is `targ`. */
  function WithTarget(l: ELFLoader, targ: Target): (r: ELFLoader)
    ensures r.targets == [targ]
    ensures r.(targets := l.targets) == l
  {
    l.(targets := [targ])
  }

  /** The copy shares the library map and keeps its paths. */
  lemma WithTargetKeepsTheRest(l: ELFLoader, targ: Target, tc: Option<Target>)
    ensures WithTarget(l, targ).libraries == l.libraries
    ensures WithTarget(l, targ).Path() == l.Path()
    ensures KConfigFile(WithTarget(l, targ), tc) == KConfigFile(l, tc)
  {
  }

  /**
   * Components: the Unikraft core first, then every library once, in the
   * order `order` of their keys (map iteration order).
   */
  method Components(l: ELFLoader) returns (components: seq<Component>, ghost order: seq<string>)
    ensures var libs := Entries(l.libraries);
      && |components| == 1 + |libs|
      && components[0] == CoreComponent(l.unikraft)
      && (forall k :: k in libs ==> LibraryComponent(libs[k]) in components[1..])
      && (forall i :: 1 <= i < |components| ==> components[i].LibraryComponent? && components[i].library in libs.Values)
    ensures var libs := Entries(l.libraries);
      && IsEnumeration(order, libs.Keys)
      && |order| == |libs|
      && forall i :: 0 <= i < |order| ==> order[i] in libs && components[i + 1] == LibraryComponent(libs[order[i]])
  {
    var libs := Entries(l.libraries);
    components := [CoreComponent(l.unikraft)];
    order := [];
    var pending := libs.Keys;
    ghost var done: set<string> := {};
    while pending != {}
      invariant done !! pending && done + pending == libs.Keys
      invariant IsEnumeration(order, done)
      invariant |components| == 1 + |order| && components[0] == CoreComponent(l.unikraft)
      invariant forall i :: 0 <= i < |order| ==> order[i] in libs && components[i + 1] == LibraryComponent(libs[order[i]])
      decreases |pending|
    {
      var k :| k in pending;
      EnumerationExtend(order, done, k);
      components := components + [LibraryComponent(libs[k])];
      order := order + [k];
      pending := pending - {k};
      done := done + {k};
    }
    assert done == libs.Keys;
    EnumerationSize(order, libs.Keys);
    EveryLibraryListed(libs, order, components[1..]);
  }

  /** A list with one entry per key of an enumeration holds the component of every library, and nothing else. */
  lemma EveryLibraryListed(libs: map<string, Library>, order: seq<string>, listed: seq<Component>)
    requires IsEnumeration(order, libs.Keys)
    requires |listed| == |order|
    requires forall i :: 0 <= i < |order| ==> order[i] in libs && listed[i] == LibraryComponent(libs[order[i]])
    ensures forall k :: k in libs ==> LibraryComponent(libs[k]) in listed
    ensures forall i :: 0 <= i < |listed| ==> listed[i].LibraryComponent? && listed[i].library in libs.Values
  {
    forall k | k in libs
      ensures LibraryComponent(libs[k]) in listed
    {
      assert k in multiset(libs.Keys);
      assert k in multiset(order);
      var i :| 0 <= i < |order| && order[i] == k;
      assert listed[i] == LibraryComponent(libs[k]);
    }
  }

  /** The core's libraries as (name, library) pairs, in the order they are stored. */
  function NamedPairs(uklibs: seq<Library>): (pairs: seq<(string, Library)>)
    ensures |pairs| == |uklibs|
    ensures forall i :: 0 <= i < |uklibs| ==> pairs[i] == (uklibs[i].name, uklibs[i])
  {
    if uklibs == [] then [] else [(uklibs[0].name, uklibs[0])] + NamedPairs(uklibs[1..])
  }

  /** What the source's Libraries does: return normally or stop in a run-time panic. */
  datatype LibrariesOutcome = Returned(result: Result<LibraryMap?, string>) | Panicked(reason: string)

  /**
   * Libraries as written: the core's libraries (their lookup, `uklibs`, may
   * fail) are stored by name into the loader's own map, which copies share;
   * storing into a nil map is a run-time panic.
   */
  method LibrariesAsWritten(l: ELFLoader, uklibs: Result<seq<Library>, string>) returns (out: LibrariesOutcome)
    modifies l.libraries
    ensures uklibs.Err? ==> out == Returned(Err(uklibs.error))
    ensures uklibs.Ok? && l.libraries == null ==>
      out == if uklibs.value == [] then Returned(Ok(null)) else Panicked("assignment to entry in nil map")
    ensures uklibs.Ok? && l.libraries != null ==>
      && out == Returned(Ok(l.libraries))
      && l.libraries.entries == UpdateAll(old(l.libraries.entries), NamedPairs(uklibs.value))
    ensures uklibs.Err? && l.libraries != null ==> l.libraries.entries == old(l.libraries.entries)
  {
    if uklibs.Err? {
      return Returned(Err(uklibs.error));
    }
    var libs := l.libraries;
    if libs == null {
      // the first assignment into the nil map panics
      if |uklibs.value| > 0 {
        return Panicked("assignment to entry in nil map");
      }
      return Returned(Ok(null));
    }
    StoreAll(libs, uklibs.value);
    return Returned(Ok(libs));
  }

  /** Each library stored in `libs` under its name, in order. */
  method StoreAll(libs: LibraryMap, uklibs: seq<Library>)
    modifies libs
    ensures libs.entries == UpdateAll(old(libs.entries), NamedPairs(uklibs))
  {
    var i := 0;
    while i < |uklibs|
      invariant 0 <= i <= |uklibs|
      invariant libs.entries == UpdateAll(old(libs.entries), NamedPairs(uklibs[..i]))
    {
      var uklib := uklibs[i];
      assert NamedPairs(uklibs[..i + 1]) == NamedPairs(uklibs[..i]) + [(uklib.name, uklib)];
      UpdateAllSnoc(old(libs.entries), NamedPairs(uklibs[..i]), (uklib.name, uklib));
      libs.entries := libs.entries[uklib.name := uklib];
      i := i + 1;
    }
    assert uklibs[..i] == uklibs;
  }

  /**
   * Libraries with a nil map replaced by a fresh one first: the loader's map,
   * if it has one, gains the core's libraries by name, as in the source.
   */
  method Libraries(l: ELFLoader, uklibs: Result<seq<Library>, string>) returns (r: Result<LibraryMap, string>)
    modifies l.libraries
    ensures uklibs.Err? ==> r == Err(uklibs.error)
    ensures uklibs.Ok? ==> r.Ok? && r.value.entries == UpdateAll(old(Entries(l.libraries)), NamedPairs(uklibs.value))
    ensures uklibs.Ok? && l.libraries != null ==> r.value == l.libraries
    ensures uklibs.Ok? && l.libraries == null ==> fresh(r.value)
    ensures uklibs.Err? && l.libraries != null ==> l.libraries.entries == old(l.libraries.entries)
  {
    if uklibs.Err? {
      return Err(uklibs.error);
    }
    var libs: LibraryMap;
    if l.libraries == null {
      libs := new LibraryMap(map[]);
    } else {
      libs := l.libraries;
    }
    StoreAll(libs, uklibs.value);
    return Ok(libs);
  }
}
