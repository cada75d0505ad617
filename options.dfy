/**
 * Building an ELF loader from functional options: each option is a closure
 * that sets one field of the loader under construction or fails; the options
 * run in order, the first failure aborts, and then defaults are derived.
 */
module ElfLoaderOptions {
  import opened Wrappers
  import opened MapUpdates
  import opened ElfLoader
  import GoFilepath

  /** unikraft.UK_NAME: the configuration key of the application name. */
  const UK_NAME := "UK_NAME"
  /** unikraft.UK_BASE: the configuration key of the Unikraft source directory. */
  const UK_BASE := "UK_BASE"
  /** unikraft.BuildDir: the build directory inside the working directory. */
  const BuildDir := "build"

  /** A kconfig key/value entry. */
  datatype KeyValue = KeyValue(key: string, value: string)

  /** An option: changes the loader being built, or fails with an error text. */
  type LoaderOption = ELFLoader -> Result<ELFLoader, string>

  /** The loader construction starts from: every field unset, an empty configuration. */
  const Blank := ELFLoader("", "", "", "", "", "", "", "", [], map[], UnikraftConfig(""), null, [])

  /** The entries as key/value pairs, in order. */
  function Pairs(kvs: seq<KeyValue>): (pairs: seq<(string, string)>)
    ensures |pairs| == |kvs|
    ensures forall i :: 0 <= i < |kvs| ==> pairs[i] == (kvs[i].key, kvs[i].value)
  {
    if kvs == [] then [] else [(kvs[0].key, kvs[0].value)] + Pairs(kvs[1..])
  }

  /** KeyValueMap.Override: every entry stored in turn, so the last entry for a key wins. */
  function Override(m: map<string, string>, kvs: seq<KeyValue>): map<string, string>
  {
    UpdateAll(m, Pairs(kvs))
  }

  /** After an override a key holds the value of its last entry, or its old value if it has none. */
  lemma OverrideLastWins(m: map<string, string>, kvs: seq<KeyValue>, k: string)
    ensures (exists i :: 0 <= i < |kvs| && kvs[i].key == k) ==>
      exists i :: && 0 <= i < |kvs| && kvs[i].key == k
                  && Get(Override(m, kvs), k) == Some(kvs[i].value)
                  && forall j :: i < j < |kvs| ==> kvs[j].key != k
    ensures (forall i :: 0 <= i < |kvs| ==> kvs[i].key != k) ==> Get(Override(m, kvs), k) == Get(m, k)
  {
    var pairs := Pairs(kvs);
    UpdateAllLastWins(m, pairs, k);
    LastValueIsLastPair(m, pairs, k);
    if exists i :: 0 <= i < |kvs| && kvs[i].key == k {
      var i :| 0 <= i < |kvs| && kvs[i].key == k;
      LastEntryWins(m, kvs, k, i);
    } else {
      assert forall i :: 0 <= i < |pairs| ==> pairs[i].0 == kvs[i].key;
    }
  }

  lemma LastEntryWins(m: map<string, string>, kvs: seq<KeyValue>, k: string, i: nat)
    requires i < |kvs| && kvs[i].key == k
    ensures exists i :: && 0 <= i < |kvs| && kvs[i].key == k
                        && Get(Override(m, kvs), k) == Some(kvs[i].value)
                        && forall j :: i < j < |kvs| ==> kvs[j].key != k
  {
    var pairs := Pairs(kvs);
    UpdateAllLastWins(m, pairs, k);
    LastValueIsLastPair(m, pairs, k);
    assert pairs[i].0 == k;
    var w :| && 0 <= w < |pairs| && pairs[w].0 == k
             && LastValue(m, pairs, k) == Some(pairs[w].1)
             && forall j :: w < j < |pairs| ==> pairs[j].0 != k;
    assert forall j :: 0 <= j < |kvs| ==> pairs[j].0 == kvs[j].key;
    assert kvs[w].key == k && Get(Override(m, kvs), k) == Some(kvs[w].value);
  }

  /** WithName sets the application name and nothing else. */
  function WithName(name: string): LoaderOption
  {
    (ac: ELFLoader) => Ok(ac.(name := name))
  }

  /** WithVersion sets the version and nothing else. */
  function WithVersion(version: string): LoaderOption
  {
    (ac: ELFLoader) => Ok(ac.(version := version))
  }

  /** WithWorkingDir sets the working directory and nothing else. */
  function WithWorkingDir(workingDir: string): LoaderOption
  {
    (ac: ELFLoader) => Ok(ac.(workingDir := workingDir))
  }

  /** WithSource sets the source and nothing else. */
  function WithSource(source: string): LoaderOption
  {
    (ac: ELFLoader) => Ok(ac.(source := source))
  }

  /** WithFilename sets the file name and nothing else. */
  function WithFilename(filename: string): LoaderOption
  {
    (ac: ELFLoader) => Ok(ac.(filename := filename))
  }

  /** WithOutDir sets the output directory and nothing else. */
  function WithOutDir(outDir: string): LoaderOption
  {
    (ac: ELFLoader) => Ok(ac.(outDir := outDir))
  }

  /** WithUnikraft sets the core and nothing else. */
  function WithUnikraft(unikraft: UnikraftConfig): LoaderOption
  {
    (ac: ELFLoader) => Ok(ac.(unikraft := unikraft))
  }

  /** WithLibraries sets the library map (the very map given, not a copy) and nothing else. */
  function WithLibraries(libraries: LibraryMap?): LoaderOption
  {
    (ac: ELFLoader) => Ok(ac.(libraries := libraries))
  }

  /** WithTargets sets the target list and nothing else. */
  function WithTargets(targets: seq<Target>): LoaderOption
  {
    (ac: ELFLoader) => Ok(ac.(targets := targets))
  }

  /** WithKraftfiles sets the list of kraft files and nothing else. */
  function WithKraftfiles(kraftfiles: seq<string>): LoaderOption
  {
    (ac: ELFLoader) => Ok(ac.(kraftfiles := kraftfiles))
  }

  /**
   * WithConfiguration overrides the given entries in the configuration and
   * changes nothing else; keys it does not name keep their values.
   */
  function WithConfiguration(config: seq<KeyValue>): LoaderOption
  {
    (ac: ELFLoader) => Ok(ac.(configuration := Override(ac.configuration, config)))
  }

  /**
   * Every setter succeeds, stores its value in its own field and leaves
   * every other field of the loader as it was.
   */
  lemma SettersChangeOnlyTheirField(ac: ELFLoader)
    ensures forall v ::
              && WithName(v)(ac).Ok? && WithName(v)(ac).value.name == v
              && WithName(v)(ac).value.(name := ac.name) == ac
    ensures forall v ::
              && WithVersion(v)(ac).Ok? && WithVersion(v)(ac).value.version == v
              && WithVersion(v)(ac).value.(version := ac.version) == ac
    ensures forall v ::
              && WithWorkingDir(v)(ac).Ok? && WithWorkingDir(v)(ac).value.workingDir == v
              && WithWorkingDir(v)(ac).value.(workingDir := ac.workingDir) == ac
    ensures forall v ::
              && WithSource(v)(ac).Ok? && WithSource(v)(ac).value.source == v
              && WithSource(v)(ac).value.(source := ac.source) == ac
    ensures forall v ::
              && WithFilename(v)(ac).Ok? && WithFilename(v)(ac).value.filename == v
              && WithFilename(v)(ac).value.(filename := ac.filename) == ac
    ensures forall v ::
              && WithOutDir(v)(ac).Ok? && WithOutDir(v)(ac).value.outDir == v
              && WithOutDir(v)(ac).value.(outDir := ac.outDir) == ac
    ensures forall v ::
              && WithUnikraft(v)(ac).Ok? && WithUnikraft(v)(ac).value.unikraft == v
              && WithUnikraft(v)(ac).value.(unikraft := ac.unikraft) == ac
    ensures forall v ::
              && WithLibraries(v)(ac).Ok? && WithLibraries(v)(ac).value.libraries == v
              && WithLibraries(v)(ac).value.(libraries := ac.libraries) == ac
    ensures forall v ::
              && WithTargets(v)(ac).Ok? && WithTargets(v)(ac).value.targets == v
              && WithTargets(v)(ac).value.(targets := ac.targets) == ac
    ensures forall v ::
              && WithKraftfiles(v)(ac).Ok? && WithKraftfiles(v)(ac).value.kraftfiles == v
              && WithKraftfiles(v)(ac).value.(kraftfiles := ac.kraftfiles) == ac
  {
  }

  /**
   * WithConfiguration succeeds and changes only the configuration: a key it
   * names takes the value of its last entry, any other key keeps its value.
   */
  lemma WithConfigurationOverrides(ac: ELFLoader, config: seq<KeyValue>, k: string)
    ensures WithConfiguration(config)(ac).Ok?
    ensures WithConfiguration(config)(ac).value.(configuration := ac.configuration) == ac
    ensures (exists i :: 0 <= i < |config| && config[i].key == k) ==>
      exists i :: && 0 <= i < |config| && config[i].key == k
                  && Get(WithConfiguration(config)(ac).value.configuration, k) == Some(config[i].value)
                  && forall j :: i < j < |config| ==> config[j].key != k
    ensures (forall i :: 0 <= i < |config| ==> config[i].key != k) ==>
      Get(WithConfiguration(config)(ac).value.configuration, k) == Get(ac.configuration, k)
  {
    OverrideLastWins(ac.configuration, config, k);
  }

  /** The options applied in order to `ac`; the first failure stops with its error, wrapped. */
  function ApplyAll(ac: ELFLoader, opts: seq<LoaderOption>): Result<ELFLoader, string>
    decreases |opts|
  {
    if opts == [] then Ok(ac)
    else match opts[0](ac)
      case Err(e) => Err("could not apply option: " + e)
      case Ok(next) => ApplyAll(next, opts[1..])
  }

  /** Applying one more option after the others is applying it to their result. */
  lemma {:induction false} ApplyAllSnoc(ac: ELFLoader, opts: seq<LoaderOption>, o: LoaderOption)
    ensures ApplyAll(ac, opts + [o]) ==
      match ApplyAll(ac, opts)
      case Err(e) => Err(e)
      case Ok(x) => (match o(x) case Err(e) => Err("could not apply option: " + e) case Ok(y) => Ok(y))
    decreases |opts|
  {
    if opts != [] {
      assert (opts + [o])[1..] == opts[1..] + [o];
      match opts[0](ac)
      case Err(_) =>
      case Ok(next) => ApplyAllSnoc(next, opts[1..], o);
    } else {
      assert [o][1..] == [];
    }
  }

  /**
   * The first failing option decides: if the options before position `i`
   * succeed and option `i` fails, construction fails with that option's error.
   */
  lemma {:induction false} FirstErrorAborts(ac: ELFLoader, opts: seq<LoaderOption>, i: nat)
    requires i < |opts|
    requires ApplyAll(ac, opts[..i]).Ok?
    requires opts[i](ApplyAll(ac, opts[..i]).value).Err?
    ensures ApplyAll(ac, opts) == Err("could not apply option: " + opts[i](ApplyAll(ac, opts[..i]).value).error)
    decreases i
  {
    if i == 0 {
      assert opts[..0] == [];
    } else {
      assert opts[..i][0] == opts[0];
      assert opts[..i][1..] == opts[1..][..i - 1];
      match opts[0](ac)
      case Ok(next) =>
        FirstErrorAborts(next, opts[1..], i - 1);
    }
  }

  /** Options that leave a field alone, applied after a setter of it, keep what it set. */
  lemma {:induction false} KeepAfter<T>(ac: ELFLoader, opts: seq<LoaderOption>, field: ELFLoader -> T)
    requires forall i, x :: 0 <= i < |opts| && opts[i](x).Ok? ==> field(opts[i](x).value) == field(x)
    ensures ApplyAll(ac, opts).Ok? ==> field(ApplyAll(ac, opts).value) == field(ac)
    decreases |opts|
  {
    if opts != [] {
      match opts[0](ac)
      case Err(_) =>
      case Ok(next) =>
        forall i, x | 0 <= i < |opts[1..]| && opts[1..][i](x).Ok?
          ensures field(opts[1..][i](x).value) == field(x)
        {
          assert opts[1..][i] == opts[i + 1];
        }
        KeepAfter(next, opts[1..], field);
    }
  }

  /**
   * Options apply in order, so the last setter of a field wins: after a
   * setter that always stores `v`, options that leave the field alone do not
   * change it.
   */
  lemma LastSetterWins<T>(ac: ELFLoader, before: seq<LoaderOption>, setter: LoaderOption, after: seq<LoaderOption>,
                          field: ELFLoader -> T, v: T)
    requires forall x :: setter(x).Ok? ==> field(setter(x).value) == v
    requires forall i, x :: 0 <= i < |after| && after[i](x).Ok? ==> field(after[i](x).value) == field(x)
    ensures ApplyAll(ac, before + [setter] + after).Ok? ==> field(ApplyAll(ac, before + [setter] + after).value) == v
  {
    ApplyAllConcat(ac, before + [setter], after);
    ApplyAllSnoc(ac, before, setter);
    var mid := ApplyAll(ac, before + [setter]);
    if mid.Ok? {
      var x := ApplyAll(ac, before).value;
      assert setter(x).Ok? && mid.value == setter(x).value;
      SetterStores(setter, field, v, x);
      KeepAfter(mid.value, after, field);
      assert ApplyAll(ac, before + [setter] + after) == ApplyAll(mid.value, after);
    }
  }

  /** A setter that always stores `v` in a field has stored it in that field. */
  lemma SetterStores<T>(setter: LoaderOption, field: ELFLoader -> T, v: T, x: ELFLoader)
    requires forall x :: setter(x).Ok? ==> field(setter(x).value) == v
    ensures setter(x).Ok? ==> field(setter(x).value) == v
  {
  }

  /** Applying two runs of options one after the other. */
  lemma {:induction false} ApplyAllConcat(ac: ELFLoader, a: seq<LoaderOption>, b: seq<LoaderOption>)
    ensures ApplyAll(ac, a + b) == match ApplyAll(ac, a) case Err(e) => Err(e) case Ok(x) => ApplyAll(x, b)
    decreases |a|
  {
    if a == [] {
      assert a + b == b;
    } else {
      assert (a + b)[0] == a[0];
      assert (a + b)[1..] == a[1..] + b;
      match a[0](ac)
      case Err(_) =>
      case Ok(next) => ApplyAllConcat(next, a[1..], b);
    }
  }

  /** Of two WithName options, the later one decides the name. */
  lemma LaterNameWins(ac: ELFLoader, first: string, second: string)
    ensures ApplyAll(ac, [WithName(first), WithName(second)]) == Ok(ac.(name := second))
  {
    var opts := [WithName(first), WithName(second)];
    assert opts[1..] == [WithName(second)];
    assert opts[1..][1..] == [];
    assert WithName(first)(ac) == Ok(ac.(name := first));
    assert WithName(second)(ac.(name := first)) == Ok(ac.(name := second));
    assert ApplyAll(ac.(name := second), opts[1..][1..]) == Ok(ac.(name := second));
    assert ApplyAll(ac.(name := first), opts[1..]) == Ok(ac.(name := second));
  }

  /**
   * The directory defaults: without an output directory, the working
   * directory (from os.Getwd, standing as `getwd`, when it is unset too) gets
   * `build` joined to it as the output directory. The result is the pair of
   * output and working directory.
   */
  method DefaultDirs(outDir: string, workingDir: string, getwd: Result<string, string>)
    returns (r: Result<(string, string), string>)
    ensures r.Err? <==> outDir == "" && workingDir == "" && getwd.Err?
    ensures r.Err? ==> r.error == getwd.error
    ensures r.Ok? && outDir != "" ==> r.value == (outDir, workingDir)
    ensures r.Ok? && outDir == "" ==>
      && r.value.0 == GoFilepath.Join(r.value.1, BuildDir)
      && r.value.1 == (if workingDir == "" then getwd.value else workingDir)
  {
    var out, wd := outDir, workingDir;
    if out == "" {
      if wd == "" {
        if getwd.Err? {
          return Err(getwd.error);
        }
        wd := getwd.value;
      }
      out := GoFilepath.Join(wd, BuildDir);
    }
    return Ok((out, wd));
  }

  /**
   * The configuration defaults: `UK_NAME` is set to a non-empty name, and
   * `UK_BASE` to a non-empty core source that is a directory (`isDir` stands
   * for an os.Stat that finds one).
   */
  method DefaultConfig(config: map<string, string>, name: string, source: string, isDir: string -> bool)
    returns (c: map<string, string>)
    ensures Get(c, UK_NAME) == (if name != "" then Some(name) else Get(config, UK_NAME))
    ensures Get(c, UK_BASE) == (if |source| > 0 && isDir(source) then Some(source) else Get(config, UK_BASE))
    ensures forall k :: k != UK_NAME && k != UK_BASE ==> Get(c, k) == Get(config, k)
  {
    c := config;
    if name != "" {
      c := c[UK_NAME := name];
    }
    if |source| > 0 {
      if isDir(source) {
        c := c[UK_BASE := source];
      }
    }
  }

  /**
   * The defaults NewELFLoaderFromOptions fills in once every option has
   * applied to `ac`: the configuration entries of DefaultConfig and the
   * directories of DefaultDirs. Only a failing os.Getwd stops it.
   */
  method FillDefaults(ac: ELFLoader, getwd: Result<string, string>, isDir: string -> bool)
    returns (r: Result<ELFLoader, string>)
    ensures r.Err? <==> ac.outDir == "" && ac.workingDir == "" && getwd.Err?
    ensures r.Err? ==> r.error == getwd.error
    ensures r.Ok? ==>
      var b := r.value;
      && b.(outDir := ac.outDir, workingDir := ac.workingDir, configuration := ac.configuration) == ac
      && (ac.outDir != "" ==> b.outDir == ac.outDir && b.workingDir == ac.workingDir)
      && (ac.outDir == "" ==> b.outDir == GoFilepath.Join(b.workingDir, BuildDir))
      && (ac.outDir == "" && ac.workingDir == "" ==> b.workingDir == getwd.value)
      && (ac.workingDir != "" ==> b.workingDir == ac.workingDir)
      && Get(b.configuration, UK_NAME) == (if ac.name != "" then Some(ac.name) else Get(ac.configuration, UK_NAME))
      && Get(b.configuration, UK_BASE) ==
           (if |ac.unikraft.source| > 0 && isDir(ac.unikraft.source) then Some(ac.unikraft.source)
            else Get(ac.configuration, UK_BASE))
      && forall k :: k != UK_NAME && k != UK_BASE ==> Get(b.configuration, k) == Get(ac.configuration, k)
  {
    var dirs := DefaultDirs(ac.outDir, ac.workingDir, getwd);
    if dirs.Err? {
      return Err(dirs.error);
    }
    var config := DefaultConfig(ac.configuration, ac.name, ac.unikraft.source, isDir);
    return Ok(ac.(outDir := dirs.value.0, workingDir := dirs.value.1, configuration := config));
  }

  /**
   * NewELFLoaderFromOptions: the options applied in order to a blank loader
   * (the first failure aborts with its wrapped error), then the defaults of
   * FillDefaults.
   */
  method NewELFLoaderFromOptions(opts: seq<LoaderOption>, getwd: Result<string, string>, isDir: string -> bool)
    returns (r: Result<ELFLoader, string>)
    ensures ApplyAll(Blank, opts).Err? ==> r == ApplyAll(Blank, opts)
    ensures ApplyAll(Blank, opts).Ok? ==>
      var ac := ApplyAll(Blank, opts).value;
      && (r.Err? <==> ac.outDir == "" && ac.workingDir == "" && getwd.Err?)
      && (r.Err? ==> r.error == getwd.error)
      && (r.Ok? ==>
        var b := r.value;
        && b.(outDir := ac.outDir, workingDir := ac.workingDir, configuration := ac.configuration) == ac
        && (ac.outDir != "" ==> b.outDir == ac.outDir && b.workingDir == ac.workingDir)
        && (ac.outDir == "" ==> b.outDir == GoFilepath.Join(b.workingDir, BuildDir))
        && (ac.outDir == "" && ac.workingDir == "" ==> b.workingDir == getwd.value)
        && (ac.workingDir != "" ==> b.workingDir == ac.workingDir)
        && Get(b.configuration, UK_NAME) == (if ac.name != "" then Some(ac.name) else Get(ac.configuration, UK_NAME))
        && Get(b.configuration, UK_BASE) ==
             (if |ac.unikraft.source| > 0 && isDir(ac.unikraft.source) then Some(ac.unikraft.source)
              else Get(ac.configuration, UK_BASE))
        && forall k :: k != UK_NAME && k != UK_BASE ==> Get(b.configuration, k) == Get(ac.configuration, k))
  {
    var ac := Blank;
    var i := 0;
    while i < |opts|
      invariant 0 <= i <= |opts|
      invariant ApplyAll(Blank, opts) == ApplyAll(ac, opts[i..])
    {
      assert opts[i..][1..] == opts[i + 1..];
      var res := opts[i](ac);
      if res.Err? {
        return Err("could not apply option: " + res.error);
      }
      ac := res.value;
      i := i + 1;
    }
    assert opts[i..] == [];
    r := FillDefaults(ac, getwd, isDir);
  }

  /** A loader built from a name alone has no library map: its map is nil. */
  lemma NameOnlyLoaderHasNilLibraries(name: string)
    ensures ApplyAll(Blank, [WithName(name)]).Ok?
    ensures ApplyAll(Blank, [WithName(name)]).value.libraries == null
  {
    assert [WithName(name)][1..] == [];
  }

  /**
   * The source's Libraries on such a loader: as soon as the Unikraft core
   * reports one library, storing it into the nil map panics.
   */
  method NilLibraryMapPanics() returns (out: LibrariesOutcome)
    ensures out.Panicked?
  {
    var l := NewELFLoaderFromOptions([WithName("helloworld")], Ok("/app"), _ => false);
    NameOnlyLoaderHasNilLibraries("helloworld");
    assert l.Ok? && l.value.libraries == null;
    out := LibrariesAsWritten(l.value, Ok([Library("lwip", "/app/libs/lwip", true)]));
  }

  /** The corrected Libraries on the same loader returns the core's library. */
  method NilLibraryMapFixed() returns (r: Result<LibraryMap, string>)
    ensures r.Ok? && r.value.entries == map["lwip" := Library("lwip", "/app/libs/lwip", true)]
  {
    var l := NewELFLoaderFromOptions([WithName("helloworld")], Ok("/app"), _ => false);
    NameOnlyLoaderHasNilLibraries("helloworld");
    assert l.Ok? && l.value.libraries == null;
    var uklibs := [Library("lwip", "/app/libs/lwip", true)];
    r := Libraries(l.value, Ok(uklibs));
    assert NamedPairs(uklibs) == [("lwip", uklibs[0])];
    assert NamedPairs(uklibs)[..0] == [];
  }
}
