/** How the state history builder tells the kind of a state provider
    from the extension of its path. */
module ProviderTypes {
  import opened Basics
  import opened Paths

  /** The kinds of state provider the builder knows. */
  datatype ProviderKind = DynamicLibraryProvider | PythonProvider

  /** The kind of provider an extension names, if the builder knows it. */
  function KindOfExtension(ext: string): (k: Option<ProviderKind>)
    ensures k == Some(DynamicLibraryProvider) <==> ext in {".so", ".dll", ".dylib"}
    ensures k == Some(PythonProvider) <==> ext == ".py"
  {
    if ext == ".so" || ext == ".dll" || ext == ".dylib" then Some(DynamicLibraryProvider)
    else if ext == ".py" then Some(PythonProvider)
    else None
  }

  /** The kind of provider a path names, from its extension: none when the
      extension is not one the builder knows. */
  function Classify(p: string): (k: Option<ProviderKind>)
    ensures k.Some? ==> Extension(p) in {".so", ".dll", ".dylib", ".py"} && '.' in LastComponent(p)
  {
    KindOfExtension(Extension(p))
  }

  /** A dot and a suffix name a kind exactly when the suffix is one of the
      four the builder knows. */
  lemma KindOfDottedSuffix(suffix: string)
    ensures var k := KindOfExtension("." + suffix);
      (k == Some(DynamicLibraryProvider) <==> suffix in {"so", "dll", "dylib"}) &&
      (k == Some(PythonProvider) <==> suffix == "py") &&
      (k.None? <==> suffix !in {"so", "dll", "dylib", "py"})
  {
    var ext := "." + suffix;
    assert suffix == ext[1..];
  }

  /** A provider file named with one of the four known suffixes is of the
      kind that suffix names; a name with any other suffix is refused. */
  lemma ClassifyBySuffix(dir: string, stem: string, suffix: string)
    requires '/' !in stem && '/' !in suffix && '.' !in suffix && suffix != ""
    ensures var k := Classify(dir + "/" + stem + "." + suffix);
      (k == Some(DynamicLibraryProvider) <==> suffix in {"so", "dll", "dylib"}) &&
      (k == Some(PythonProvider) <==> suffix == "py") &&
      (k.None? <==> suffix !in {"so", "dll", "dylib", "py"})
  {
    ExtensionOfName(dir, stem, suffix);
    KindOfDottedSuffix(suffix);
  }

  /** The provider kinds of a list of paths, or the first path whose kind
      is unknown. */
  datatype KindsOutcome = Kinds(kinds: seq<ProviderKind>) | UnknownType(path: string)

  /** The kinds `classify` gives the paths, in order, stopping at the first
      path it gives none. */
  function KindsBy(classify: string -> Option<ProviderKind>, paths: seq<string>): KindsOutcome
  {
    if paths == [] then Kinds([])
    else match KindsBy(classify, paths[..|paths| - 1])
      case UnknownType(p) => UnknownType(p)
      case Kinds(ks) =>
        match classify(paths[|paths| - 1])
        case None => UnknownType(paths[|paths| - 1])
        case Some(k) => Kinds(ks + [k])
  }

  /** The kinds the builder gives a list of provider paths. */
  function ProviderKinds(paths: seq<string>): KindsOutcome
  {
    KindsBy(Classify, paths)
  }

  /** When every path has a kind, the outcome lists those kinds in order;
      otherwise the outcome is an unknown type. */
  lemma {:induction false} KindsByAllKnown(classify: string -> Option<ProviderKind>, paths: seq<string>)
    ensures KindsBy(classify, paths).Kinds? <==> forall i :: 0 <= i < |paths| ==> classify(paths[i]).Some?
    ensures KindsBy(classify, paths).Kinds? ==>
      |KindsBy(classify, paths).kinds| == |paths| &&
      forall i :: 0 <= i < |paths| ==> Some(KindsBy(classify, paths).kinds[i]) == classify(paths[i])
    decreases |paths|
  {
    if paths != [] {
      var pre := paths[..|paths| - 1];
      KindsByAllKnown(classify, pre);
      assert forall i :: 0 <= i < |pre| ==> pre[i] == paths[i];
    }
  }

  /** An unknown type names the first path that has no kind. */
  lemma {:induction false} KindsByFirstUnknown(classify: string -> Option<ProviderKind>, paths: seq<string>) returns (i: nat)
    requires KindsBy(classify, paths).UnknownType?
    ensures i < |paths| && paths[i] == KindsBy(classify, paths).path && classify(paths[i]).None?
    ensures forall j :: 0 <= j < i ==> classify(paths[j]).Some?
    decreases |paths|
  {
    var pre := paths[..|paths| - 1];
    if KindsBy(classify, pre).UnknownType? {
      i := KindsByFirstUnknown(classify, pre);
    } else {
      KindsByAllKnown(classify, pre);
      i := |paths| - 1;
    }
  }

  /** The builder's kinds: those of every path, in order, when all of them
      have a known extension; otherwise the first path whose extension is
      unknown, which is then the one the constructor throws for. */
  lemma ProviderKindsSpec(paths: seq<string>)
    ensures ProviderKinds(paths).Kinds? <==> forall i :: 0 <= i < |paths| ==> Classify(paths[i]).Some?
    ensures ProviderKinds(paths).Kinds? ==>
      |ProviderKinds(paths).kinds| == |paths| &&
      forall i :: 0 <= i < |paths| ==> Some(ProviderKinds(paths).kinds[i]) == Classify(paths[i])
    ensures ProviderKinds(paths).UnknownType? ==>
      exists i :: 0 <= i < |paths| && paths[i] == ProviderKinds(paths).path && Classify(paths[i]).None? &&
        forall j :: 0 <= j < i ==> Classify(paths[j]).Some?
  {
    KindsByAllKnown(Classify, paths);
    if ProviderKinds(paths).UnknownType? {
      var i := KindsByFirstUnknown(Classify, paths);
    }
  }

  /** Classifying one more path: its kind is appended, or it is the path
      the whole list stops at. */
  lemma KindsByStep(classify: string -> Option<ProviderKind>, paths: seq<string>, i: nat, ks: seq<ProviderKind>)
    requires i < |paths| && KindsBy(classify, paths[..i]) == Kinds(ks)
    ensures classify(paths[i]).Some? ==> KindsBy(classify, paths[..i + 1]) == Kinds(ks + [classify(paths[i]).value])
    ensures classify(paths[i]).None? ==> KindsBy(classify, paths) == UnknownType(paths[i])
  {
    assert paths[..i + 1][..i] == paths[..i];
    if classify(paths[i]).None? {
      UnknownStaysUnknown(classify, paths, i + 1);
    }
  }

  /** Once a prefix of the paths has no kind, so has every longer prefix,
      with the same path named. */
  lemma {:induction false} UnknownStaysUnknown(classify: string -> Option<ProviderKind>, paths: seq<string>, n: nat)
    requires n <= |paths| && KindsBy(classify, paths[..n]).UnknownType?
    ensures KindsBy(classify, paths) == KindsBy(classify, paths[..n])
    decreases |paths| - n
  {
    if n == |paths| {
      assert paths[..n] == paths;
    } else {
      assert paths[..n + 1][..n] == paths[..n];
      UnknownStaysUnknown(classify, paths, n + 1);
    }
  }
}

/** StateHistoryBuilder: the playback listener that builds the state
    history. It turns each state provider path into a provider according to
    the path's extension, keeping the order of the paths; on start it
    replaces its sink with a new one in the cache directory and initialises
    every provider, it forwards each event to every provider, and on stop
    it finalises every provider. */
module StateHistoryBuilders {
  import opened Basics
  import opened TraceInfo
  import opened StateHistory
  import opened StateProvider
  import opened Events
  import opened Paths
  import opened ProviderTypes

  /** What the builder tells a provider: onInit, onEvent (with the answer
      the provider gives, which the builder ignores) or onFini. */
  datatype Notice = Initialised(provider: nat) | Dispatched(provider: nat, answer: bool) | Finalised(provider: nat)

  /** The outcome of the constructor: a builder, or the
      UnknownStateProviderType exception naming the offending path. */
  datatype Construction = Built(builder: StateHistoryBuilder) | UnknownStateProviderType(path: string)

  class StateHistoryBuilder {
    /** The cache directory (AbstractCacheBuilder's). */
    const cacheDir: string
    /** _providersPaths. */
    const providersPaths: seq<string>
    /** The kind of each provider of _providers. */
    const kinds: seq<ProviderKind>
    /** _providers, in the order of their paths. */
    const providers: seq<AbstractStateProvider>
    /** _stateHistorySink: null until the first start. */
    var sink: StateHistorySink?
    /** What the builder has told its providers, in order. */
    ghost var notices: seq<Notice>

    /** Providers are distinct objects, one per path. */
    ghost predicate Valid()
    {
      |kinds| == |providers| == |providersPaths| &&
      forall i, j :: 0 <= i < j < |providers| ==> providers[i] != providers[j]
    }

    /** Takes providers already made; the constructor proper, which makes
        them, is NewStateHistoryBuilder. */
    constructor(cacheDir: string, providersPaths: seq<string>, kinds: seq<ProviderKind>, providers: seq<AbstractStateProvider>)
      requires |kinds| == |providers| == |providersPaths|
      requires forall i, j :: 0 <= i < j < |providers| ==> providers[i] != providers[j]
      ensures Valid() && sink == null && notices == []
      ensures this.cacheDir == cacheDir && this.providersPaths == providersPaths
      ensures this.kinds == kinds && this.providers == providers
    {
      this.cacheDir := cacheDir;
      this.providersPaths := providersPaths;
      this.kinds := kinds;
      this.providers := providers;
      sink := null;
      notices := [];
    }

    /** onStartImpl: a new sink on paths-quarks.db, values-quarks.db and
        history in the cache directory replaces the previous one, then
        each provider in turn is initialised with the trace set. */
    method OnStartImpl(traceSet: seq<TraceInfos>, regs: seq<seq<Registration>>) returns (ok: bool)
      requires Valid() && |regs| == |providers|
      modifies this`sink, this`notices, providers
      ensures ok
      ensures sink != null && fresh(sink) && sink.Valid()
      ensures sink.pathStrDbPath == Join(cacheDir, "paths-quarks.db")
      ensures sink.valueStrDbPath == Join(cacheDir, "values-quarks.db")
      ensures sink.historyPath == Join(cacheDir, "history")
      ensures sink.View() == SinkView(0, false, map[], map[], 0, 0, map[], [])
      ensures notices == old(notices) + seq(|providers|, i requires 0 <= i => Initialised(i))
      ensures forall i :: 0 <= i < |providers| ==>
        providers[i].curTraceSet == Some(traceSet) && providers[i].infamousMap == RegisterAll(map[], traceSet, regs[i]) &&
        providers[i].hooks == old(providers[i].hooks) + [InitImpl]
    {
      sink := new StateHistorySink(Join(cacheDir, "paths-quarks.db"), Join(cacheDir, "values-quarks.db"),
                                   Join(cacheDir, "history"));
      InitProviders(traceSet, regs);
      ok := true;
    }

    /** The loop of onStartImpl: onInit on each provider in turn. */
    method InitProviders(traceSet: seq<TraceInfos>, regs: seq<seq<Registration>>)
      requires Valid() && |regs| == |providers|
      modifies this`notices, providers
      ensures notices == old(notices) + seq(|providers|, i requires 0 <= i => Initialised(i))
      ensures forall i :: 0 <= i < |providers| ==>
        providers[i].curTraceSet == Some(traceSet) && providers[i].infamousMap == RegisterAll(map[], traceSet, regs[i]) &&
        providers[i].hooks == old(providers[i].hooks) + [InitImpl]
    {
      var i := 0;
      while i < |providers|
        invariant 0 <= i <= |providers|
        invariant notices == old(notices) + seq(i, j requires 0 <= j => Initialised(j))
        invariant forall j :: 0 <= j < i ==>
          providers[j].curTraceSet == Some(traceSet) && providers[j].infamousMap == RegisterAll(map[], traceSet, regs[j]) &&
          providers[j].hooks == old(providers[j].hooks) + [InitImpl]
        invariant forall j :: i <= j < |providers| ==> providers[j].hooks == old(providers[j].hooks)
      {
        providers[i].OnInit(traceSet, regs[i]);
        notices := notices + [Initialised(i)];
        i := i + 1;
      }
    }

    /** onEventImpl: the event to every provider in turn, ignoring what
        each answers; the providers dereference the sink, so it must exist
        when there is a provider. `run` gives what a provider callback
        answers. */
    method OnEventImpl(event: Event, run: nat -> bool)
      requires Valid() && (providers != [] ==> sink != null)
      modifies this`notices
      ensures |notices| == |old(notices)| + |providers| && notices[..|old(notices)|] == old(notices)
      ensures forall i :: 0 <= i < |providers| ==>
        notices[|old(notices)| + i] == Dispatched(i, providers[i].OnEvent(event.traceId, event.id, run))
    {
      var i := 0;
      while i < |providers|
        invariant 0 <= i <= |providers|
        invariant |notices| == |old(notices)| + i && notices[..|old(notices)|] == old(notices)
        invariant forall j :: 0 <= j < i ==>
          notices[|old(notices)| + j] == Dispatched(j, providers[j].OnEvent(event.traceId, event.id, run))
      {
        var answer := providers[i].OnEvent(event.traceId, event.id, run);
        notices := notices + [Dispatched(i, answer)];
        i := i + 1;
      }
    }

    /** onStopImpl: finalises each provider in turn. */
    method OnStopImpl() returns (ok: bool)
      requires Valid() && (providers != [] ==> sink != null)
      modifies this`notices, providers
      ensures ok
      ensures notices == old(notices) + seq(|providers|, i requires 0 <= i => Finalised(i))
      ensures forall i :: 0 <= i < |providers| ==>
        providers[i].infamousMap == map[] && providers[i].curTraceSet == old(providers[i].curTraceSet) &&
        providers[i].hooks == old(providers[i].hooks) + [FiniImpl]
    {
      var i := 0;
      while i < |providers|
        invariant 0 <= i <= |providers|
        invariant notices == old(notices) + seq(i, j requires 0 <= j => Finalised(j))
        invariant forall j :: 0 <= j < i ==>
          providers[j].infamousMap == map[] && providers[j].curTraceSet == old(providers[j].curTraceSet) &&
          providers[j].hooks == old(providers[j].hooks) + [FiniImpl]
        invariant forall j :: i <= j < |providers| ==>
          providers[j].hooks == old(providers[j].hooks) && providers[j].curTraceSet == old(providers[j].curTraceSet)
      {
        providers[i].OnFini();
        notices := notices + [Finalised(i)];
        i := i + 1;
      }
      ok := true;
    }
  }

  /** A provider as its constructor leaves it: no hook run, no route, no
      trace set. */
  ghost predicate Unused(p: AbstractStateProvider)
    reads p
  {
    p.hooks == [] && p.infamousMap == map[] && p.curTraceSet == None
  }

  /** The constructor: a provider per path, in order, of the kind its
      extension names; the first path of unknown kind throws
      UnknownStateProviderType. */
  method NewStateHistoryBuilder(dir: string, providersPaths: seq<string>) returns (r: Construction)
    ensures r.UnknownStateProviderType? <==> ProviderKinds(providersPaths).UnknownType?
    ensures r.UnknownStateProviderType? ==> r.path == ProviderKinds(providersPaths).path
    ensures r.Built? ==>
      var b := r.builder;
      fresh(b) && b.Valid() && b.sink == null && b.notices == [] &&
      b.cacheDir == dir && b.providersPaths == providersPaths &&
      Kinds(b.kinds) == ProviderKinds(providersPaths) &&
      forall i :: 0 <= i < |b.providers| ==>
        fresh(b.providers[i]) && Unused(b.providers[i])
  {
    var outcome, providers := CreateProviders(Classify, providersPaths);
    if outcome.UnknownType? {
      return UnknownStateProviderType(outcome.path);
    }
    var b := new StateHistoryBuilder(dir, providersPaths, outcome.kinds, providers);
    r := Built(b);
  }

  /** The loop of the constructor, for the classification `classify`: a
      fresh provider for each path in turn, until a path has no kind. */
  method CreateProviders(classify: string -> Option<ProviderKind>, paths: seq<string>)
    returns (outcome: KindsOutcome, providers: seq<AbstractStateProvider>)
    ensures outcome == KindsBy(classify, paths)
    ensures outcome.Kinds? ==> |outcome.kinds| == |providers| == |paths|
    ensures forall j, k :: 0 <= j < k < |providers| ==> providers[j] != providers[k]
    ensures forall j :: 0 <= j < |providers| ==> fresh(providers[j]) && Unused(providers[j])
  {
    var kinds: seq<ProviderKind> := [];
    providers := [];
    var i := 0;
    while i < |paths|
      invariant 0 <= i <= |paths|
      invariant KindsBy(classify, paths[..i]) == Kinds(kinds)
      invariant |kinds| == |providers| == i
      invariant forall j, k :: 0 <= j < k < i ==> providers[j] != providers[k]
      invariant forall j :: 0 <= j < i ==> fresh(providers[j]) && Unused(providers[j])
    {
      var kind := classify(paths[i]);
      KindsByStep(classify, paths, i, kinds);
      if kind.None? {
        return UnknownType(paths[i]), providers;
      }
      var provider := new AbstractStateProvider();
      kinds := kinds + [kind.value];
      providers := providers + [provider];
      i := i + 1;
    }
    assert paths[..i] == paths;
    outcome := Kinds(kinds);
  }
}
