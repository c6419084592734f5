/** Detection of the GPU vendor (Bruteforce/GpuDetection.cs): priority chains
    of library probes over an abstract host. Loading a library and checking
    for a file are observations of the host; the probes record them as events
    so that their order and their balance can be stated. */
module GpuDetection {
  import opened Interop

  datatype GpuType = None | Nvidia | AMD

  /** The host as the probes see it: the operating system, the library names
      `LoadLibrary`/`dlopen` can load, the names whose load attempt throws
      (for instance when the loader entry point itself cannot be bound) and
      the files that exist. */
  datatype Env = Env(os: OS, loadable: set<string>, faulting: set<string>, files: set<string>)

  /** `Open` is a `LoadLibrary`/`dlopen` attempt, `Close` a
      `FreeLibrary`/`dlclose`, `Exists` a `File.Exists` check. */
  datatype ProbeEvent = Open(name: string) | Close(name: string) | Exists(path: string)

  /** The outcome of one capability probe and the events it caused. */
  datatype Probe = Probe(found: bool, events: seq<ProbeEvent>)

  /** The outcome of `DetectGpuType` and the events of the probes it ran. */
  datatype Detection = Detection(gpu: GpuType, events: seq<ProbeEvent>)

  /** An attempt to load `name` returns a handle. */
  predicate Loads(env: Env, name: string) {
    name in env.loadable && name !in env.faulting
  }

  /** An attempt to load `name` returns the null handle without throwing. */
  predicate Misses(env: Env, name: string) {
    name !in env.loadable && name !in env.faulting
  }

  /** Reference definition of a successful fallback chain: some candidate
      loads and every candidate tried before it returned the null handle. */
  ghost predicate ReachesLoadable(env: Env, names: seq<string>) {
    exists i :: 0 <= i < |names| && Loads(env, names[i]) &&
      forall j :: 0 <= j < i ==> Misses(env, names[j])
  }

  /** Tries the candidate names in order and stops at the first that loads,
      releasing it at once. An exception from a load attempt leaves the
      `try` block, so it ends the chain as a failure. The chain finds a
      library exactly when its last event releases one. */
  function TryLoad(env: Env, names: seq<string>): (p: Probe)
    ensures p.found <==> p.events != [] && p.events[|p.events| - 1].Close?
  {
    if names == [] then Probe(false, [])
    else if names[0] in env.faulting then Probe(false, [Open(names[0])])
    else if names[0] in env.loadable then Probe(true, [Open(names[0]), Close(names[0])])
    else
      var rest := TryLoad(env, names[1..]);
      Probe(rest.found, [Open(names[0])] + rest.events)
  }

  /** The CUDA runtime names tried, in order: newest version first on Windows. */
  function CudaRuntimeNames(os: OS): seq<string> {
    match os
    case Windows => ["cudart64_12.dll", "cudart64_11.dll", "cudart64_10.dll"]
    case Linux => ["libcudart.so"]
    case OtherOS => []
  }

  function RocmRuntimeNames(os: OS): seq<string> {
    match os
    case Windows => ["amdhip64.dll"]
    case Linux => ["libamdhip64.so"]
    case OtherOS => []
  }

  /** The bundled aligned CUDA library that also confirms CUDA. */
  function CudaBundledLibrary(os: OS): string {
    if os == Windows then "libs/CudaAlignedBitrotFinder.dll" else "libs/CudaAlignedBitrotFinder.so"
  }

  /** The bundled aligned ROCm library; only its non-Windows name has the `lib` prefix. */
  function RocmBundledLibrary(os: OS): string {
    if os == Windows then "libs/RocmAlignedBitrotFinder.dll" else "libs/libRocmAlignedBitrotFinder.so"
  }

  /** A probe: the runtime chain first, then, if no runtime library loaded,
      the presence of the bundled library. */
  function ProbeWithFallback(env: Env, names: seq<string>, bundled: string): Probe
  {
    var chain := TryLoad(env, names);
    if chain.found then chain
    else Probe(bundled in env.files, chain.events + [Exists(bundled)])
  }

  function CanLoadCudaLibrary(env: Env): (p: Probe)
    ensures p.found <==> ReachesLoadable(env, CudaRuntimeNames(env.os)) ||
                         CudaBundledLibrary(env.os) in env.files
  {
    ProbeSpec(env, CudaRuntimeNames(env.os), CudaBundledLibrary(env.os));
    ProbeWithFallback(env, CudaRuntimeNames(env.os), CudaBundledLibrary(env.os))
  }

  function CanLoadRocmLibrary(env: Env): (p: Probe)
    ensures p.found <==> ReachesLoadable(env, RocmRuntimeNames(env.os)) ||
                         RocmBundledLibrary(env.os) in env.files
  {
    ProbeSpec(env, RocmRuntimeNames(env.os), RocmBundledLibrary(env.os));
    ProbeWithFallback(env, RocmRuntimeNames(env.os), RocmBundledLibrary(env.os))
  }

  /** NVIDIA first, then AMD; the ROCm probe runs only when the CUDA probe fails. */
  function DetectGpuType(env: Env): Detection
  {
    var cuda := CanLoadCudaLibrary(env);
    if cuda.found then Detection(Nvidia, cuda.events)
    else
      var rocm := CanLoadRocmLibrary(env);
      Detection(if rocm.found then AMD else None, cuda.events + rocm.events)
  }

  function GetGpuTypeDescription(gpuType: GpuType): string {
    match gpuType
    case Nvidia => "NVIDIA (CUDA)"
    case AMD => "AMD (ROCm)"
    case None => "No compatible GPU"
  }

  // ---------------------------------------------------------------------------
  // Properties

  /** The fallback chain succeeds exactly when the reference definition holds. */
  lemma {:induction false} TryLoadFound(env: Env, names: seq<string>)
    ensures TryLoad(env, names).found <==> ReachesLoadable(env, names)
  {
    if names != [] && names[0] !in env.faulting && names[0] !in env.loadable {
      TryLoadFound(env, names[1..]);
      if ReachesLoadable(env, names[1..]) {
        var i :| 0 <= i < |names[1..]| && Loads(env, names[1..][i]) &&
          forall j :: 0 <= j < i ==> Misses(env, names[1..][j]);
        assert Loads(env, names[i + 1]);
        forall j | 0 <= j < i + 1 ensures Misses(env, names[j]) {
          if j > 0 { assert names[j] == names[1..][j - 1]; }
        }
      }
      if ReachesLoadable(env, names) {
        var i :| 0 <= i < |names| && Loads(env, names[i]) &&
          forall j :: 0 <= j < i ==> Misses(env, names[j]);
        assert i > 0;
        assert Loads(env, names[1..][i - 1]);
        forall j | 0 <= j < i - 1 ensures Misses(env, names[1..][j]) {
          assert names[1..][j] == names[j + 1];
        }
      }
    } else if names != [] && names[0] !in env.faulting {
      assert Loads(env, names[0]);
    }
  }

  /** The names the chain tries are a prefix of the candidates, taken in
      order, and it goes on past a candidate only when that one returned the
      null handle. */
  lemma {:induction false} TryLoadOrder(env: Env, names: seq<string>)
    ensures var e := TryLoad(env, names).events;
      exists k :: 0 <= k <= |names| && Opened(e) == names[..k] &&
        forall j :: 0 <= j < k - 1 ==> Misses(env, names[j])
  {
    if names == [] {
      assert Opened([]) == names[..0];
    } else if names[0] in env.faulting {
      assert Opened([Open(names[0])]) == names[..1];
    } else if names[0] in env.loadable {
      assert Opened([Open(names[0]), Close(names[0])]) == [names[0]] + Opened([Close(names[0])]);
      assert Opened([Open(names[0]), Close(names[0])]) == names[..1];
    } else {
      var rest := TryLoad(env, names[1..]);
      TryLoadOrder(env, names[1..]);
      var k :| 0 <= k <= |names[1..]| && Opened(rest.events) == names[1..][..k] &&
        forall j :: 0 <= j < k - 1 ==> Misses(env, names[1..][j]);
      OpenedCons(names[0], rest.events);
      PrefixCons(names, k);
      forall j | 0 <= j < k ensures Misses(env, names[j]) {
        if j > 0 { assert names[j] == names[1..][j - 1]; }
      }
    }
  }

  lemma OpenedCons(name: string, events: seq<ProbeEvent>)
    ensures Opened([Open(name)] + events) == [name] + Opened(events)
  {
    assert ([Open(name)] + events)[1..] == events;
  }

  lemma PrefixCons(names: seq<string>, k: nat)
    requires k < |names|
    ensures [names[0]] + names[1..][..k] == names[..k + 1]
  {
    assert names[1..][..k] == names[1..k + 1];
  }

  /** The names of the libraries a list of events attempted to load, in order. */
  function Opened(events: seq<ProbeEvent>): seq<string> {
    if events == [] then []
    else if events[0].Open? then [events[0].name] + Opened(events[1..])
    else Opened(events[1..])
  }

  /** Every handle a probe obtains is released at once, and nothing is
      released that was not just loaded. */
  ghost predicate Balanced(env: Env, e: seq<ProbeEvent>) {
    && (forall i :: 0 <= i < |e| && e[i].Open? && Loads(env, e[i].name) ==>
          i + 1 < |e| && e[i + 1] == Close(e[i].name))
    && (forall i :: 0 <= i < |e| && e[i].Close? ==>
          0 < i && e[i - 1] == Open(e[i].name) && Loads(env, e[i].name))
  }

  lemma {:induction false} TryLoadBalanced(env: Env, names: seq<string>)
    ensures Balanced(env, TryLoad(env, names).events)
    ensures forall ev :: ev in TryLoad(env, names).events ==> !ev.Exists?
  {
    if names != [] && names[0] !in env.faulting && names[0] !in env.loadable {
      var rest := TryLoad(env, names[1..]);
      TryLoadBalanced(env, names[1..]);
      var e := [Open(names[0])] + rest.events;
      forall i | 0 <= i < |e| && e[i].Open? && Loads(env, e[i].name)
        ensures i + 1 < |e| && e[i + 1] == Close(e[i].name)
      {
        assert i > 0 && e[i] == rest.events[i - 1];
      }
      forall i | 0 <= i < |e| && e[i].Close?
        ensures 0 < i && e[i - 1] == Open(e[i].name) && Loads(env, e[i].name)
      {
        assert i > 0 && e[i] == rest.events[i - 1];
      }
    }
  }

  /** Properties of a whole probe: it never fails (a function is total), it
      is found exactly when a runtime library loads or the bundled file
      exists, handles are balanced, and the file is checked only after the
      whole chain failed. */
  lemma ProbeSpec(env: Env, names: seq<string>, bundled: string)
    ensures var p := ProbeWithFallback(env, names, bundled);
      && (p.found <==> ReachesLoadable(env, names) || bundled in env.files)
      && (!ReachesLoadable(env, names) ==> p.events[|p.events| - 1] == Exists(bundled))
      && (ReachesLoadable(env, names) ==> Exists(bundled) !in p.events)
      && Balanced(env, p.events)
  {
    TryLoadFound(env, names);
    TryLoadBalanced(env, names);
    var chain := TryLoad(env, names);
    if !chain.found {
      var e := chain.events + [Exists(bundled)];
      forall i | 0 <= i < |e| && e[i].Open? && Loads(env, e[i].name)
        ensures i + 1 < |e| && e[i + 1] == Close(e[i].name)
      {
        assert e[i] == chain.events[i];
      }
      forall i | 0 <= i < |e| && e[i].Close?
        ensures 0 < i && e[i - 1] == Open(e[i].name) && Loads(env, e[i].name)
      {
        assert i < |chain.events|;
      }
    }
  }

  /** An exception from the first load attempt is swallowed: the probe
      then reports whether the bundled library exists. */
  lemma ProbeFaultFallsBack(env: Env, names: seq<string>, bundled: string)
    requires names != [] && names[0] in env.faulting
    ensures ProbeWithFallback(env, names, bundled) ==
            Probe(bundled in env.files, [Open(names[0]), Exists(bundled)])
  {
  }

  /** The vendor priority: NVIDIA whenever the CUDA probe succeeds (and then
      no ROCm library is touched), AMD only when it fails and the ROCm probe
      succeeds, None when both fail. */
  lemma DetectPriority(env: Env)
    ensures var d := DetectGpuType(env);
      && (d.gpu == Nvidia <==> CanLoadCudaLibrary(env).found)
      && (d.gpu == AMD <==> !CanLoadCudaLibrary(env).found && CanLoadRocmLibrary(env).found)
      && (d.gpu == None <==> !CanLoadCudaLibrary(env).found && !CanLoadRocmLibrary(env).found)
      && (d.gpu == Nvidia ==> d.events == CanLoadCudaLibrary(env).events)
  {
  }

  /** The detection in terms of the host alone. */
  lemma DetectFromHost(env: Env)
    ensures DetectGpuType(env).gpu == Nvidia <==>
      ReachesLoadable(env, CudaRuntimeNames(env.os)) || CudaBundledLibrary(env.os) in env.files
    ensures DetectGpuType(env).gpu == None <==>
      && !ReachesLoadable(env, CudaRuntimeNames(env.os)) && CudaBundledLibrary(env.os) !in env.files
      && !ReachesLoadable(env, RocmRuntimeNames(env.os)) && RocmBundledLibrary(env.os) !in env.files
  {
  }

  /** The description is total and tells the three vendors apart. */
  lemma DescriptionsDistinct(a: GpuType, b: GpuType)
    ensures a != b ==> GetGpuTypeDescription(a) != GetGpuTypeDescription(b)
  {
  }
}
