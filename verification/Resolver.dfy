/** Which backend runs a function: the per-function resolver, and its agreement with what the process backend can run. */
module Resolver {
  import opened Options

  /** A function; `command` and `layers` are its manifest's, empty if it has none. */
  datatype Fn = Fn(name: string, runtime: string, handler: string, hint: string, command: string, layers: seq<string>)

  // ---------------------------------------------------------------------------------------------
  // The process backend
  // ---------------------------------------------------------------------------------------------

  const PROCESS_PREFIXES: seq<string> := ["nodejs", "python", "ruby", "provided"]

  predicate IsProvided(fn: Fn) { "provided" <= fn.runtime }

  /** `bootstrap` is whether the function's directory has an executable bootstrap. */
  predicate RequiresLayerBootstrap(fn: Fn, bootstrap: bool) { IsProvided(fn) && fn.layers != [] && !bootstrap }

  predicate Supports(fn: Fn, bootstrap: bool) {
    if fn.command != "" then true
    else if RequiresLayerBootstrap(fn, bootstrap) then false
    else exists i :: 0 <= i < |PROCESS_PREFIXES| && PROCESS_PREFIXES[i] <= fn.runtime
  }

  datatype Command = Run(name: string, args: seq<string>) | BootstrapMissing | NotSupported

  function RuntimeCommand(fn: Fn, shimDir: string, bootstrap: bool): Command {
    if fn.command != "" then Run("sh", ["-c", fn.command])
    else if "nodejs" <= fn.runtime then Run("node", [shimDir + "/bootstrap.mjs", fn.handler])
    else if "python" <= fn.runtime then Run("python3", [shimDir + "/bootstrap.py", fn.handler])
    else if "ruby" <= fn.runtime then Run("ruby", [shimDir + "/bootstrap.rb", fn.handler])
    else if IsProvided(fn) then if bootstrap then Run("./bootstrap", []) else BootstrapMissing
    else NotSupported
  }

  /** A function that the process backend supports is never refused for its runtime, whatever has become of its
      bootstrap since. */
  lemma SupportedIsNotRefused(fn: Fn, bootstrap: bool, shimDir: string, later: bool)
    requires Supports(fn, bootstrap)
    ensures RuntimeCommand(fn, shimDir, later) != NotSupported
  {
  }

  lemma PrefixesDiffer(fn: Fn)
    requires IsProvided(fn)
    ensures !("nodejs" <= fn.runtime) && !("python" <= fn.runtime) && !("ruby" <= fn.runtime)
  {
    assert fn.runtime[1] == "provided"[1] == 'r';
    assert "nodejs"[1] == 'o' && "python"[1] == 'y' && "ruby"[1] == 'u';
  }

  /** A managed runtime is run by the shim of its language, which is told the handler; a provided one by its bootstrap;
      and a manifest's command by the shell. */
  lemma CommandRuns(fn: Fn, shimDir: string, bootstrap: bool)
    ensures var c := RuntimeCommand(fn, shimDir, bootstrap);
            && (fn.command != "" ==> c == Run("sh", ["-c", fn.command]))
            && (fn.command == "" && IsProvided(fn) && bootstrap ==> c == Run("./bootstrap", []))
            && (fn.command == "" && !IsProvided(fn) && c.Run? ==>
                  && |c.args| == 2 && c.args[1] == fn.handler
                  && (c.name == "node" ==> "nodejs" <= fn.runtime && c.args[0] == shimDir + "/bootstrap.mjs")
                  && (c.name == "python3" ==> "python" <= fn.runtime && c.args[0] == shimDir + "/bootstrap.py")
                  && (c.name == "ruby" ==> "ruby" <= fn.runtime && c.args[0] == shimDir + "/bootstrap.rb")
                  && (c.name == "node" || c.name == "python3" || c.name == "ruby"))
  {
    if IsProvided(fn) { PrefixesDiffer(fn); }
  }

  /** And it is unsupported exactly when it would be refused for its runtime, or would miss a bootstrap that its layers
      are there to bring. */
  lemma UnsupportedIff(fn: Fn, bootstrap: bool, shimDir: string)
    ensures var c := RuntimeCommand(fn, shimDir, bootstrap);
            !Supports(fn, bootstrap) <==> c == NotSupported || (c == BootstrapMissing && fn.layers != [])
  {
    if IsProvided(fn) { PrefixesDiffer(fn); }
    assert PROCESS_PREFIXES[0] == "nodejs" && PROCESS_PREFIXES[1] == "python" && PROCESS_PREFIXES[2] == "ruby"
           && PROCESS_PREFIXES[3] == "provided";
  }

  // ---------------------------------------------------------------------------------------------
  // The resolver
  // ---------------------------------------------------------------------------------------------

  datatype Kind = Container | Process
  datatype Backend = Backend(kind: Kind, id: nat)

  /** The kind a function asks for: its own, or the one that was detected for all. */
  function Asked(mode: string, hint: string): Option<Kind> {
    if hint == "" || hint == "auto" || hint == mode then None
    else if hint == "container" then Some(Container)
    else if hint == "process" then Some(Process)
    else None
  }

  /** The kind it gets: never a process it could not run as. */
  function KindFor(mode: string, globalKind: Kind, fn: Fn, bootstrap: bool): Kind {
    var asked := Asked(mode, fn.hint);
    var kind := if asked.Some? then asked.value else globalKind;
    if kind == Process && !Supports(fn, bootstrap) then Container else kind
  }

  /** A stretch of some other call that runs under the resolver's mutex. */
  datatype Section = ContainerOnce(detected: Option<nat>) | ProcessOnce(detected: Option<nat>) | Notice(name: string)

  class PerFunctionBackend {
    const mode: string
    const global: Backend
    var container: Option<Backend>       // with containerDone: the backend, or the error that was cached for it
    var containerDone: bool
    var process: Option<Backend>
    var processDone: bool
    var notified: set<string>
    ghost var containerCalls: nat        // the calls of resolveContainer
    ghost var processCalls: nat
    ghost var notices: seq<string>       // the names of the notices printed

    ghost predicate Valid()
      reads this
    {
      && containerCalls == (if containerDone then 1 else 0) && processCalls == (if processDone then 1 else 0)
      && (container.Some? ==> containerDone && container.value.kind == Container)
      && (process.Some? ==> processDone && process.value.kind == Process)
      && (forall n :: n in notices <==> n in notified)
      && (forall i, j :: 0 <= i < j < |notices| ==> notices[i] != notices[j])
    }

    constructor (mode: string, global: Backend)
      ensures Valid() && this.mode == mode && this.global == global && !containerDone && !processDone && notices == []
    {
      this.mode, this.global := mode, global;
      container, containerDone, process, processDone, notified := None, false, None, false, {};
      containerCalls, processCalls, notices := 0, 0, [];
    }

    /** What later calls may rely on: a cached result stays, and so does a notice. */
    twostate predicate Keeps()
      reads this
    {
      && (old(containerDone) ==> containerDone && container == old(container))
      && (old(processDone) ==> processDone && process == old(process))
      && old(notices) <= notices
    }

    method ResolveContainerOnce(detected: Option<nat>) returns (b: Option<Backend>)
      requires Valid()
      modifies this
      ensures Valid() && Keeps() && containerDone && b == container
      ensures !old(containerDone) ==> b == if detected.Some? then Some(Backend(Container, detected.value)) else None
      ensures notices == old(notices)
    {
      if !containerDone {
        containerDone, containerCalls := true, containerCalls + 1;
        container := if detected.Some? then Some(Backend(Container, detected.value)) else None;
      }
      b := container;
    }

    method ResolveProcessOnce(detected: Option<nat>) returns (b: Option<Backend>)
      requires Valid()
      modifies this
      ensures Valid() && Keeps() && processDone && b == process
      ensures !old(processDone) ==> b == if detected.Some? then Some(Backend(Process, detected.value)) else None
      ensures notices == old(notices)
    {
      if !processDone {
        processDone, processCalls := true, processCalls + 1;
        process := if detected.Some? then Some(Backend(Process, detected.value)) else None;
      }
      b := process;
    }

    /** fallbackToContainer's notice. */
    method Notify(name: string)
      requires Valid()
      modifies this`notified, this`notices
      ensures Valid() && Keeps() && name in notices
      ensures notices == old(notices) || (notices == old(notices) + [name] && name !in old(notices))
    {
      if name in notified { return; }
      notified, notices := notified + {name}, notices + [name];
    }

    /** Meanwhile other calls go through their own stretches. */
    method Others()
      requires Valid()
      modifies this
      ensures Valid() && Keeps()
    {
      var work: seq<Section> := *;
      for k := 0 to |work|
        invariant Valid() && Keeps()
      {
        match work[k] {
          case ContainerOnce(d) => var b := ResolveContainerOnce(d);
          case ProcessOnce(d) => var b := ResolveProcessOnce(d);
          case Notice(name) => Notify(name);
        }
      }
    }

    method ResolveTarget(hint: string, containerFound: Option<nat>, processFound: Option<nat>)
      returns (b: Option<Backend>, kind: Kind)
      requires Valid()
      modifies this
      ensures Valid() && Keeps()
      ensures var asked := Asked(mode, hint);
              && kind == (if asked.Some? then asked.value else global.kind)
              && (asked == None ==> b == Some(global))
              && (asked == Some(Container) ==> containerDone && b == container)
              && (asked == Some(Process) ==> processDone && b == process)
      ensures hint == "container" && mode != "container" ==> kind == Container
      ensures hint == "process" && mode != "process" ==> kind == Process
      ensures hint == mode || (hint != "container" && hint != "process") ==> b == Some(global) && kind == global.kind
      ensures b.Some? ==> b.value.kind == kind
    {
      if hint == "" || hint == "auto" || hint == mode { return Some(global), global.kind; }
      match hint {
        case "container" => b := ResolveContainerOnce(containerFound); kind := Container;
        case "process" => b := ResolveProcessOnce(processFound); kind := Process;
        case _ => b, kind := Some(global), global.kind;
      }
    }

    /** resolve, among other calls of it. What it returns has the kind that the function is to get, and is either the
        one for all or the cached one of that kind; it is an error only if that could not be had. */
    method Resolve(fn: Fn, bootstrap: bool, containerFound: Option<nat>, processFound: Option<nat>)
        returns (b: Option<Backend>)
      requires Valid()
      modifies this
      ensures Valid() && Keeps()
      ensures b.Some? ==> b.value.kind == KindFor(mode, global.kind, fn, bootstrap)
      ensures var wantsProcess := if fn.hint == "container" && mode != "container" then false
                                  else if fn.hint == "process" && mode != "process" then true
                                  else global.kind == Process;
              b.Some? ==>
                && (b.value.kind == Process <==> wantsProcess && Supports(fn, bootstrap))
                && (wantsProcess && !Supports(fn, bootstrap) ==> fn.name in notices)
      ensures b.Some? ==> b.value == global || b == container || b == process
      ensures b == None ==> (containerDone && container == None) || (processDone && process == None)
      ensures b.Some? && NeedsContainerFallback(fn, bootstrap) ==> fn.name in notices
    {
      Others();
      var kind;
      b, kind := ResolveTarget(fn.hint, containerFound, processFound);
      Others();
      if b == None { return; }
      if kind == Process && !Supports(fn, bootstrap) {
        b := ResolveContainerOnce(containerFound);
        Others();
        if b.Some? { Notify(fn.name); }
      }
    }

    /** needsContainerFallback, of the kind that the function asks for. */
    predicate NeedsContainerFallback(fn: Fn, bootstrap: bool): (needs: bool)
      ensures fn.hint == "container" && mode != "container" ==> !needs
      ensures fn.hint == "process" && mode != "process" ==> (needs <==> !Supports(fn, bootstrap))
      ensures fn.hint == mode || (fn.hint != "container" && fn.hint != "process") ==>
                (needs <==> global.kind == Process && !Supports(fn, bootstrap))
    {
      var asked := Asked(mode, fn.hint);
      (if asked.Some? then asked.value else global.kind) == Process && !Supports(fn, bootstrap)
    }
  }

  /** In any sequence of resolves, with any other calls between their steps, each backend of its own is looked for at
      most once, and a function's notice is printed at most once. */
  method ResolveAll(r: PerFunctionBackend, fns: seq<Fn>, bootstrap: string -> bool, found: nat -> Option<nat>)
    requires r.Valid()
    modifies r
    ensures r.Valid() && r.containerCalls <= 1 && r.processCalls <= 1
    ensures forall i, j :: 0 <= i < j < |r.notices| ==> r.notices[i] != r.notices[j]
  {
    for k := 0 to |fns|
      invariant r.Valid()
    {
      var b := r.Resolve(fns[k], bootstrap(fns[k].name), found(2 * k), found(2 * k + 1));
    }
  }
}
