/**
 * The ResourceConfig holder: one object, created when its class is
 * initialised, whose fields are set by the first `loadConfig` call. A static
 * flag guards the load, so every later call throws and changes nothing.
 *
 * The object and the static flag are a value of `ResourceConfig`; each
 * `loadConfig` call returns the next value. The stored sets and maps are
 * values too, so changes made through Java's shared references are not
 * modelled. A Java `Set` argument is `None` for null
 * or the set's elements in iteration order.
 */
module Config {
  import opened Wrappers
  import opened Types
  import BotUtils

  /** The instance fields of the object; every field starts out null. */
  datatype Fields = Fields(
    servers: Option<seq<Server>>,
    serverMap: Option<map<string, Server>>,
    commandMap: Option<map<string, Command>>,
    commands: Option<seq<Command>>,
    executables: Option<seq<Executable>>,
    monitors: Option<seq<Monitor>>)

  const NullFields: Fields := Fields(None, None, None, None, None, None)

  /** An object reference. */
  type Ref = nat

  /**
   * The static `ConfigLoaded` flag, the reference held by the singleton
   * holder class, and the fields of the object it refers to.
   */
  datatype ResourceConfig = ResourceConfig(configLoaded: bool, instance: Ref, fields: Fields)

  /**
   * Class initialisation: the holder class creates the one object, whose
   * fields are null, and the static flag is false.
   */
  function ClassInit(instance: Ref): (rc: ResourceConfig)
    ensures Valid(rc) && !rc.configLoaded
    ensures GetInstance(rc) == instance
  {
    ResourceConfig(false, instance, NullFields)
  }

  /** The message of the exception a repeated load throws. */
  const MultipleLoadMessage: string := "Load Config cannot be called multiple times"

  datatype Exception = IllegalStateException(message: string)

  /** The four arguments of one `loadConfig` call. */
  datatype LoadArgs = LoadArgs(
    serverSet: Option<seq<Server>>,
    command: Option<seq<Command>>,
    executables: Option<seq<Executable>>,
    monitors: Option<seq<Monitor>>)

  /** The state after a call, and the exception it threw, if any. */
  datatype LoadResult = LoadResult(config: ResourceConfig, thrown: Option<Exception>)

  /** `getInstance`: the one reference the holder class keeps. */
  function GetInstance(rc: ResourceConfig): Ref {
    rc.instance
  }

  // Accessors: each returns the stored field, which is null before a load.

  function Servers(rc: ResourceConfig): (r: Option<seq<Server>>)
    ensures Valid(rc) && !rc.configLoaded ==> r.None?
  {
    rc.fields.servers
  }

  function Commands(rc: ResourceConfig): (r: Option<seq<Command>>)
    ensures Valid(rc) && !rc.configLoaded ==> r.None?
  {
    rc.fields.commands
  }

  function Executables(rc: ResourceConfig): (r: Option<seq<Executable>>)
    ensures Valid(rc) && !rc.configLoaded ==> r.None?
  {
    rc.fields.executables
  }

  function Monitors(rc: ResourceConfig): (r: Option<seq<Monitor>>)
    ensures Valid(rc) && !rc.configLoaded ==> r.None?
  {
    rc.fields.monitors
  }

  /** Null before a load; afterwards the map built from the stored server set. */
  function ServerMap(rc: ResourceConfig): (r: Option<map<string, Server>>)
    ensures Valid(rc) ==> (r.Some? <==> rc.configLoaded)
    ensures Valid(rc) && rc.configLoaded ==> r == Some(BotUtils.CreateMap(Servers(rc), ServerKey))
  {
    rc.fields.serverMap
  }

  /** Null before a load; afterwards the map built from the stored command set. */
  function CommandMap(rc: ResourceConfig): (r: Option<map<string, Command>>)
    ensures Valid(rc) ==> (r.Some? <==> rc.configLoaded)
    ensures Valid(rc) && rc.configLoaded ==> r == Some(BotUtils.CreateMap(Commands(rc), CommandKey))
  {
    rc.fields.commandMap
  }

  /**
   * `loadConfig`. On the first call the flag is set, the four sets are
   * stored as given and the two lookup maps are built from the server and
   * command sets; every key of those sets is present, holding the last
   * element (in iteration order) with that key.
   * Once the flag is set the call throws IllegalStateException and the
   * state is left exactly as it was.
   */
  function LoadConfig(rc: ResourceConfig, args: LoadArgs): (r: LoadResult)
    ensures r.config.configLoaded
    ensures r.config.instance == rc.instance
    ensures rc.configLoaded ==>
      r.config == rc && r.thrown == Some(IllegalStateException(MultipleLoadMessage))
    ensures !rc.configLoaded ==>
      && r.thrown.None?
      && Servers(r.config) == args.serverSet
      && Commands(r.config) == args.command
      && Executables(r.config) == args.executables
      && Monitors(r.config) == args.monitors
      && ServerMap(r.config) == Some(BotUtils.CreateMap(args.serverSet, ServerKey))
      && CommandMap(r.config) == Some(BotUtils.CreateMap(args.command, CommandKey))
  {
    if !rc.configLoaded then
      var fields := Fields(
        servers := args.serverSet,
        serverMap := Some(BotUtils.CreateMap(args.serverSet, ServerKey)),
        commandMap := Some(BotUtils.CreateMap(args.command, CommandKey)),
        commands := args.command,
        executables := args.executables,
        monitors := args.monitors);
      LoadResult(ResourceConfig(true, rc.instance, fields), None)
    else
      LoadResult(rc, Some(IllegalStateException(MultipleLoadMessage)))
  }

  /**
   * The states the class can be in: before a load every field is null;
   * after it the two maps are the ones `CreateMap` builds from the stored
   * server and command sets.
   */
  ghost predicate Valid(rc: ResourceConfig) {
    && (!rc.configLoaded ==> rc.fields == NullFields)
    && (rc.configLoaded ==>
          && rc.fields.serverMap == Some(BotUtils.CreateMap(rc.fields.servers, ServerKey))
          && rc.fields.commandMap == Some(BotUtils.CreateMap(rc.fields.commands, CommandKey)))
  }

  /** Class initialisation establishes the invariant, with every accessor null. */
  lemma ClassInitValid(instance: Ref)
    ensures Valid(ClassInit(instance))
    ensures !ClassInit(instance).configLoaded
    ensures Servers(ClassInit(instance)).None? && Commands(ClassInit(instance)).None?
    ensures Executables(ClassInit(instance)).None? && Monitors(ClassInit(instance)).None?
    ensures ServerMap(ClassInit(instance)).None? && CommandMap(ClassInit(instance)).None?
  {
  }

  /** `loadConfig`, accepted or rejected, preserves the invariant. */
  lemma LoadConfigPreservesValid(rc: ResourceConfig, args: LoadArgs)
    requires Valid(rc)
    ensures Valid(LoadConfig(rc, args).config)
  {
  }

  /** The calls of `loadConfig` in turn, with the exception each threw, if any. */
  function Replay(rc: ResourceConfig, calls: seq<LoadArgs>): (r: (ResourceConfig, seq<Option<Exception>>))
    ensures |r.1| == |calls|
    decreases |calls|
  {
    if calls == [] then (rc, [])
    else
      var step := LoadConfig(rc, calls[0]);
      var rest := Replay(step.config, calls[1..]);
      (rest.0, [step.thrown] + rest.1)
  }

  /** The flag never goes back to false: once loaded, loaded after any calls. */
  lemma {:induction false} ReplayMonotone(rc: ResourceConfig, calls: seq<LoadArgs>)
    requires rc.configLoaded || calls != []
    ensures Replay(rc, calls).0.configLoaded
    decreases |calls|
  {
    if calls != [] {
      var step := LoadConfig(rc, calls[0]);
      if calls[1..] != [] {
        ReplayMonotone(step.config, calls[1..]);
      }
    }
  }

  /** `getInstance` returns the same reference whatever calls are made. */
  lemma {:induction false} ReplayKeepsInstance(rc: ResourceConfig, calls: seq<LoadArgs>)
    ensures GetInstance(Replay(rc, calls).0) == GetInstance(rc)
    decreases |calls|
  {
    if calls != [] {
      ReplayKeepsInstance(LoadConfig(rc, calls[0]).config, calls[1..]);
    }
  }

  /** Once loaded, every further call throws and nothing changes. */
  lemma {:induction false} ReplayWhenLoaded(rc: ResourceConfig, calls: seq<LoadArgs>)
    requires rc.configLoaded
    ensures Replay(rc, calls).0 == rc
    ensures forall i :: 0 <= i < |calls| ==>
      Replay(rc, calls).1[i] == Some(IllegalStateException(MultipleLoadMessage))
    decreases |calls|
  {
    if calls != [] {
      ReplayWhenLoaded(rc, calls[1..]);
    }
  }

  /**
   * From class initialisation, the first call succeeds and decides the
   * stored configuration for good; every later call throws.
   */
  lemma ReplayFromClassInit(instance: Ref, calls: seq<LoadArgs>)
    requires calls != []
    ensures Replay(ClassInit(instance), calls).1[0].None?
    ensures forall i :: 1 <= i < |calls| ==>
      Replay(ClassInit(instance), calls).1[i] == Some(IllegalStateException(MultipleLoadMessage))
    ensures Replay(ClassInit(instance), calls).0 == LoadConfig(ClassInit(instance), calls[0]).config
    ensures Servers(Replay(ClassInit(instance), calls).0) == calls[0].serverSet
    ensures Commands(Replay(ClassInit(instance), calls).0) == calls[0].command
    ensures Executables(Replay(ClassInit(instance), calls).0) == calls[0].executables
    ensures Monitors(Replay(ClassInit(instance), calls).0) == calls[0].monitors
  {
    var first := LoadConfig(ClassInit(instance), calls[0]).config;
    ReplayWhenLoaded(first, calls[1..]);
  }
}
