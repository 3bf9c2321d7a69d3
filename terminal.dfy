// The two ttyd supervisors (`TerminalProxy` for the tmux terminal,
// `BvTerminalProxy` for beads_viewer): their running state, the project path
// of the bv terminal, and how their HTTP handlers forward a request. Whether
// ttyd could be spawned is an input; the process itself, its monitor
// goroutine and the WebSocket relay are outside the model, except that a
// process exit is an operation of its own.
module Terminal {
  import opened Strs
  import opened Wrappers
  import Radix

  /** The project path used when none is given. */
  const DefaultProjectPath := "/code"

  /** Where a proxied request goes, with the path it carries. */
  datatype Forward = Tunnel(path: string) | ReverseProxy(path: string)

  /** `strings.EqualFold(upgrade, "websocket")`, folding ASCII letters. */
  predicate IsWebSocketUpgrade(upgrade: string)
  {
    ToLower(upgrade) == "websocket"
  }

  /** `strings.TrimPrefix(path, prefix)`, with "" replaced by "/". */
  function StripPrefix(path: string, prefix: string): (r: string)
    ensures r != ""
    ensures HasPrefix(path, prefix) ==> r == "/" || prefix + r == path
    ensures !HasPrefix(path, prefix) ==> r == path || (path == "" && r == "/")
  {
    if HasPrefix(path, prefix) then
      var rest := path[|prefix|..];
      assert path == prefix + rest;
      if rest == "" then "/" else rest
    else if path == "" then "/"
    else path
  }

  /**
   * A path the mux hands the handler (it starts with prefix + "/") keeps its
   * leading slash and gets the prefix back by concatenation.
   */
  lemma StripUnderMount(path: string, prefix: string)
    requires HasPrefix(path, prefix + "/")
    ensures var r := StripPrefix(path, prefix);
            prefix + r == path && r[0] == '/'
  {
    assert path[..|prefix|] == (prefix + "/")[..|prefix|] == prefix;
    assert path[|prefix|] == (prefix + "/")[|prefix|] == '/';
  }

  /** The mount path itself is forwarded as the root path. */
  lemma StripMountItself(prefix: string)
    ensures StripPrefix(prefix, prefix) == "/"
  {
    assert prefix[..|prefix|] == prefix;
  }

  /** The handler: strip the mount prefix, then tunnel upgrades and proxy the rest. */
  function Route(path: string, upgrade: string, prefix: string): (f: Forward)
    ensures f.path == StripPrefix(path, prefix)
    ensures f.Tunnel? <==> IsWebSocketUpgrade(upgrade)
  {
    var p := StripPrefix(path, prefix);
    if IsWebSocketUpgrade(upgrade) then Tunnel(p) else ReverseProxy(p)
  }

  /** The handler of `TerminalProxy`, mounted at "/terminal/". */
  function TerminalRoute(path: string, upgrade: string): Forward
  {
    Route(path, upgrade, "/terminal")
  }

  /** The handler of `BvTerminalProxy`, mounted at "/bv-terminal/". */
  function BvTerminalRoute(path: string, upgrade: string): Forward
  {
    Route(path, upgrade, "/bv-terminal")
  }

  /** The ttyd for the tmux terminal: started once, stopped on shutdown. */
  class TerminalProxy {
    var running: bool
    /** How many times a ttyd process was launched. */
    var spawns: nat
    /** How many times a running ttyd was signalled to stop. */
    var stops: nat

    constructor()
      ensures !running && spawns == 0 && stops == 0
    {
      running := false;
      spawns := 0;
      stops := 0;
    }

    /** `Start`: a no-op while running; otherwise one launch, which `spawnOk` says succeeded. */
    method Start(spawnOk: bool) returns (err: Option<string>)
      modifies this
      ensures old(running) ==> err.None? && running && spawns == old(spawns)
      ensures !old(running) ==> spawns == old(spawns) + 1 && (running <==> spawnOk) && (err.None? <==> spawnOk)
      ensures stops == old(stops)
    {
      if running {
        return None;
      }
      spawns := spawns + 1;
      if !spawnOk {
        return Some("failed to start ttyd");
      }
      running := true;
      err := None;
    }

    /** `Stop`: signals a running ttyd; idempotent, and never running afterwards. */
    method Stop()
      modifies this
      ensures !running
      ensures stops == old(stops) + (if old(running) then 1 else 0)
      ensures spawns == old(spawns)
    {
      if !running {
        return;
      }
      stops := stops + 1;
      running := false;
    }

    /** The monitor goroutine, when the process exits on its own. */
    method ProcessExited()
      modifies this
      ensures !running && spawns == old(spawns) && stops == old(stops)
    {
      running := false;
    }

    method IsRunning() returns (r: bool)
      ensures r == running
    {
      r := running;
    }
  }

  /** The ttyd for beads_viewer, bound to one project path at a time. */
  class BvTerminalProxy {
    var running: bool
    var currentPath: string
    var spawns: nat
    var stops: nat
    /** The command line of the most recent launch. */
    var lastCommand: seq<string>
    const ttydPort: nat
    const launchScript: string

    /** A running proxy has a project path, a stopped one has none. */
    predicate Valid()
      reads this
    {
      running <==> currentPath != ""
    }

    constructor(port: nat, script: string)
      ensures Valid() && !running && currentPath == "" && spawns == 0 && stops == 0
      ensures ttydPort == port && launchScript == script && lastCommand == []
    {
      running := false;
      currentPath := "";
      spawns := 0;
      stops := 0;
      lastCommand := [];
      ttydPort := port;
      launchScript := script;
    }

    /** `stopLocked`: a no-op when not running; afterwards nothing runs and there is no path. */
    method StopLocked()
      requires Valid()
      modifies this
      ensures Valid() && !running && currentPath == ""
      ensures stops == old(stops) + (if old(running) then 1 else 0)
      ensures spawns == old(spawns) && lastCommand == old(lastCommand)
    {
      if !running {
        return;
      }
      stops := stops + 1;
      running := false;
      currentPath := "";
    }

    /**
     * `Start`: nothing happens when already running on the same path (the
     * comparison is made before an empty path is defaulted); otherwise a
     * running ttyd is stopped first and ttyd is launched on the path,
     * "/code" when it is empty.
     */
    method Start(projectPath: string, spawnOk: bool) returns (err: Option<string>)
      requires Valid()
      modifies this
      ensures Valid()
      ensures old(running) && projectPath == old(currentPath) ==>
                err.None? && running && currentPath == old(currentPath)
                && spawns == old(spawns) && stops == old(stops) && lastCommand == old(lastCommand)
      ensures !(old(running) && projectPath == old(currentPath)) ==>
                var path := if projectPath == "" then DefaultProjectPath else projectPath;
                stops == old(stops) + (if old(running) then 1 else 0)
                && spawns == old(spawns) + 1
                && lastCommand == ["ttyd", "-p", Radix.FormatNat(ttydPort, 10), "-W", "-a", launchScript, path]
                && (spawnOk ==> err.None? && running && currentPath == path)
                && (!spawnOk ==> err.Some? && !running && currentPath == "")
    {
      if running && currentPath == projectPath {
        return None;
      }
      if running {
        StopLocked();
      }
      var path := projectPath;
      if path == "" {
        path := DefaultProjectPath;
      }
      lastCommand := ["ttyd", "-p", Radix.FormatNat(ttydPort, 10), "-W", "-a", launchScript, path];
      spawns := spawns + 1;
      if !spawnOk {
        return Some("failed to start bv ttyd");
      }
      running := true;
      currentPath := path;
      err := None;
    }

    /** `Stop`. */
    method Stop() returns (err: Option<string>)
      requires Valid()
      modifies this
      ensures Valid() && !running && currentPath == "" && err.None?
      ensures stops == old(stops) + (if old(running) then 1 else 0)
      ensures spawns == old(spawns) && lastCommand == old(lastCommand)
    {
      StopLocked();
      err := None;
    }

    /** `Restart` is `Start` with the new path. */
    method Restart(projectPath: string, spawnOk: bool) returns (err: Option<string>)
      requires Valid()
      modifies this
      ensures Valid()
      ensures old(running) && projectPath == old(currentPath) ==>
                err.None? && running && currentPath == old(currentPath)
                && spawns == old(spawns) && stops == old(stops) && lastCommand == old(lastCommand)
      ensures !(old(running) && projectPath == old(currentPath)) ==>
                var path := if projectPath == "" then DefaultProjectPath else projectPath;
                stops == old(stops) + (if old(running) then 1 else 0)
                && spawns == old(spawns) + 1
                && lastCommand == ["ttyd", "-p", Radix.FormatNat(ttydPort, 10), "-W", "-a", launchScript, path]
                && (spawnOk ==> err.None? && running && currentPath == path)
                && (!spawnOk ==> err.Some? && !running && currentPath == "")
    {
      err := Start(projectPath, spawnOk);
    }

    /** The monitor goroutine, when the process exits on its own. */
    method ProcessExited()
      modifies this
      ensures Valid() && !running && currentPath == ""
      ensures spawns == old(spawns) && stops == old(stops) && lastCommand == old(lastCommand)
    {
      running := false;
      currentPath := "";
    }

    method IsRunning() returns (r: bool)
      ensures r == running
    {
      r := running;
    }

    method GetCurrentPath() returns (p: string)
      requires Valid()
      ensures p == currentPath
      ensures p == "" <==> !running
    {
      p := currentPath;
    }
  }
}
