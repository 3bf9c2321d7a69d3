// The file browser shows container paths as the Windows host paths they
// are mounted from: "/code" is "E:/Code" and "/vault" is "E:/Vault".
// Both directions replace the first prefix of the table that matches.
module PathMap {
  import opened Strs

  /** One mount: the container prefix and the host prefix it shows as. */
  datatype Mount = Mount(container: string, windows: string)

  /** `PATH_MAP`, in its order. */
  const Mounts: seq<Mount> := [Mount("/code", "E:/Code"), Mount("/vault", "E:/Vault")]

  /**
   * Replace the first prefix of `table` that `path` starts with: container
   * by host prefix when `toWindows`, host by container prefix otherwise.
   * An unmatched path is returned as it is.
   */
  function Replace(table: seq<Mount>, path: string, toWindows: bool): (r: string)
    ensures (forall k :: 0 <= k < |table| ==> !HasPrefix(path, From(table[k], toWindows))) ==> r == path
    ensures forall k :: 0 <= k < |table| && HasPrefix(path, From(table[k], toWindows)) &&
                        (forall j :: 0 <= j < k ==> !HasPrefix(path, From(table[j], toWindows))) ==>
                        r == To(table[k], toWindows) + path[|From(table[k], toWindows)|..]
  {
    if table == [] then path
    else if HasPrefix(path, From(table[0], toWindows)) then
      To(table[0], toWindows) + path[|From(table[0], toWindows)|..]
    else
      var r := Replace(table[1..], path, toWindows);
      assert forall k :: 1 <= k < |table| ==> table[k] == table[1..][k - 1];
      r
  }

  /** The side of a mount that is matched. */
  function From(m: Mount, toWindows: bool): string
  {
    if toWindows then m.container else m.windows
  }

  /** The side of a mount that is written. */
  function To(m: Mount, toWindows: bool): string
  {
    if toWindows then m.windows else m.container
  }

  /** `toDisplayPath`. */
  function ToDisplayPath(path: string): (r: string)
    ensures HasPrefix(path, "/code") ==> r == "E:/Code" + path[5..]
    ensures !HasPrefix(path, "/code") && HasPrefix(path, "/vault") ==> r == "E:/Vault" + path[6..]
    ensures !HasPrefix(path, "/code") && !HasPrefix(path, "/vault") ==> r == path
  {
    assert From(Mounts[0], true) == "/code" && From(Mounts[1], true) == "/vault";
    Replace(Mounts, path, true)
  }

  /** `toContainerPath`. */
  function ToContainerPath(path: string): (r: string)
    ensures HasPrefix(path, "E:/Code") ==> r == "/code" + path[7..]
    ensures !HasPrefix(path, "E:/Code") && HasPrefix(path, "E:/Vault") ==> r == "/vault" + path[8..]
    ensures !HasPrefix(path, "E:/Code") && !HasPrefix(path, "E:/Vault") ==> r == path
  {
    assert From(Mounts[0], false) == "E:/Code" && From(Mounts[1], false) == "E:/Vault";
    Replace(Mounts, path, false)
  }

  /** A mounted container path shown on screen converts back to itself. */
  lemma ContainerRoundTrip(path: string)
    requires HasPrefix(path, "/code") || HasPrefix(path, "/vault")
    ensures ToContainerPath(ToDisplayPath(path)) == path
  {
    var d := ToDisplayPath(path);
    if HasPrefix(path, "/code") {
      assert path == "/code" + path[5..];
      assert d == "E:/Code" + path[5..];
      assert HasPrefix(d, "E:/Code");
      assert d[7..] == path[5..];
    } else {
      assert path == "/vault" + path[6..];
      assert d == "E:/Vault" + path[6..];
      assert d[..8] == "E:/Vault";
      assert !HasPrefix(d, "E:/Code") by {
        assert d[3] == 'V';
      }
      assert d[8..] == path[6..];
    }
  }

  /** A host path under a mount converts to the container and back unchanged. */
  lemma DisplayRoundTrip(path: string)
    requires HasPrefix(path, "E:/Code") || HasPrefix(path, "E:/Vault")
    ensures ToDisplayPath(ToContainerPath(path)) == path
  {
    var c := ToContainerPath(path);
    if HasPrefix(path, "E:/Code") {
      assert path == "E:/Code" + path[7..];
      assert c == "/code" + path[7..];
      assert c[..5] == "/code";
      assert c[5..] == path[7..];
    } else {
      assert path == "E:/Vault" + path[8..];
      assert c == "/vault" + path[8..];
      assert c[..6] == "/vault";
      assert !HasPrefix(c, "/code") by {
        assert c[1] == 'v';
      }
      assert c[6..] == path[8..];
    }
  }

  /** `getRootDisplayName`: the host path for the two mount names, the name itself otherwise. */
  function RootDisplayName(name: string): (r: string)
    ensures name == "code" ==> r == "E:/Code"
    ensures name == "vault" ==> r == "E:/Vault"
    ensures name != "code" && name != "vault" ==> r == name
  {
    if name == "code" then "E:/Code" else if name == "vault" then "E:/Vault" else name
  }

  /** The root's entry "code" shows as the host path of "/code". */
  lemma RootNamesAgreeWithPaths(name: string)
    requires name == "code" || name == "vault"
    ensures RootDisplayName(name) == ToDisplayPath("/" + name)
  {
    var p := "/" + name;
    if name == "code" {
      assert HasPrefix(p, "/code") && p[5..] == "";
    } else {
      assert p[..6] == "/vault" && p[6..] == "";
      assert !HasPrefix(p, "/code") by {
        assert p[1] == 'v';
      }
    }
  }
}
