// Gastown agent roles read off tmux session names: the lower-cased name is
// tried against each role's patterns in a fixed order and the first role
// that matches wins; each role has its badge (emoji, name and colours).
module Roles {
  import opened Strs
  import opened Wrappers

  datatype Role = Mayor | Deacon | Witness | Polecat | Refinery | Crew

  /** The role's patterns, tried on the lower-cased session name. */
  predicate MatchesRole(role: Role, name: string)
  {
    match role
    case Mayor => HasPrefix(name, "hq-mayor") || name == "mayor" || Contains(name, "-mayor")
    case Deacon => HasPrefix(name, "hq-deacon") || name == "deacon" || Contains(name, "-deacon")
    case Witness => Contains(name, "-witness") || name == "witness" || HasPrefix(name, "witness")
    case Polecat => Contains(name, "-polecat") || name == "polecat" || Contains(name, "-pc-") || HasSuffix(name, "-pc")
    case Refinery => Contains(name, "-refinery") || name == "refinery" || HasPrefix(name, "refinery")
    case Crew => Contains(name, "-crew-") || Contains(name, "-crew") || name == "crew" || HasPrefix(name, "crew-")
  }

  /** Where a role stands in the order the roles are tried in. */
  function Rank(role: Role): nat
  {
    match role
    case Mayor => 0
    case Deacon => 1
    case Witness => 2
    case Polecat => 3
    case Refinery => 4
    case Crew => 5
  }

  /**
   * `detectAgentRole(sessionName)`: the roles are tried in order on the
   * lower-cased name and the first whose patterns match is the role.
   */
  function DetectRole(sessionName: string): (r: Option<Role>)
    ensures r.Some? ==> MatchesRole(r.value, ToLower(sessionName))
  {
    var name := ToLower(sessionName);
    if MatchesRole(Mayor, name) then Some(Mayor)
    else if MatchesRole(Deacon, name) then Some(Deacon)
    else if MatchesRole(Witness, name) then Some(Witness)
    else if MatchesRole(Polecat, name) then Some(Polecat)
    else if MatchesRole(Refinery, name) then Some(Refinery)
    else if MatchesRole(Crew, name) then Some(Crew)
    else None
  }

  /** Whenever some role matches, a role is detected, and it is tried no later than that one. */
  lemma DetectedFirst(sessionName: string, role: Role)
    requires MatchesRole(role, ToLower(sessionName))
    ensures DetectRole(sessionName).Some? && Rank(DetectRole(sessionName).value) <= Rank(role)
  {
    match role
    case Mayor =>
    case Deacon =>
    case Witness =>
    case Polecat =>
    case Refinery =>
    case Crew =>
  }

  /** No role is detected exactly when no role's patterns match. */
  lemma DetectNone(sessionName: string)
    ensures DetectRole(sessionName).None? <==> forall role :: !MatchesRole(role, ToLower(sessionName))
  {
    if DetectRole(sessionName).None? {
      forall role
        ensures !MatchesRole(role, ToLower(sessionName))
      {
        if MatchesRole(role, ToLower(sessionName)) {
          DetectedFirst(sessionName, role);
        }
      }
    } else {
      var role := DetectRole(sessionName).value;
      assert MatchesRole(role, ToLower(sessionName));
    }
  }

  /** Lower-casing twice is lower-casing once. */
  lemma ToLowerIdempotent(s: string)
    ensures ToLower(ToLower(s)) == ToLower(s)
  {
    var t := ToLower(s);
    assert forall i :: 0 <= i < |t| ==> ToLower(t)[i] == t[i];
  }

  /** Detection ignores case: a name and its lower-cased form have the same role. */
  lemma DetectIgnoresCase(sessionName: string)
    ensures DetectRole(ToLower(sessionName)) == DetectRole(sessionName)
  {
    ToLowerIdempotent(sessionName);
  }

  /** A string without one of the characters of `sub` neither starts with nor contains it. */
  lemma {:induction false} NotContainsChar(s: string, sub: string, k: int)
    requires 0 <= k < |sub| && sub[k] !in s
    ensures !HasPrefix(s, sub) && !Contains(s, sub)
    decreases |s|
  {
    if |sub| <= |s| {
      assert s[k] in s;
      assert s[..|sub|][k] == s[k];
    }
    if |s| > 0 {
      assert forall c :: c in s[1..] ==> c in s;
      NotContainsChar(s[1..], sub, k);
    }
  }

  /** A string without upper-case letters is its own lower-case form. */
  lemma ToLowerFixed(s: string)
    requires forall i :: 0 <= i < |s| ==> !IsUpper(s[i])
    ensures ToLower(s) == s
  {
    assert forall i :: 0 <= i < |s| ==> ToLower(s)[i] == s[i];
  }

  /** Without the letters 'm', 'd' and 'w', a name is neither mayor, deacon nor witness. */
  lemma NotMayorDeaconWitness(s: string)
    requires 'm' !in s && 'd' !in s && 'w' !in s
    ensures !MatchesRole(Mayor, s) && !MatchesRole(Deacon, s) && !MatchesRole(Witness, s)
  {
    NotContainsChar(s, "hq-mayor", 3);
    NotContainsChar(s, "-mayor", 1);
    NotContainsChar(s, "mayor", 0);
    NotContainsChar(s, "hq-deacon", 3);
    NotContainsChar(s, "-deacon", 1);
    NotContainsChar(s, "deacon", 0);
    NotContainsChar(s, "-witness", 1);
    NotContainsChar(s, "witness", 0);
  }

  /**
   * A lower-case name with "-pc-" in it and none of the letters 'm', 'd'
   * and 'w' that "mayor", "deacon" and "witness" start with is a polecat,
   * whatever else it holds: polecat is tried before refinery and crew.
   */
  lemma PolecatName(s: string)
    requires forall i :: 0 <= i < |s| ==> !IsUpper(s[i])
    requires 'm' !in s && 'd' !in s && 'w' !in s
    requires Contains(s, "-pc-")
    ensures DetectRole(s) == Some(Polecat)
  {
    ToLowerFixed(s);
    NotMayorDeaconWitness(s);
  }

  /** "gt-refinery-pc-1" is a polecat, not a refinery. */
  lemma RefineryPolecatIsPolecat()
    ensures DetectRole("gt-refinery-pc-1") == Some(Polecat)
  {
    var s := "gt-refinery-pc-1";
    assert s[11..15] == "-pc-";
    ContainsAt(s, "-pc-", 11);
    PolecatName(s);
  }

  /** A role's badge, as `ROLE_CONFIG` gives it. */
  datatype RoleInfo = RoleInfo(role: Role, emoji: string, name: string, color: string, glowColor: string)

  /** `ROLE_CONFIG[role]` with the role itself: `{ role, ...ROLE_CONFIG[role] }`. */
  function Badge(role: Role): (r: RoleInfo)
    ensures r.role == role
  {
    match role
    case Mayor => RoleInfo(Mayor, "\U{1F451}", "Mayor", "#ffd700", "rgba(255, 215, 0, 0.5)")
    case Deacon => RoleInfo(Deacon, "\U{1F4FF}", "Deacon", "#9966ff", "rgba(153, 102, 255, 0.5)")
    case Witness => RoleInfo(Witness, "\U{1F441}", "Witness", "#00bfff", "rgba(0, 191, 255, 0.5)")
    case Polecat => RoleInfo(Polecat, "\U{1F9A8}", "Polecat", "#ff6b9d", "rgba(255, 107, 157, 0.5)")
    case Refinery => RoleInfo(Refinery, "\U{1F3ED}", "Refinery", "#ff9933", "rgba(255, 153, 51, 0.5)")
    case Crew => RoleInfo(Crew, "\U{1F527}", "Crew", "#4ade80", "rgba(74, 222, 128, 0.5)")
  }

  /** Every role has its own badge name and colour. */
  lemma BadgesDistinct(a: Role, b: Role)
    requires a != b
    ensures Badge(a).name != Badge(b).name && Badge(a).color != Badge(b).color
  {
  }

  /** `getRoleInfo(sessionName)`: the badge of the detected role, or none when no role is detected. */
  function GetRoleInfo(sessionName: string): (r: Option<RoleInfo>)
    ensures r.None? <==> DetectRole(sessionName).None?
    ensures r.Some? ==> r.value.role == DetectRole(sessionName).value && r.value == Badge(r.value.role)
  {
    match DetectRole(sessionName)
    case None => None
    case Some(role) => Some(Badge(role))
  }
}
