// The three line patterns the mail and chat handlers look for in the output
// of `gt status`: a main-role line (an emoji, a name, an online mark), an
// indented crew or polecat member line, and a rig heading. Each regular
// expression is anchored at the start of the line and its pieces are
// disjoint character classes, so it matches in exactly one way; the matchers
// below scan those pieces one after another.
module StatusLines {
  import opened Strs
  import opened Wrappers

  /** RE2's `\s`: space, tab, newline, form feed and carriage return. */
  predicate ReSpace(c: char)
  {
    c == ' ' || c == '\t' || c == '\n' || c == '\U{000C}' || c == '\r'
  }

  /** RE2's `\w`: ASCII letters, digits and "_". */
  predicate WordChar(c: char)
  {
    IsLetter(c) || IsDigit(c) || c == '_'
  }

  predicate AllWord(s: string)
  {
    forall k :: 0 <= k < |s| ==> WordChar(s[k])
  }

  /** The end of the run of `\s` that starts at `i`. */
  function SpanSpace(s: string, i: nat): (j: nat)
    requires i <= |s|
    ensures i <= j <= |s|
    ensures forall k :: i <= k < j ==> ReSpace(s[k])
    ensures j == |s| || !ReSpace(s[j])
    decreases |s| - i
  {
    if i < |s| && ReSpace(s[i]) then SpanSpace(s, i + 1) else i
  }

  /** The end of the run of `\w` that starts at `i`. */
  function SpanWord(s: string, i: nat): (j: nat)
    requires i <= |s|
    ensures i <= j <= |s|
    ensures forall k :: i <= k < j ==> WordChar(s[k])
    ensures j == |s| || !WordChar(s[j])
    decreases |s| - i
  {
    if i < |s| && WordChar(s[i]) then SpanWord(s, i + 1) else i
  }

  /** A run of `n` spaces followed by a non-space (or the end) is spanned exactly. */
  lemma {:induction false} SpanSpaceRun(s: string, i: nat, n: nat)
    requires i + n <= |s|
    requires forall k :: i <= k < i + n ==> ReSpace(s[k])
    requires i + n == |s| || !ReSpace(s[i + n])
    ensures SpanSpace(s, i) == i + n
    decreases n
  {
    if n > 0 {
      SpanSpaceRun(s, i + 1, n - 1);
    }
  }

  /** A run of `n` word characters followed by a non-word character (or the end) is spanned exactly. */
  lemma {:induction false} SpanWordRun(s: string, i: nat, n: nat)
    requires i + n <= |s|
    requires forall k :: i <= k < i + n ==> WordChar(s[k])
    requires i + n == |s| || !WordChar(s[i + n])
    ensures SpanWord(s, i) == i + n
    decreases n
  {
    if n > 0 {
      SpanWordRun(s, i + 1, n - 1);
    }
  }

  const MayorEmoji: char := '\U{1F3A9}'
  const DeaconEmoji: char := '\U{1F43A}'
  const WitnessEmoji: char := '\U{1F989}'
  const RefineryEmoji: char := '\U{1F3ED}'
  const OnlineMark: char := '\U{25CF}'
  const OfflineMark: char := '\U{25CB}'

  predicate RoleEmoji(c: char)
  {
    c == MayorEmoji || c == DeaconEmoji || c == WitnessEmoji || c == RefineryEmoji
  }

  predicate Mark(c: char)
  {
    c == OnlineMark || c == OfflineMark
  }

  /** The captures of the role pattern. */
  datatype RoleLine = RoleLine(emoji: char, name: string, online: bool)

  /** The captures of the member pattern. */
  datatype MemberLine = MemberLine(name: string, online: bool)

  /** `\s+(\w+)\s+([●○])` matched at `i`: the name and the online mark. */
  function Pieces(line: string, i: nat): (m: Option<MemberLine>)
    requires i <= |line|
    ensures m.Some? ==> m.value.name != "" && AllWord(m.value.name)
  {
    var a := SpanSpace(line, i);
    var b := SpanWord(line, a);
    var c := SpanSpace(line, b);
    if a == i || b == a || c == b || c == |line| || !Mark(line[c]) then None
    else Some(MemberLine(line[a..b], line[c] == OnlineMark))
  }

  /** `^(🎩|🐺|🦉|🏭)\s+(\w+)\s+([●○])`. */
  function MatchRole(line: string): (m: Option<RoleLine>)
    ensures m.Some? ==> RoleEmoji(m.value.emoji) && m.value.name != "" && AllWord(m.value.name)
  {
    if |line| == 0 || !RoleEmoji(line[0]) then None
    else
      match Pieces(line, 1)
      case None => None
      case Some(p) => Some(RoleLine(line[0], p.name, p.online))
  }

  /** `^\s+(\w+)\s+([●○])`. */
  function MatchMember(line: string): (m: Option<MemberLine>)
    ensures m.Some? ==> m.value.name != "" && AllWord(m.value.name)
  {
    Pieces(line, 0)
  }

  /** The opening of a rig heading: three box-drawing rules and a space. */
  const RigOpen: string := "\U{2500}\U{2500}\U{2500} "

  /** What follows the rig's name in its heading. */
  const RigClose: string := "/ \U{2500}"

  /** `^─── (\w+)/ ─`: the rig's name. */
  function MatchRig(line: string): (m: Option<string>)
    ensures m.Some? ==> m.value != "" && AllWord(m.value)
  {
    if !HasPrefix(line, RigOpen) then None
    else
      var b := SpanWord(line, |RigOpen|);
      if b == |RigOpen| || !HasPrefix(line[b..], RigClose) then None
      else Some(line[|RigOpen|..b])
  }

  /**
   * A line whose characters from `i` are white space up to `a`, word
   * characters up to `b`, white space up to `c` and then a mark is matched at
   * `i`, with the word as the name.
   */
  lemma PiecesAt(line: string, i: nat, a: nat, b: nat, c: nat)
    requires i < a < b < c < |line|
    requires forall k :: i <= k < a ==> ReSpace(line[k])
    requires forall k :: a <= k < b ==> WordChar(line[k])
    requires forall k :: b <= k < c ==> ReSpace(line[k])
    requires Mark(line[c])
    ensures Pieces(line, i) == Some(MemberLine(line[a..b], line[c] == OnlineMark))
  {
    SpanSpaceRun(line, i, a - i);
    SpanWordRun(line, a, b - a);
    SpanSpaceRun(line, b, c - b);
  }

  /** Every line of the role shape is matched, with the emoji, the word and the mark as its parts. */
  lemma RoleLineAt(line: string, a: nat, b: nat, c: nat)
    requires 1 < a < b < c < |line| && RoleEmoji(line[0])
    requires forall k :: 1 <= k < a ==> ReSpace(line[k])
    requires forall k :: a <= k < b ==> WordChar(line[k])
    requires forall k :: b <= k < c ==> ReSpace(line[k])
    requires Mark(line[c])
    ensures MatchRole(line) == Some(RoleLine(line[0], line[a..b], line[c] == OnlineMark))
  {
    PiecesAt(line, 1, a, b, c);
  }

  /** Every line of the member shape is matched, with the word and the mark as its parts. */
  lemma MemberLineAt(line: string, a: nat, b: nat, c: nat)
    requires 0 < a < b < c < |line|
    requires forall k :: 0 <= k < a ==> ReSpace(line[k])
    requires forall k :: a <= k < b ==> WordChar(line[k])
    requires forall k :: b <= k < c ==> ReSpace(line[k])
    requires Mark(line[c])
    ensures MatchMember(line) == Some(MemberLine(line[a..b], line[c] == OnlineMark))
  {
    PiecesAt(line, 0, a, b, c);
  }

  /** Every rig heading is matched, with the word between the rules and the slash as the rig. */
  lemma RigLineAt(line: string, b: nat)
    requires HasPrefix(line, RigOpen) && |RigOpen| < b <= |line|
    requires forall k :: |RigOpen| <= k < b ==> WordChar(line[k])
    requires HasPrefix(line[b..], RigClose)
    ensures MatchRig(line) == Some(line[|RigOpen|..b])
  {
    assert line[b] == RigClose[0];
    SpanWordRun(line, |RigOpen|, b - |RigOpen|);
  }

  /** A line that matches the member pattern starts with white space, so it never matches the role pattern. */
  lemma MemberIsNotRole(line: string)
    requires MatchMember(line).Some?
    ensures MatchRole(line).None?
  {
    assert ReSpace(line[0]);
  }
}
