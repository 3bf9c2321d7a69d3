// The ralph handler of the AgentArena server: it starts the autonomous
// "ralph" loop in a tmux session, reports the loop's state from the files the
// loop writes into the project, and shows the latest log. The file system,
// tmux and the clock are parameters: a file is its content (None when it is
// missing or cannot be read), a directory is its listing, a tmux run is its
// output or error, and the clock is a reading in milliseconds.
module Ralph {
  import opened Strs
  import opened Wrappers
  import Radix
  import SessionCore
  import Response
  import PathUtil

  /**
   * A JSON value as the handler reads it: text, a boolean, null, or a number
   * (or anything else) carried as the text `fmt.Sprintf("%v", v)` prints for it.
   */
  datatype Value = Text(s: string) | Flag(b: bool) | Null | Number(shown: string)

  /** `fmt.Sprintf("%v", v)`. */
  function Show(v: Value): string
  {
    match v
    case Text(s) => s
    case Flag(b) => if b then "true" else "false"
    case Null => "<nil>"
    case Number(shown) => shown
  }

  /** A map lookup as Go does it on `map[string]interface{}`: a missing key reads as nil. */
  function Get(state: map<string, Value>, key: string): Value
  {
    if key in state then state[key] else Null
  }

  /** A handler's answer: the payload, or the status, code and message of `WriteError`. */
  datatype Reply<T> = Ok(data: T) | Refused(status: int, code: string, message: string)

  /** The answer to a failed `ValidateProjectPath`. */
  function PathRefusal<T>(v: PathUtil.Validation): (r: Reply<T>)
    requires v.code != ""
    ensures r.Refused? && r.code == v.code && r.message == v.message
    ensures r.status == Response.GetErrorStatusCode(v.code)
  {
    Refused(Response.GetErrorStatusCode(v.code), v.code, v.message)
  }

  // ---------------------------------------------------------------------
  // Session names

  /** What `TrimRight(p, "/")` would leave. */
  function DropTrailingSlashes(p: string): (r: string)
    ensures r == [] || r[|r| - 1] != '/'
    ensures HasPrefix(p, r)
    ensures forall i :: |r| <= i < |p| ==> p[i] == '/'
    decreases |p|
  {
    if p != [] && p[|p| - 1] == '/' then DropTrailingSlashes(p[..|p| - 1]) else p
  }

  /** The characters after the last slash. */
  function AfterLastSlash(p: string): (r: string)
    ensures '/' !in r
    ensures HasSuffix(p, r)
    ensures |r| < |p| ==> p[|p| - |r| - 1] == '/'
    decreases |p|
  {
    if p == [] || p[|p| - 1] == '/' then [] else AfterLastSlash(p[..|p| - 1]) + [p[|p| - 1]]
  }

  /**
   * `filepath.Base`: the last element of the path, trailing slashes ignored;
   * "." for the empty path and "/" for a path of slashes only.
   */
  function Base(p: string): (r: string)
    ensures r != ""
    ensures '/' in r ==> r == "/"
  {
    if p == "" then "."
    else
      var q := DropTrailingSlashes(p);
      if q == "" then "/" else AfterLastSlash(q)
  }

  /** The base of a directory joined with a plain name is that name. */
  lemma BaseOfJoin(dir: string, name: string)
    requires name != "" && '/' !in name
    ensures Base(dir + "/" + name) == name
  {
    var p := dir + "/" + name;
    assert DropTrailingSlashes(p) == p by {
      assert p[|p| - 1] == name[|name| - 1];
    }
    AfterSlash(dir, name);
  }

  /** What follows the last slash of a directory joined with a plain name is that name. */
  lemma {:induction false} AfterSlash(dir: string, name: string)
    requires '/' !in name
    ensures AfterLastSlash(dir + "/" + name) == name
    decreases |name|
  {
    var p := dir + "/" + name;
    if name == [] {
      assert p[|p| - 1] == '/';
    } else {
      var init := name[..|name| - 1];
      assert p[..|p| - 1] == dir + "/" + init;
      assert p[|p| - 1] == name[|name| - 1];
      AfterSlash(dir, init);
      assert name == init + [name[|name| - 1]];
    }
  }

  /** The characters `[a-z0-9-]` a session-name slug keeps. */
  predicate SlugChar(c: char)
  {
    IsLower(c) || IsDigit(c) || c == '-'
  }

  predicate AllSlug(s: string)
  {
    forall i :: 0 <= i < |s| ==> SlugChar(s[i])
  }

  /** No two dashes in a row. */
  predicate NoDoubleDash(s: string)
  {
    forall i :: 0 <= i < |s| - 1 ==> !(s[i] == '-' && s[i + 1] == '-')
  }

  /** `[^a-z0-9-]` replaced by "-". */
  function Dashed(s: string): string
  {
    seq(|s|, i requires 0 <= i < |s| => if SlugChar(s[i]) then s[i] else '-')
  }

  /** The characters of `s` other than dashes. */
  function Undashed(s: string): string
  {
    if s == [] then [] else (if s[0] == '-' then [] else [s[0]]) + Undashed(s[1..])
  }

  /** `-+` replaced by "-": every run of dashes becomes one dash. */
  function CollapseDashes(s: string): (r: string)
    ensures |r| <= |s|
    ensures NoDoubleDash(r)
    ensures s != [] ==> r != [] && r[0] == s[0]
    ensures forall i :: 0 <= i < |r| ==> r[i] in s
    ensures Undashed(r) == Undashed(s)
  {
    if |s| <= 1 then s
    else if s[0] == '-' && s[1] == '-' then CollapseDashes(s[1..])
    else
      var t := CollapseDashes(s[1..]);
      assert forall i :: 1 <= i < |t| + 1 ==> ([s[0]] + t)[i] == t[i - 1];
      [s[0]] + t
  }

  /** Collapsing changes nothing once there are no dash runs left. */
  lemma {:induction false} CollapseIdempotent(s: string)
    requires NoDoubleDash(s)
    ensures CollapseDashes(s) == s
    decreases |s|
  {
    if |s| > 1 {
      assert NoDoubleDash(s[1..]) by {
        forall i | 0 <= i < |s[1..]| - 1
          ensures !(s[1..][i] == '-' && s[1..][i + 1] == '-')
        {
          assert s[1..][i] == s[i + 1] && s[1..][i + 1] == s[i + 2];
        }
      }
      CollapseIdempotent(s[1..]);
      assert !(s[0] == '-' && s[1] == '-');
      assert s == [s[0]] + s[1..];
    }
  }

  /** The project part of a generated name: the slug of the directory's base name, cut to 20 characters. */
  function SessionSlug(projectPath: string): (r: string)
    ensures |r| <= 20
    ensures AllSlug(r)
    ensures NoDoubleDash(r)
  {
    var c := CollapseDashes(Dashed(ToLower(Base(projectPath))));
    if |c| > 20 then c[..20] else c
  }

  /** A base name that already is a short slug is kept as it is. */
  lemma SlugKeepsCleanName(dir: string, name: string)
    requires name != "" && |name| <= 20 && AllSlug(name) && NoDoubleDash(name)
    ensures SessionSlug(dir + "/" + name) == name
  {
    BaseOfJoin(dir, name);
    assert ToLower(name) == name;
    assert Dashed(name) == name;
    CollapseIdempotent(name);
  }

  /** The clock part of a generated name: the last six base-36 digits of the milliseconds. */
  function SessionStamp(millis: int): (r: string)
    ensures 1 <= |r| <= 6
    ensures HasSuffix(Radix.FormatInt(millis, 36), r)
    ensures |r| < 6 ==> r == Radix.FormatInt(millis, 36)
    ensures forall i :: 0 <= i < |r| ==> SessionCore.NameChar(r[i])
  {
    var t := Radix.FormatInt(millis, 36);
    assert forall i :: 0 <= i < |t| ==> SessionCore.NameChar(t[i]) by {
      var n := if millis < 0 then -millis else millis;
      var f := Radix.FormatNat(n, 36);
      assert forall i :: 0 <= i < |f| ==> Radix.DigitValue(f[i], 36).Some?;
      if millis < 0 {
        forall i | 0 <= i < |t|
          ensures SessionCore.NameChar(t[i])
        {
          if i > 0 {
            assert t[i] == f[i - 1];
          }
        }
      }
    }
    if |t| > 6 then t[|t| - 6..] else t
  }

  /** `generateSessionName`: "ralph-", the project slug, "-", the clock stamp. */
  function GenerateSessionName(projectPath: string, millis: int): (name: string)
    ensures HasPrefix(name, "ralph-")
    ensures name == "ralph-" + SessionSlug(projectPath) + "-" + SessionStamp(millis)
  {
    "ralph-" + SessionSlug(projectPath) + "-" + SessionStamp(millis)
  }

  /** A generated name is always one that the session-name validator accepts. */
  lemma GeneratedNameValid(projectPath: string, millis: int)
    ensures SessionCore.WellFormedName(GenerateSessionName(projectPath, millis))
    ensures |GenerateSessionName(projectPath, millis)| <= 33
  {
    var slug := SessionSlug(projectPath);
    var stamp := SessionStamp(millis);
    RalphPrefixNameChars();
    assert AllNameChars(slug);
    assert AllNameChars("-");
    NameCharsConcat("ralph-", slug);
    NameCharsConcat("ralph-" + slug, "-");
    NameCharsConcat("ralph-" + slug + "-", stamp);
  }

  lemma RalphPrefixNameChars()
    ensures AllNameChars("ralph-")
  {
    var s := "ralph-";
    assert s == ['r', 'a', 'l', 'p', 'h', '-'];
    forall i | 0 <= i < 6
      ensures SessionCore.NameChar(s[i])
    {
      if i == 0 { assert s[i] == 'r'; }
      else if i == 1 { assert s[i] == 'a'; }
      else if i == 2 { assert s[i] == 'l'; }
      else if i == 3 { assert s[i] == 'p'; }
      else if i == 4 { assert s[i] == 'h'; }
      else { assert s[i] == '-'; }
    }
  }

  predicate AllNameChars(s: string)
  {
    forall i :: 0 <= i < |s| ==> SessionCore.NameChar(s[i])
  }

  lemma NameCharsConcat(a: string, b: string)
    requires AllNameChars(a) && AllNameChars(b)
    ensures AllNameChars(a + b)
  {
    forall i | 0 <= i < |a + b|
      ensures SessionCore.NameChar((a + b)[i])
    {
      if i >= |a| {
        assert (a + b)[i] == b[i - |a|];
      }
    }
  }

  // ---------------------------------------------------------------------
  // The session state file

  /**
   * The lines `bufio.Scanner` yields: the pieces between newlines, without a
   * last empty piece after a final newline, each with one trailing carriage
   * return dropped.
   */
  function ScanLines(content: string): seq<string>
  {
    var parts := Split(content, '\n');
    var full := if parts[|parts| - 1] == "" then parts[..|parts| - 1] else parts;
    seq(|full|, i requires 0 <= i < |full| =>
      if full[i] != [] && full[i][|full[i]| - 1] == '\r' then full[i][..|full[i]| - 1] else full[i])
  }

  /** A line of the key=value form: one with an "=". */
  predicate IsPair(line: string)
  {
    '=' in line
  }

  /** The trimmed text before the first "=". */
  function KeyOf(line: string): string
  {
    Trim(line[..IndexOf(line, '=')])
  }

  /** The trimmed text after the first "=". */
  function ValueOf(line: string): string
  {
    var e := IndexOf(line, '=');
    if e < |line| then Trim(line[e + 1..]) else ""
  }

  /** The pairs of the lines read so far, a later line overwriting an earlier key. */
  function PairsOf(lines: seq<string>): map<string, Value>
    decreases |lines|
  {
    if lines == [] then map[]
    else
      var last := lines[|lines| - 1];
      var m := PairsOf(lines[..|lines| - 1]);
      if IsPair(last) then m[KeyOf(last) := Text(ValueOf(last))] else m
  }

  /** The key=value reading of a state file: its pairs, or nothing when there are none. */
  function KeyValueState(content: string): (state: Option<map<string, Value>>)
    ensures state.Some? ==> |state.value| > 0
  {
    var m := PairsOf(ScanLines(content));
    if |m| > 0 then Some(m) else None
  }

  /** The key=value loop of `getRalphSessionState`. */
  method ParseKeyValueState(content: string) returns (state: Option<map<string, Value>>)
    ensures state == KeyValueState(content)
  {
    var lines := ScanLines(content);
    var m: map<string, Value> := map[];
    var i := 0;
    while i < |lines|
      invariant 0 <= i <= |lines|
      invariant m == PairsOf(lines[..i])
    {
      var line := lines[i];
      ghost var before := lines[..i + 1];
      assert before[..i] == lines[..i] && before[|before| - 1] == line;
      PairsOfStep(before);
      var e := IndexOf(line, '=');
      if e < |line| {
        assert IsPair(line) && KeyOf(line) == Trim(line[..e]) && ValueOf(line) == Trim(line[e + 1..]);
        m := m[Trim(line[..e]) := Text(Trim(line[e + 1..]))];
      } else {
        assert !IsPair(line);
      }
      assert m == PairsOf(before);
      i := i + 1;
    }
    assert lines[..|lines|] == lines;
    assert m == PairsOf(ScanLines(content));
    if |m| > 0 {
      return Some(m);
    }
    return None;
  }

  /** A key is read iff some line with an "=" carries it. */
  lemma {:induction false} PairsOfKeys(lines: seq<string>, k: string)
    ensures k in PairsOf(lines) <==> exists i :: 0 <= i < |lines| && IsPair(lines[i]) && KeyOf(lines[i]) == k
    decreases |lines|
  {
    if lines != [] {
      var init := lines[..|lines| - 1];
      var last := lines[|lines| - 1];
      PairsOfStep(lines);
      PairsOfKeys(init, k);
      if k in PairsOf(lines) {
        if IsPair(last) && KeyOf(last) == k {
          assert IsPair(lines[|lines| - 1]) && KeyOf(lines[|lines| - 1]) == k;
        } else {
          var i :| 0 <= i < |init| && IsPair(init[i]) && KeyOf(init[i]) == k;
          assert lines[i] == init[i];
        }
      } else {
        forall i | 0 <= i < |lines| && IsPair(lines[i])
          ensures KeyOf(lines[i]) != k
        {
          if i < |init| {
            assert init[i] == lines[i];
          }
        }
      }
    }
  }

  /** Reading one more line adds its pair, if it has one. */
  lemma PairsOfStep(lines: seq<string>)
    requires lines != []
    ensures var last := lines[|lines| - 1];
            PairsOf(lines) == if IsPair(last) then PairsOf(lines[..|lines| - 1])[KeyOf(last) := Text(ValueOf(last))]
                              else PairsOf(lines[..|lines| - 1])
  {
  }

  /** The value of a key is that of the last line carrying it. */
  lemma {:induction false} LastPairWins(lines: seq<string>, j: int)
    requires 0 <= j < |lines| && IsPair(lines[j])
    requires forall i :: j < i < |lines| && IsPair(lines[i]) ==> KeyOf(lines[i]) != KeyOf(lines[j])
    ensures KeyOf(lines[j]) in PairsOf(lines)
    ensures PairsOf(lines)[KeyOf(lines[j])] == Text(ValueOf(lines[j]))
    decreases |lines|
  {
    if j < |lines| - 1 {
      var init := lines[..|lines| - 1];
      assert init[j] == lines[j];
      forall i | j < i < |init| && IsPair(init[i])
        ensures KeyOf(init[i]) != KeyOf(init[j])
      {
        assert init[i] == lines[i];
      }
      LastPairWins(init, j);
    }
  }

  /** A state file with no "=" on any line gives no key=value state, and one with an "=" gives one. */
  lemma NoPairsNoState(content: string)
    ensures KeyValueState(content).None? <==>
              forall i :: 0 <= i < |ScanLines(content)| ==> !IsPair(ScanLines(content)[i])
  {
    var lines := ScanLines(content);
    if exists i :: 0 <= i < |lines| && IsPair(lines[i]) {
      var i :| 0 <= i < |lines| && IsPair(lines[i]);
      PairsOfKeys(lines, KeyOf(lines[i]));
      assert KeyOf(lines[i]) in PairsOf(lines);
    } else {
      if |PairsOf(lines)| > 0 {
        var k :| k in PairsOf(lines);
        PairsOfKeys(lines, k);
      }
    }
  }

  /** What `json.Unmarshal` made of the state file: not JSON, the literal null, or an object. */
  datatype Decoded = NotJson | JsonNull | JsonObject(fields: map<string, Value>)

  /**
   * `getRalphSessionState`: no state without a readable file; JSON is taken
   * first (null giving no state), the key=value form otherwise.
   */
  function SessionState(content: Option<string>, decoded: Decoded): (state: Option<map<string, Value>>)
    ensures content.None? || decoded.JsonNull? ==> state.None?
    ensures content.Some? && decoded.JsonObject? ==> state == Some(decoded.fields)
    ensures content.Some? && decoded.NotJson? ==> state == KeyValueState(content.value)
  {
    if content.None? then None
    else
      match decoded
      case JsonObject(fields) => Some(fields)
      case JsonNull => None
      case NotJson => KeyValueState(content.value)
  }

  // ---------------------------------------------------------------------
  // History and logs

  /** The last `limit` entries, or all of them when there are fewer. */
  function Tail<T>(s: seq<T>, limit: nat): (r: seq<T>)
    ensures |r| == if |s| < limit then |s| else limit
    ensures r == s[|s| - |r|..]
  {
    if |s| > limit then s[|s| - limit..] else s
  }

  /**
   * `items[len(items)-limit:]` when `len(items) > limit`, as written: a
   * negative limit asks for a slice that starts past the end, which panics.
   */
  function TailAsWritten<T>(s: seq<T>, limit: int): (r: Result<seq<T>, string>)
    ensures limit >= 0 ==> r == Success(Tail(s, limit))
    ensures limit < 0 ==> r.Failure?
  {
    if |s| > limit then
      if |s| - limit > |s| then Failure("slice bounds out of range") else Success(s[|s| - limit..])
    else Success(s)
  }

  /** The decoded entries of the non-blank history lines, in file order. */
  function HistoryEntries<E>(lines: seq<string>, decode: string -> Option<E>): (r: seq<E>)
    ensures |r| <= |lines|
    decreases |lines|
  {
    if lines == [] then []
    else
      var line := Trim(lines[|lines| - 1]);
      var init := HistoryEntries(lines[..|lines| - 1], decode);
      if line != "" && decode(line).Some? then init + [decode(line).value] else init
  }

  /** `getRalphSessionHistory`'s result, with `decode` standing for `json.Unmarshal` of one line. */
  function HistoryOf<E>(content: Option<string>, decode: string -> Option<E>, limit: nat): (r: seq<E>)
    ensures |r| <= limit
    ensures content.None? ==> r == []
    ensures content.Some? ==> var all := HistoryEntries(ScanLines(content.value), decode);
                              |r| <= |all| && r == all[|all| - |r|..] && (|all| <= limit ==> r == all)
  {
    if content.None? then [] else Tail(HistoryEntries(ScanLines(content.value), decode), limit)
  }

  /** `getRalphSessionHistory`: the scan loop that skips blank and undecodable lines, then the cut. */
  method GetRalphSessionHistory<E>(content: Option<string>, decode: string -> Option<E>, limit: nat)
    returns (items: seq<E>)
    ensures items == HistoryOf(content, decode, limit)
  {
    if content.None? {
      return [];
    }
    var lines := ScanLines(content.value);
    items := [];
    var i := 0;
    while i < |lines|
      invariant 0 <= i <= |lines|
      invariant items == HistoryEntries(lines[..i], decode)
    {
      assert lines[..i + 1][..i] == lines[..i];
      var line := Trim(lines[i]);
      i := i + 1;
      if line == "" {
        continue;
      }
      var item := decode(line);
      if item.Some? {
        items := items + [item.value];
      }
    }
    assert lines[..|lines|] == lines;
    if |items| > limit {
      items := items[|items| - limit..];
    }
  }

  /** One entry of a directory listing. */
  datatype DirEntry = DirEntry(name: string, isDir: bool)

  /** A ralph log: a regular file named "ralph-*.log". */
  predicate IsLogFile(e: DirEntry)
  {
    !e.isDir && HasPrefix(e.name, "ralph-") && HasSuffix(e.name, ".log")
  }

  /** The names of the log files, in listing order. */
  function LogFiles(entries: seq<DirEntry>): (files: seq<string>)
    ensures |files| <= |entries|
    ensures forall i :: 0 <= i < |files| ==> HasPrefix(files[i], "ralph-") && HasSuffix(files[i], ".log")
    ensures files == [] <==> forall i :: 0 <= i < |entries| ==> !IsLogFile(entries[i])
    decreases |entries|
  {
    if entries == [] then []
    else
      var e := entries[|entries| - 1];
      var init := LogFiles(entries[..|entries| - 1]);
      assert forall i :: 0 <= i < |entries| - 1 ==> entries[..|entries| - 1][i] == entries[i];
      if IsLogFile(e) then init + [e.name] else init
  }

  /** What the logs endpoint shows: the latest log's name, its last lines, and how many logs there are. */
  datatype Logs = Logs(file: string, lines: seq<string>, totalFiles: nat)

  /**
   * `getRalphLogs` as written: no logs without a listing, a log file or a
   * readable latest log (the last in the listing, which is sorted by name);
   * otherwise the trimmed log's last `limit` lines, the cut failing for a
   * negative limit.
   */
  function LogsOf(entries: Option<seq<DirEntry>>, latest: Option<string>, limit: int): (r: Result<Option<Logs>, string>)
    ensures r.Success? && r.value.Some? ==>
              entries.Some? && latest.Some? && LogFiles(entries.value) != [] &&
              r.value.value.file == LogFiles(entries.value)[|LogFiles(entries.value)| - 1] &&
              r.value.value.totalFiles == |LogFiles(entries.value)| &&
              limit >= 0 && r.value.value.lines == Tail(Split(Trim(latest.value), '\n'), limit)
    ensures entries.None? || LogFiles(entries.value) == [] || latest.None? ==> r == Success(None)
    ensures entries.Some? && LogFiles(entries.value) != [] && latest.Some? ==>
              (r.Success? <==> limit >= 0) && (r.Success? ==> r.value.Some?)
    ensures r.Failure? ==> limit < 0
  {
    if entries.None? then Success(None)
    else
      var files := LogFiles(entries.value);
      if files == [] || latest.None? then Success(None)
      else
        match TailAsWritten(Split(Trim(latest.value), '\n'), limit)
        case Failure(e) => Failure(e)
        case Success(lines) => Success(Some(Logs(files[|files| - 1], lines, |files|)))
  }

  /** `getRalphLogs`: the listing loop, then the cut. */
  method GetRalphLogs(entries: Option<seq<DirEntry>>, latest: Option<string>, limit: int)
    returns (r: Result<Option<Logs>, string>)
    ensures r == LogsOf(entries, latest, limit)
  {
    if entries.None? {
      return Success(None);
    }
    var files: seq<string> := [];
    var i := 0;
    while i < |entries.value|
      invariant 0 <= i <= |entries.value|
      invariant files == LogFiles(entries.value[..i])
    {
      var e := entries.value[i];
      if !e.isDir && HasPrefix(e.name, "ralph-") && HasSuffix(e.name, ".log") {
        files := files + [e.name];
      }
      assert entries.value[..i + 1][..i] == entries.value[..i];
      i := i + 1;
    }
    assert entries.value[..|entries.value|] == entries.value;
    if |files| == 0 || latest.None? {
      return Success(None);
    }
    var lines := Split(Trim(latest.value), '\n');
    if |lines| > limit {
      if |lines| - limit > |lines| {
        return Failure("slice bounds out of range");
      }
      lines := lines[|lines| - limit..];
    }
    return Success(Some(Logs(files[|files| - 1], lines, |files|)));
  }

  /** The `limit` query parameter of the logs endpoint as written: 50 unless it parses as an integer. */
  function LogLimitAsWritten(query: string): (limit: int)
    ensures query == "" || !Radix.Atoi(query).1 ==> limit == 50
    ensures query != "" && Radix.Atoi(query).1 ==> limit == Radix.Atoi(query).0
  {
    if query == "" then 50
    else
      var (v, ok) := Radix.Atoi(query);
      if ok then v else 50
  }

  /** A negative `limit` reaches the cut, which panics as soon as there is a log to show. */
  lemma NegativeLimitPanics(entries: seq<DirEntry>, latest: string)
    requires LogFiles(entries) != []
    ensures LogLimitAsWritten("-1") == -1
    ensures LogsOf(Some(entries), Some(latest), LogLimitAsWritten("-1")).Failure?
  {
    assert Radix.Atoi("-1") == (-1, true) by {
      assert "-1"[1..] == "1";
      assert Radix.AllDecimal("1");
      assert Radix.ParseNat("1", 10) == 1;
    }
  }

  /** The `limit` query parameter read as a limit: 50 unless it parses as an integer that is not negative. */
  function LogLimit(query: string): (limit: nat)
    ensures LogLimitAsWritten(query) >= 0 ==> limit == LogLimitAsWritten(query)
    ensures LogLimitAsWritten(query) < 0 ==> limit == 50
  {
    var v := LogLimitAsWritten(query);
    if v < 0 then 50 else v
  }

  /** What the logs endpoint shows for a valid path. */
  datatype LogsInfo = LogsInfo(projectPath: string, logs: Option<Logs>)

  /** `Logs`, with the limit read by `LogLimit`: it never reaches the failing cut. */
  function LogsEndpoint(v: PathUtil.Validation, query: string, entries: Option<seq<DirEntry>>, latest: Option<string>)
    : (r: Reply<LogsInfo>)
    ensures v.code != "" ==> r == PathRefusal(v)
    ensures v.code == "" ==> r.Ok? && r.data.projectPath == v.path
    ensures r.Ok? && r.data.logs.Some? ==> |r.data.logs.value.lines| <= LogLimit(query)
  {
    if v.code != "" then PathRefusal(v)
    else
      var logs := LogsOf(entries, latest, LogLimit(query));
      assert logs.Success?;
      Ok(LogsInfo(v.path, logs.value))
  }

  // ---------------------------------------------------------------------
  // Finding the running session

  /** The tmux session names of a `list-sessions` output, one per line. */
  function ListedNames(output: string): seq<string>
  {
    Split(Trim(output), '\n')
  }

  /** The session name the state file records, if it is text. */
  function RecordedName(state: map<string, Value>): string
  {
    match Get(state, "session_name")
    case Text(s) => s
    case _ => ""
  }

  /**
   * The active ralph session: the recorded session name, when it starts with
   * "ralph-" and tmux lists it; "" when tmux fails or there is no state.
   */
  function RalphSessionOf(output: Result<string, string>, state: Option<map<string, Value>>): (name: string)
    ensures name != "" ==> state.Some? && name == RecordedName(state.value) && HasPrefix(name, "ralph-")
  {
    if output.Failure? || state.None? then ""
    else
      var n := RecordedName(state.value);
      var lines := ListedNames(output.value);
      if n != "" && HasPrefix(n, "ralph-") && exists i :: 0 <= i < |lines| && Trim(lines[i]) == n then n else ""
  }

  /** `findRalphSession`: the search through the listed names. */
  method FindRalphSession(output: Result<string, string>, state: Option<map<string, Value>>) returns (name: string)
    ensures name == RalphSessionOf(output, state)
  {
    if output.Failure? || state.None? {
      return "";
    }
    var lines := ListedNames(output.value);
    var sessionName := RecordedName(state.value);
    var i := 0;
    while i < |lines|
      invariant 0 <= i <= |lines|
      invariant sessionName != "" && HasPrefix(sessionName, "ralph-") ==>
                  forall j :: 0 <= j < i ==> Trim(lines[j]) != sessionName
    {
      var n := Trim(lines[i]);
      if n != "" && HasPrefix(n, "ralph-") {
        if n == sessionName {
          return n;
        }
      }
      i := i + 1;
    }
    return "";
  }

  /** A session started under a generated name is found again once tmux lists it and the state records it. */
  lemma GeneratedSessionFound(output: string, state: map<string, Value>, projectPath: string, millis: int)
    requires Get(state, "session_name") == Text(GenerateSessionName(projectPath, millis))
    requires GenerateSessionName(projectPath, millis) in ListedNames(output)
    ensures RalphSessionOf(Success(output), Some(state)) == GenerateSessionName(projectPath, millis)
  {
    var n := GenerateSessionName(projectPath, millis);
    var lines := ListedNames(output);
    GeneratedNameTrimmed(projectPath, millis);
    var i :| 0 <= i < |lines| && lines[i] == n;
    assert Trim(lines[i]) == n;
  }

  /** A generated name has no white space at either end. */
  lemma GeneratedNameTrimmed(projectPath: string, millis: int)
    ensures Trim(GenerateSessionName(projectPath, millis)) == GenerateSessionName(projectPath, millis)
  {
    var stamp := SessionStamp(millis);
    var front := "ralph-" + SessionSlug(projectPath) + "-";
    FrontStart(SessionSlug(projectPath));
    StampEnd(millis);
    TrimmedJoin(front, stamp);
  }

  lemma FrontStart(slug: string)
    ensures ("ralph-" + slug + "-")[0] == 'r'
  {
    var front := "ralph-" + slug + "-";
    assert front[..6] == "ralph-";
  }

  lemma StampEnd(millis: int)
    ensures !IsSpace(SessionStamp(millis)[|SessionStamp(millis)| - 1])
  {
    var stamp := SessionStamp(millis);
    assert SessionCore.NameChar(stamp[|stamp| - 1]);
  }

  lemma TrimmedJoin(front: string, back: string)
    requires front != [] && back != [] && !IsSpace(front[0]) && !IsSpace(back[|back| - 1])
    ensures Trim(front + back) == front + back
  {
    var n := front + back;
    assert n[0] == front[0] && n[|n| - 1] == back[|back| - 1];
    TrimNoSpace(n);
  }

  // ---------------------------------------------------------------------
  // Status

  /** The rate-limit block of the status. */
  datatype RateLimit = RateLimit(callsUsed: int, maxCalls: int, callsRemaining: int, resetTime: string)

  /** The fields the status endpoint derives from the state file. */
  datatype LoopState = LoopState(
    loopCount: int, currentPhase: string, completionIndicators: int,
    exitSignalReceived: bool, rateLimit: Option<RateLimit>)

  /** `strconv.Atoi(fmt.Sprintf("%v", v))`, its error ignored. */
  function NumberOf(v: Value): int
  {
    Radix.Atoi(Show(v)).0
  }

  /** The first of two spellings of a key that is present. */
  function Either(state: map<string, Value>, snake: string, camel: string): Option<Value>
  {
    if snake in state then Some(state[snake]) else if camel in state then Some(state[camel]) else None
  }

  /** A text value, or "" for anything else. */
  function TextOf(v: Value): string
  {
    if v.Text? then v.s else ""
  }

  /** The loop counter: "loop_count" before "loopCount", 0 without either. */
  function LoopCountOf(s: map<string, Value>): (n: int)
    ensures "loop_count" in s ==> n == NumberOf(s["loop_count"])
    ensures "loop_count" !in s && "loopCount" in s ==> n == NumberOf(s["loopCount"])
    ensures "loop_count" !in s && "loopCount" !in s ==> n == 0
  {
    match Either(s, "loop_count", "loopCount")
    case Some(v) => NumberOf(v)
    case None => 0
  }

  /** The phase: "phase" before "status", then "running" while a session is active, else "idle". */
  function PhaseOf(s: map<string, Value>, activeSession: string): (phase: string)
    ensures "phase" in s ==> phase == Show(s["phase"])
    ensures "phase" !in s && "status" in s ==> phase == Show(s["status"])
    ensures "phase" !in s && "status" !in s ==> (phase == "running" <==> activeSession != "")
    ensures "phase" !in s && "status" !in s && activeSession == "" ==> phase == "idle"
  {
    if "phase" in s then Show(s["phase"])
    else if "status" in s then Show(s["status"])
    else if activeSession != "" then "running"
    else "idle"
  }

  /** The exit signal: "exit_signal" printing as "true", else a boolean "exitSignal". */
  function ExitSignalOf(s: map<string, Value>): (received: bool)
    ensures received <==> Show(Get(s, "exit_signal")) == "true" || Get(s, "exitSignal") == Flag(true)
    ensures Get(s, "exit_signal") == Flag(true) || Get(s, "exit_signal") == Text("true") ==> received
    ensures Get(s, "exit_signal") == Null && Get(s, "exitSignal") != Flag(true) ==> !received
  {
    var printed := Show(Get(s, "exit_signal")) == "true";
    if printed then true
    else match Get(s, "exitSignal") case Flag(b) => b case _ => false
  }

  /**
   * The rate limit, present when either spelling of the calls used is set to
   * something other than null; the maximum defaults to 100 and the remaining
   * calls are the maximum less the calls used.
   */
  function RateLimitOf(s: map<string, Value>): (r: Option<RateLimit>)
    ensures r.Some? <==> Get(s, "calls_used") != Null || Get(s, "callsUsed") != Null
    ensures r.Some? ==> r.value.callsRemaining == r.value.maxCalls - r.value.callsUsed
    ensures r.Some? && "calls_used" in s ==> r.value.callsUsed == NumberOf(s["calls_used"])
    ensures r.Some? && "calls_used" !in s ==> r.value.callsUsed == NumberOf(s["callsUsed"])
    ensures r.Some? && "max_calls" in s ==> r.value.maxCalls == NumberOf(s["max_calls"])
    ensures r.Some? && "max_calls" !in s && "maxCalls" in s ==> r.value.maxCalls == NumberOf(s["maxCalls"])
    ensures r.Some? && "max_calls" !in s && "maxCalls" !in s ==> r.value.maxCalls == 100
  {
    if Get(s, "calls_used") == Null && Get(s, "callsUsed") == Null then None
    else
      var used := match Either(s, "calls_used", "callsUsed") case Some(v) => NumberOf(v) case None => 0;
      var maxCalls := match Either(s, "max_calls", "maxCalls") case Some(v) => NumberOf(v) case None => 100;
      var reset := if TextOf(Get(s, "reset_time")) != "" then TextOf(Get(s, "reset_time"))
                   else TextOf(Get(s, "resetTime"));
      Some(RateLimit(used, maxCalls, maxCalls - used, reset))
  }

  /** The fields `Status` derives: defaults without a state file, the resolutions above with one. */
  function LoopStateOf(state: Option<map<string, Value>>, activeSession: string): (r: LoopState)
    ensures state.None? ==> r == LoopState(0, "idle", 0, false, None)
    ensures state.Some? ==> r.loopCount == LoopCountOf(state.value) && r.currentPhase == PhaseOf(state.value, activeSession)
    ensures state.Some? ==> r.exitSignalReceived == ExitSignalOf(state.value) && r.rateLimit == RateLimitOf(state.value)
  {
    if state.None? then LoopState(0, "idle", 0, false, None)
    else
      var s := state.value;
      var completion := if "completion_indicators" in s then NumberOf(s["completion_indicators"]) else 0;
      LoopState(LoopCountOf(s), PhaseOf(s, activeSession), completion, ExitSignalOf(s), RateLimitOf(s))
  }

  /** A key=value state file reads its counters back from their decimal text. */
  lemma KeyValueCounters(state: map<string, Value>, n: int, used: int)
    requires Radix.MinInt64 <= n <= Radix.MaxInt64 && Radix.MinInt64 <= used <= Radix.MaxInt64
    requires Get(state, "loop_count") == Text(Radix.FormatInt(n, 10))
    requires Get(state, "calls_used") == Text(Radix.FormatInt(used, 10))
    requires "max_calls" !in state && "maxCalls" !in state
    ensures LoopStateOf(Some(state), "").loopCount == n
    ensures LoopStateOf(Some(state), "").rateLimit.Some?
    ensures LoopStateOf(Some(state), "").rateLimit.value.callsRemaining == 100 - used
  {
    Radix.AtoiFormat(n);
    Radix.AtoiFormat(used);
  }

  /** What the status endpoint shows. */
  datatype StatusInfo = StatusInfo(
    projectPath: string, sessionActive: bool, sessionName: string, loop: LoopState,
    hasPrompt: bool, hasFixPlan: bool)

  /** `Status`: the path check, then the installation check, then the state. */
  function StatusEndpoint(v: PathUtil.Validation, installed: bool, state: Option<map<string, Value>>,
                          activeSession: string, hasPrompt: bool, hasFixPlan: bool): (r: Reply<StatusInfo>)
    ensures v.code != "" ==> r == PathRefusal(v)
    ensures v.code == "" && !installed ==> r == Refused(503, "RALPH_NOT_INSTALLED", "Ralph not found.")
    ensures r.Ok? <==> v.code == "" && installed
    ensures r.Ok? ==> (r.data.sessionActive <==> activeSession != "")
    ensures r.Ok? ==> r.data.loop == LoopStateOf(state, activeSession) && r.data.projectPath == v.path
  {
    if v.code != "" then PathRefusal(v)
    else if !installed then Refused(503, "RALPH_NOT_INSTALLED", "Ralph not found.")
    else Ok(StatusInfo(v.path, activeSession != "", activeSession, LoopStateOf(state, activeSession),
                       hasPrompt, hasFixPlan))
  }

  /** What the session endpoint shows. */
  datatype SessionInfo<E> = SessionInfo(
    projectPath: string, state: Option<map<string, Value>>, history: seq<E>, activeSession: string)

  /** `Session`: the state, the last ten history entries and the active session. */
  function SessionEndpoint<E>(v: PathUtil.Validation, state: Option<map<string, Value>>,
                              history: Option<string>, decode: string -> Option<E>, activeSession: string)
    : (r: Reply<SessionInfo<E>>)
    ensures v.code != "" ==> r == PathRefusal(v)
    ensures v.code == "" ==> r.Ok? && |r.data.history| <= 10 && r.data.history == HistoryOf(history, decode, 10)
  {
    if v.code != "" then PathRefusal(v)
    else Ok(SessionInfo(v.path, state, HistoryOf(history, decode, 10), activeSession))
  }

  // ---------------------------------------------------------------------
  // Start and stop

  /** The ralph flag for a boolean option that is true. */
  function Switch(flags: map<string, Value>, key: string, flag: string): seq<string>
  {
    if Get(flags, key) == Flag(true) then [flag] else []
  }

  /** The ralph flag and value for an option that is present, whatever its value. */
  function Valued(flags: map<string, Value>, key: string, flag: string): seq<string>
  {
    if key in flags then [flag, Show(flags[key])] else []
  }

  /** The prompt flag, for a non-empty text prompt. */
  function PromptArgs(flags: map<string, Value>): seq<string>
  {
    match Get(flags, "prompt")
    case Text(p) => if p != "" then ["--prompt", p] else []
    case _ => []
  }

  /** "--no-continue", for an explicit `continue: false`. */
  function ContinueArgs(flags: map<string, Value>): seq<string>
  {
    if Get(flags, "continue") == Flag(false) then ["--no-continue"] else []
  }

  /** The ralph arguments, in their fixed order. */
  function RalphArgs(flags: Option<map<string, Value>>): (args: seq<string>)
    ensures flags.None? ==> args == []
  {
    if flags.None? then []
    else
      var f := flags.value;
      Switch(f, "monitor", "--monitor") + Switch(f, "verbose", "--verbose")
      + Valued(f, "timeout", "--timeout") + Valued(f, "calls", "--calls")
      + PromptArgs(f) + ContinueArgs(f)
  }

  /** The flag-building appends of `Start`. */
  method BuildRalphArgs(flags: Option<map<string, Value>>) returns (args: seq<string>)
    ensures args == RalphArgs(flags)
  {
    args := [];
    if flags.None? {
      return;
    }
    var f := flags.value;
    if Get(f, "monitor") == Flag(true) {
      args := args + ["--monitor"];
    }
    assert args == Switch(f, "monitor", "--monitor");
    if Get(f, "verbose") == Flag(true) {
      args := args + ["--verbose"];
    }
    assert args == Switch(f, "monitor", "--monitor") + Switch(f, "verbose", "--verbose");
    if "timeout" in f {
      args := args + ["--timeout", Show(f["timeout"])];
    }
    if "calls" in f {
      args := args + ["--calls", Show(f["calls"])];
    }
    assert args == Switch(f, "monitor", "--monitor") + Switch(f, "verbose", "--verbose")
                   + Valued(f, "timeout", "--timeout") + Valued(f, "calls", "--calls");
    var prompt := Get(f, "prompt");
    if prompt.Text? && prompt.s != "" {
      args := args + ["--prompt", prompt.s];
    }
    if Get(f, "continue") == Flag(false) {
      args := args + ["--no-continue"];
    }
  }

  /** "--no-continue" is added last, and only for an explicit `continue: false`. */
  lemma NoContinueLast(f: map<string, Value>)
    ensures RalphArgs(Some(f)) ==
              RalphArgs(Some(f - {"continue"})) + (if Get(f, "continue") == Flag(false) then ["--no-continue"] else [])
  {
    var g := f - {"continue"};
    assert Get(g, "monitor") == Get(f, "monitor") && Get(g, "verbose") == Get(f, "verbose");
    assert Get(g, "prompt") == Get(f, "prompt") && Get(g, "continue") == Null;
    assert Valued(g, "timeout", "--timeout") == Valued(f, "timeout", "--timeout");
    assert Valued(g, "calls", "--calls") == Valued(f, "calls", "--calls");
  }

  /** "--monitor" comes first, and the first argument is "--monitor" only when monitoring was asked for. */
  lemma MonitorFirst(f: map<string, Value>)
    requires RalphArgs(Some(f)) != []
    ensures RalphArgs(Some(f))[0] == "--monitor" <==> Get(f, "monitor") == Flag(true)
  {
  }

  /** The shell command tmux runs: "ralph", followed by the arguments if there are any. */
  function RalphCommand(args: seq<string>): (cmd: string)
    ensures args == [] <==> cmd == "ralph"
    ensures args != [] ==> cmd == "ralph " + Join(args, " ")
  {
    if |args| > 0 then
      assert |"ralph " + Join(args, " ")| > |"ralph"|;
      "ralph " + Join(args, " ")
    else "ralph"
  }

  /** The body of a start request. */
  datatype StartRequest = StartRequest(path: string, sessionName: string, flags: Option<map<string, Value>>)

  /** A started session: its name, the project, and the tmux arguments that started it. */
  datatype Started = Started(sessionName: string, projectPath: string, tmuxArgs: seq<string>)

  /**
   * `Start`: `v` is what `ValidateProjectPath` gave for the request's path,
   * `existing` the active session of that project, `millis` the clock and
   * `tmuxError` the failure of `new-session`, if it failed.
   */
  function StartEndpoint(req: Option<StartRequest>, v: PathUtil.Validation, existing: string, millis: int,
                         tmuxError: Option<string>): (r: Reply<Started>)
    ensures req.None? ==> r == Refused(400, "BAD_REQUEST", "Invalid JSON body")
    ensures req.Some? && v.code != "" ==> r == PathRefusal(v)
    ensures req.Some? && v.code == "" && existing != "" ==>
              r == Refused(409, "ALREADY_RUNNING", "Ralph is already running for this project in session: " + existing)
    ensures req.Some? && v.code == "" && existing == "" && req.value.sessionName != "" &&
            !SessionCore.WellFormedName(req.value.sessionName) ==>
              r == Refused(400, "BAD_REQUEST", SessionCore.ValidateSessionName(req.value.sessionName, "session name").1)
    ensures req.Some? && v.code == "" && existing == "" && tmuxError.Some? &&
            (req.value.sessionName == "" || SessionCore.WellFormedName(req.value.sessionName)) ==>
              r == Refused(500, "TMUX_ERROR", tmuxError.value)
    ensures r.Ok? <==> req.Some? && v.code == "" && existing == "" && tmuxError.None? &&
                       (req.value.sessionName == "" || SessionCore.WellFormedName(req.value.sessionName))
    ensures r.Ok? ==> SessionCore.WellFormedName(r.data.sessionName) && r.data.projectPath == v.path
    ensures r.Ok? && req.value.sessionName != "" ==> r.data.sessionName == req.value.sessionName
    ensures r.Ok? && req.value.sessionName == "" ==> r.data.sessionName == GenerateSessionName(v.path, millis)
    ensures r.Ok? ==>
              r.data.tmuxArgs == ["new-session", "-d", "-s", r.data.sessionName, "-c", v.path, RalphCommand(RalphArgs(req.value.flags))]
  {
    if req.None? then Refused(400, "BAD_REQUEST", "Invalid JSON body")
    else if v.code != "" then PathRefusal(v)
    else if existing != "" then
      Refused(409, "ALREADY_RUNNING", "Ralph is already running for this project in session: " + existing)
    else
      var given := req.value.sessionName;
      var check := SessionCore.ValidateSessionName(given, "session name");
      if given != "" && !check.0 then Refused(400, "BAD_REQUEST", check.1)
      else
        var name := if given == "" then GenerateSessionName(v.path, millis) else given;
        GeneratedNameValid(v.path, millis);
        if tmuxError.Some? then Refused(500, "TMUX_ERROR", tmuxError.value)
        else Ok(Started(name, v.path, ["new-session", "-d", "-s", name, "-c", v.path, RalphCommand(RalphArgs(req.value.flags))]))
  }

  /** A stop in progress: the session, and the two tmux calls that stop it. */
  datatype Stopping = Stopping(sessionName: string, interrupt: seq<string>, kill: seq<string>)

  /** `Stop`: a valid session name is sent Ctrl-C, then killed. */
  function StopEndpoint(req: Option<string>): (r: Reply<Stopping>)
    ensures req.None? ==> r == Refused(400, "BAD_REQUEST", "Invalid JSON body")
    ensures r.Ok? <==> req.Some? && SessionCore.WellFormedName(req.value)
    ensures r.Refused? ==> r.status == 400 && r.code == "BAD_REQUEST"
    ensures r.Ok? ==> r.data == Stopping(req.value, ["send-keys", "-t", req.value, "C-c"], ["kill-session", "-t", req.value])
  {
    if req.None? then Refused(400, "BAD_REQUEST", "Invalid JSON body")
    else
      var check := SessionCore.ValidateSessionName(req.value, "session name");
      if !check.0 then Refused(400, "BAD_REQUEST", check.1)
      else Ok(Stopping(req.value, ["send-keys", "-t", req.value, "C-c"], ["kill-session", "-t", req.value]))
  }
}
