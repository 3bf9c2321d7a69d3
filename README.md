# CHROTE dashboard core, modelled in Dafny

CHROTE is a browser dashboard for a machine that runs AI agents in tmux. It
has a Go server and an older Node server. Both list, create, rename and
kill tmux sessions, supervise `ttyd` terminals, browse the mounted
`/code` and `/vault` trees, and relay the `gt` mail and chat commands and
the `bv` issue viewer of the "beads" tracker. A React client arranges the
sessions in terminal windows and shows files, issues and notifications.

This project models the deterministic core of that system and proves what
each part promises:

- **Session directory.** The three copies of the grouping and priority rules (Go `core`, Go `tmux`, JavaScript `utils`) and their sorts. Also the session-name validator, the parsing of `tmux list-sessions` output, the one-second sessions cache, and the create, rename, delete, nuke and appearance handlers of both servers (`session_core`, `session_tmux`, `session_js`, `tmux_api`, `server_js`, `orders`, `radix`).
- **Terminal supervisors.** The running state and project path of the two `ttyd` proxies, and the prefix stripping of their handlers (`terminal`).
- **Path security.** The file APIs of both servers, the project-path validators, lexical path cleaning, the display/container path mapping and the client's file-name sanitiser (`files_go`, `files_js`, `pathclean`, `pathutil`, `beads_routes`, `path_map`, `file_service`).
- **Text parsers and tables.**
  - the `gt status`, inbox and town parsers;
  - the chat conversation list and message mapping;
  - the ralph session names, state files and logs;
  - the beads fallback triage and health score;
  - the error-code to HTTP-status tables.

  (`status_lines`, `mail`, `chat`, `ralph`, `beads_fallback`, `beads_projects`, `response`)
- **Server front.** The CORS, bearer-token and logging middleware, their stacking order, and the embedded single-page-app handler (`server_main`, `embed`).
- **Client state machines.**
  - window and session binding;
  - the file browser's history, listing, sort, selection and rename;
  - the toast queue;
  - the beads dependency graph;
  - the kanban board;
  - agent role detection and group names.

  (`windows`, `files_view`, `toasts`, `graph`, `kanban`, `roles`, `groups_ts`)

What the source changes in place is modelled imperatively:

- the supervisors and the sessions caches are classes with `modifies` clauses;
- Go's `sort.Slice` sorts an `array`;
- loops become methods with invariants, each proved equal to a specification function that the lemmas are about.

React's functional `setState` updates and the pure Go and JavaScript helpers are functions on values.

Inputs from the outside world are parameters of the model. These are the clock, environment variables, the file system, the output or failure of every `tmux`, `gt`, `bv` and `ttyd` invocation, and how a line of JSON decodes.

## Model

| member | source | states |
|---|---|---|
| Orders.InsertionSort | api/utils.js:43-51 | the copy is a permutation of the input, sorted under the comparator |
| Orders.SortArray | src/internal/core/session.go:55-67 | the slice is reordered in place into a sorted permutation of its old contents |
| Orders.ByKeyStrictWeak | src/internal/core/session.go:56-66 | comparing by a three-part key (priority, group, name) is a strict weak order |
| SessionCore.RigNameParts | src/internal/core/session.go:44-47 | a name starting "gt-" always splits on "-" into at least two parts, the first "gt" and the second the rig name, so the `len(parts) >= 2` test always passes |
| SessionCore.RigCategory | src/internal/core/session.go:44-48 | the group of a "gt-" name is its first two dash parts joined by "-"; the "gt-unknown" branch is unreachable |
| SessionCore.Categorize | src/internal/core/session.go:37-52 | "hq-" names group to "hq"; exactly "main" or "shell" to "main"; "gt-" names to "gt-" plus their rig segment; every other name to "other" |
| SessionCore.GroupPriority | src/internal/core/session.go:19-34 | hq is 0, main 1, "gt-" groups 3, every other group 4, and never 2 |
| SessionCore.PriorityByName | src/internal/core/session.go:26-52 | the priority of a session's group is fixed by the form of its name: hq-, main/shell, gt-, or anything else |
| SessionCore.LessIsStrictWeakOrder | src/internal/core/session.go:56-66 | the comparison given to `sort.Slice` is a strict weak order on (priority, group, name) |
| SessionCore.SortSessions | src/internal/core/session.go:55-67 | after sorting in place the slice is a permutation of the input and ordered by (priority, group, name) |
| SessionCore.SortedOrder | src/internal/core/session.go:55-67 | in a sorted list priorities never decrease, and inside one group names never decrease |
| SessionCore.SortedGroupsContiguous | src/internal/core/session.go:55-67 | in a sorted list the sessions of one group are contiguous |
| SessionCore.OfGroup | src/internal/core/session.go:70-76 | the list kept for a group holds only sessions of that group, at most as many as the input |
| SessionCore.Groups | src/internal/core/session.go:70-76 | every session's group is a key of the grouped map |
| SessionCore.GroupSessions | src/internal/core/session.go:70-76 | the map's keys are exactly the groups that occur, and each group maps to its sessions in input order |
| SessionCore.GroupStep | src/internal/core/session.go:72-74 | appending one session to its group's list keeps the map equal to the grouping of the prefix read so far |
| SessionCore.PrefixStep | src/internal/core/session.go:72-74 | reading one more session adds its group to the keys and extends only that group's list |
| SessionCore.OfGroupPartition | src/internal/core/session.go:70-76 | every session sits in its own group's list as often as it occurs in the input, and in no other list |
| SessionCore.OfGroupSorted | src/internal/core/session.go:55-76 | grouping a sorted list leaves every group's list sorted |
| SessionCore.OfGroupMember | src/internal/core/session.go:70-76 | every entry of a group's list is an input session |
| SessionCore.PatternMeansNameChars | src/internal/core/session.go:78-79 | `^[a-zA-Z0-9_-]+$` matches exactly the non-empty names made of letters, digits, '_' and '-' |
| SessionCore.ValidateSessionName | src/internal/core/session.go:81-93 | valid iff the name is non-empty, within the charset and at most 50 characters long; the checks run in the order required, charset, length, each with its own message; exactly 50 characters is valid |
| SessionTmux.GroupPriority | internal/tmux/sorting.go:8-53 | hq is 0, main 1, "gt-" groups 2, every other group 100 |
| SessionTmux.PriorityOrderAgrees | internal/tmux/sorting.go:41-53 | this table and the `core` table rank every pair of groups the same way, though their numbers differ |
| SessionTmux.Title | internal/tmux/sorting.go:72 | `strings.Title` upper-cases the first letter of every word and keeps the length |
| SessionTmux.RigDisplayName | internal/tmux/sorting.go:56-74 | a rig group "gt-<rig>" displays as its rig name in title case |
| SessionTmux.FixedDisplayNames | internal/tmux/sorting.go:58-64 | hq, main and other display as "HQ", "Main" and "Other" |
| SessionTmux.DisplayNameOfSession | internal/tmux/sorting.go:17-38 | the display name of a "gt-" session's group is its rig segment in title case |
| SessionTmux.LessAgrees | internal/tmux/sorting.go:77-94 | this package's sort comparison orders sessions exactly like the `core` one |
| SessionTmux.SortSessions | internal/tmux/sorting.go:77-94 | after sorting in place the slice is a permutation ordered by (priority, group, name) |
| SessionTmux.SortedGroupKeys | internal/tmux/sorting.go:108-124 | every key of the map appears exactly once, in strictly increasing (priority, key) order, whatever order the map is walked in |
| SessionJs.GroupPriority | api/utils.js:5-14 | hq is 0, main 1, "gt-" groups 2, everything else 3 |
| SessionJs.PriorityOrderAgrees | api/utils.js:10-14 | this table ranks every pair of groups like the Go `core` table |
| SessionJs.CategorizeAgrees | api/utils.js:16-28 | `categorizeSession` gives the Go `core` group for every name, so "gt-solo" is "gt-solo" and "gt-gastown-jack" is "gt-gastown" |
| SessionJs.RigAgentName | api/utils.js:30-36 | a "gt-" name of three or more dash parts is its group, a dash and its agent name |
| SessionJs.DashedAgentName | api/utils.js:37-39 | any other dashed name is its first part, a dash and its agent name |
| SessionJs.UndashedAgentName | api/utils.js:40 | a name without a dash is its own agent name |
| SessionJs.SortSessions | api/utils.js:43-51 | the result is a permutation of the input; priorities never decrease, groups of one priority are in order, and agent names inside one group are in order; the input is a value and stays unchanged |
| TmuxApi.IsNoServerError | src/internal/api/tmux.go:121-129 | the search loop finds a match iff the error text contains one of the three "no server" substrings |
| TmuxApi.WindowCount | src/internal/api/tmux.go:142-145 | the window count is never 0: a zero or unparsable field reads as 1 |
| TmuxApi.ParseLine | src/internal/api/tmux.go:136-153 | a line yields a session iff its trimmed form has at least three colon parts; the session has a window count, a colon-free name and that name's group |
| TmuxApi.ParsedSessions | src/internal/api/tmux.go:134-154 | the parsed sessions, in line order, are at most as many as the lines |
| TmuxApi.ParsedSessionsFacts | src/internal/api/tmux.go:134-154 | every parsed session is well formed: window count not 0, name without a colon, group from `CategorizeSession` |
| TmuxApi.ParseSessions | src/internal/api/tmux.go:134-154 | the parsing loop returns exactly the sessions of the output's lines, in order |
| TmuxApi.ParseFormattedLine | src/internal/api/tmux.go:111-151 | parsing a line printed by the list format gives back its name, window count and group; attached is true iff exactly one client is attached |
| TmuxApi.OneClient | src/internal/api/tmux.go:149 | the attached field reads "1" only when the client count is 1 |
| TmuxApi.NonBlank | src/internal/api/tmux.go:253-259 | the names kept for a nuke are trimmed and non-empty, at most one per line |
| TmuxApi.CollectNames | src/internal/api/tmux.go:250-260 | the collecting loop returns exactly the trimmed non-blank lines, in order |
| TmuxApi.FindInvalidColor | src/internal/api/tmux.go:345-350 | the validation loop reports the first field in iteration order that is non-empty and fails the colour pattern, and nothing iff no field does |
| TmuxApi.FirstBadIsFirst | src/internal/api/tmux.go:345-350 | the reported field is rejected and every field before it in iteration order is accepted |
| TmuxApi.BuildCommands | src/internal/api/tmux.go:353-365 | at most four `set -g` commands are built |
| TmuxApi.HalfPairsSetNothing | src/internal/api/tmux.go:354-365 | the status and mode styles are set only when both of their colours are given; an empty request builds no command |
| TmuxApi.Accepted | src/internal/api/tmux.go:367-374 | the number of accepted commands never exceeds the number of commands |
| TmuxApi.CountApplied | src/internal/api/tmux.go:367-374 | the counter loop returns the number of commands tmux accepted, never more than the total |
| TmuxApi.SortAndGroup | src/internal/api/tmux.go:156-157 | the listed sessions are sorted (a permutation, ordered by priority, group and name) and grouped, every group holding its sessions in sorted order |
| TmuxApi.GeneratedNameValid | src/internal/api/tmux.go:186-189 | a generated "shell-<base36 millis>" name always passes the session-name validator |
| TmuxApi.TmuxHandler.constructor | src/internal/api/tmux.go:61-68 | a new handler starts with no cached reply |
| TmuxApi.TmuxHandler.InvalidateCache | src/internal/api/tmux.go:170-175 | the cached reply is dropped and the timestamp zeroed, so no later read is served from the cache |
| TmuxApi.TmuxHandler.ListSessions | src/internal/api/tmux.go:99-167 | the cached reply is returned, unchanged and without running tmux, iff it is set and younger than the TTL; otherwise the fresh reply, built from the tmux outcome with non-nil lists, the error text only for errors other than "no server", is cached either way |
| TmuxApi.TmuxHandler.CreateSession | src/internal/api/tmux.go:178-213 | a bad JSON body with content is refused with 400 before tmux; an invalid given name is refused with its message; otherwise `new-session` is issued for the given or generated name, and the reply is Created for that name when tmux succeeds and 400 TMUX_ERROR with its text when it fails; only a successful create clears the cache |
| TmuxApi.TmuxHandler.DeleteSession | src/internal/api/tmux.go:216-238 | an invalid name is refused with 400 before tmux runs; a valid one issues exactly `kill-session -t name`; only success clears the cache, a failure gives 500 |
| TmuxApi.TmuxHandler.DeleteAllSessions | src/internal/api/tmux.go:241-287 | without the exact confirmation header the reply is 403 and no command runs; an empty session list gives killed 0 without `kill-server`; only a successful `kill-server` clears the cache |
| TmuxApi.TmuxHandler.RenameSession | src/internal/api/tmux.go:290-325 | the old name, the JSON body and the new name are checked in that order, each refusal a 400 before tmux runs; only a successful rename clears the cache |
| TmuxApi.TmuxHandler.ApplyAppearance | src/internal/api/tmux.go:328-382 | bad JSON is 400 "Invalid JSON body"; an invalid non-empty colour is 400 BAD_REQUEST "Invalid color for <field>: <value>" for the first bad field in iteration order; both before any command runs; otherwise every built command runs and applied ≤ total ≤ 4 |
| ApiServer.ValidateSessionName | api/server.js:16-31 | valid iff the value is a non-empty string of letters, digits, '_' and '-' of at most 50 characters; a missing or non-string value is "required" |
| ApiServer.ValidateAgrees | api/server.js:20-31 | on strings the Node validator gives the Go validator's verdict and message |
| ApiServer.KeepNonBlank | api/server.js:120-121 | the kept lines are those that do not trim to empty, at most one per line |
| ApiServer.KeepNonBlankTrims | api/server.js:339 | the kept lines trim to exactly the names the Go nuke collects |
| ApiServer.JsWindows | api/server.js:127 | the parsed window count, or 1, is never 0: NaN, a missing field and zero all read as 1, any other parsed count is kept |
| ApiServer.ParseJsLine | api/server.js:122-131 | every non-blank line gives a well-formed session, a missing field read as `undefined` |
| ApiServer.JsLineAgrees | api/server.js:120-131 | on a line tmux printed the Node reading and the Go reading give the same session |
| ApiServer.ShortLineDiffers | api/server.js:123 | a line with fewer than three fields is a session for Node but is dropped by Go |
| ApiServer.JsLessAgrees | api/server.js:134-140 | with `localeCompare` read as code-point order, the Node sort comparison and the Go one are the same relation |
| ApiServer.ApplyAppearance | api/server.js:372-438 | a set field that is not a colour is refused, the first in listing order, before any command runs; otherwise every built command runs and the successes are counted |
| ApiServer.SessionsApp.constructor | api/server.js:13 | the cache starts empty |
| ApiServer.SessionsApp.InvalidateCache | api/server.js:34-36 | the cache is emptied, so no later read is served from it |
| ApiServer.SessionsApp.ListSessions | api/server.js:104-177 | the cached reply is returned without running tmux iff it is set and less than 1000 ms old; otherwise the fresh reply, with the error only for errors other than "no server", is cached either way |
| ApiServer.SessionsApp.CreateSession | api/server.js:180-222 | a falsy name is replaced by a generated one, a given one must be valid; only a successful `new-session` clears the cache |
| ApiServer.SessionsApp.RenameSession | api/server.js:225-273 | a failed decode gives 500; the old then the new name are validated, each refusal a 400 before tmux runs; only success clears the cache |
| ApiServer.SessionsApp.DeleteSession | api/server.js:276-312 | a failed decode gives 500; an invalid name gives 400 before tmux runs; only a successful kill clears the cache |
| ApiServer.SessionsApp.NukeSessions | api/server.js:317-369 | without the exact confirmation header the reply is 403 and nothing runs; a failed listing gives killed 0; otherwise `kill-server` runs, and only its success clears the cache |
| ApiServer.NukeNamesAgree | api/server.js:339 | the names the Node nuke reports trim to those the Go nuke reports |
| ApiServer.Dispatch | api/server.js:104-319 | a request goes to the handler of the first registered route that matches it, and to none iff no route matches |
| ApiServer.NukePattern | api/server.js:276-319 | only DELETE /api/tmux/sessions/all matches the nuke route, and it also matches the `:name` route |
| ApiServer.NukeUnreachable | api/server.js:276-319 | as registered, no request ever reaches the nuke handler |
| ApiServer.NukeRequestKillsSessionAll | api/server.js:276-319 | the nuke request goes to the single-session delete, which kills a session named "all" |
| ApiServer.FixedRoutesDispatch | api/server.js:276-319 | with the nuke route registered first, the nuke request reaches the nuke handler and every other request goes where it went before |
| ApiServer.AuthCheck | api/server.js:66-96 | a request passes iff no token is configured, the compared path is /api/health, or it carries "Bearer " and the right token; a missing Bearer gives 401, a wrong token 403 |
| ApiServer.MountRelative | api/server.js:99 | inside the middleware mounted at /api, `req.path` is the path with "/api" cut off |
| ApiServer.HealthNeedsToken | api/server.js:73-99 | as mounted, /api/health without credentials is refused once a token is configured |
| ApiServer.FixedHealthOpen | api/server.js:66-99 | comparing the full path, a request without credentials passes exactly when no token is configured, it is the health check, or it is outside /api |
| ApiServer.CorsOrigin | api/server.js:38-55 | "*" when CORS_ORIGINS is unset or empty; otherwise the request's origin iff it is listed, else no header |
| Terminal.StripPrefix | src/internal/proxy/terminal.go:172-175 | the forwarded path is never empty: the prefix is removed when present (the mount path itself becomes "/"), otherwise the path is passed on unchanged |
| Terminal.StripUnderMount | src/internal/proxy/bv_terminal.go:199-202 | a path under the mount keeps its leading slash and the prefix plus the result gives back the request path |
| Terminal.StripMountItself | src/internal/proxy/terminal.go:172-175 | the mount path itself is forwarded as "/" |
| Terminal.Route | src/internal/proxy/terminal.go:169-185 | the handler forwards the stripped path and tunnels exactly the WebSocket upgrade requests |
| Terminal.TerminalProxy.constructor | src/internal/proxy/terminal.go:41-68 | a new proxy is not running and has launched and stopped nothing |
| Terminal.TerminalProxy.Start | src/internal/proxy/terminal.go:71-120 | a no-op without error while running; otherwise exactly one launch, running afterwards and error-free exactly when the launch succeeded |
| Terminal.TerminalProxy.Stop | src/internal/proxy/terminal.go:123-159 | never running afterwards; a signal is sent only when it was running, so stopping twice is stopping once |
| Terminal.TerminalProxy.ProcessExited | src/internal/proxy/terminal.go:104-114 | when ttyd exits on its own the proxy is marked not running, with no launch or stop |
| Terminal.TerminalProxy.IsRunning | src/internal/proxy/terminal.go:162-166 | reports the running flag |
| Terminal.BvTerminalProxy.constructor | src/internal/proxy/bv_terminal.go:33-60 | a new beads-viewer proxy is not running, has no current path and keeps the port and launch script it was given |
| Terminal.BvTerminalProxy.StopLocked | src/internal/proxy/bv_terminal.go:134-166 | a no-op when not running; afterwards nothing runs and the current path is cleared, one stop counted only if it ran |
| Terminal.BvTerminalProxy.Start | src/internal/proxy/bv_terminal.go:63-131 | nothing happens while running on the same path (compared before "" is defaulted); otherwise a running ttyd is stopped first and ttyd is launched with the exact command line on the path or "/code", running on that path exactly when the launch succeeded |
| Terminal.BvTerminalProxy.Stop | src/internal/proxy/bv_terminal.go:169-174 | never fails; afterwards nothing runs and there is no current path |
| Terminal.BvTerminalProxy.Restart | src/internal/proxy/bv_terminal.go:177-179 | the same outcome as `Start` with the new path |
| Terminal.BvTerminalProxy.ProcessExited | src/internal/proxy/bv_terminal.go:114-125 | when ttyd exits on its own, the proxy is not running and has no current path |
| Terminal.BvTerminalProxy.IsRunning | src/internal/proxy/bv_terminal.go:182-186 | reports the running flag |
| Terminal.BvTerminalProxy.GetCurrentPath | src/internal/proxy/bv_terminal.go:189-193 | the current path, which is empty exactly when nothing runs |
| PathUtil.RootsFromEnv | src/internal/core/pathutil.go:21-33 | an unset `CHROTE_ROOTS` gives the defaults "/code" and "/vault"; a set one gives one root per comma-separated field |
| PathUtil.RootsFromEnvClean | src/internal/core/pathutil.go:23-27 | every configured root is trimmed of white space and holds no comma |
| PathUtil.RootsFromEnvFields | src/internal/core/pathutil.go:24-27 | the i-th root is the i-th comma field, trimmed |
| PathUtil.RootsFromEnvJoin | src/internal/core/pathutil.go:23-27 | writing trimmed, comma-free roots as a comma list and reading it back gives exactly those roots |
| PathUtil.RootsOfBareFields | src/internal/core/pathutil.go:24-27 | fields that are already trimmed come through unchanged |
| PathUtil.RootsConfig.constructor | src/internal/core/pathutil.go:14-17 | the roots start unloaded and empty |
| PathUtil.RootsConfig.GetAllowedRoots | src/internal/core/pathutil.go:21-33 | the first call loads the roots from the environment value; later calls return what it stored |
| PathUtil.RootsConfig.Reset | src/internal/core/pathutil.go:40-43 | the cache is cleared, so the next read loads the environment again |
| PathUtil.JoinPath | src/internal/core/pathutil.go:51 | joining onto an absolute directory gives an absolute path |
| PathUtil.Abs | src/internal/core/pathutil.go:51-54 | an absolute path resolves to its cleaned form; resolution fails exactly when the path is relative and the working directory is unknown |
| PathUtil.IsAllowed | src/internal/core/pathutil.go:56-63 | the loop admits the path iff some root with a resolvable absolute form equals it or is a directory prefix of it |
| PathUtil.ValidateProjectPath | src/internal/core/pathutil.go:46-74 | (corrected) empty input is BAD_REQUEST "Missing required parameter: path"; an unresolvable path BAD_REQUEST; a path under no root FORBIDDEN "Project path not in allowed roots: <path>. Allowed: <roots joined by ", ">"; a missing path NOT_FOUND "Project path does not exist: <path>"; otherwise the resolved path with no code; every refusal returns an empty path |
| PathUtil.AllowedNeedsAbsoluteRoot | src/internal/core/pathutil.go:56-63 | (corrected) with the working directory unknown, only an absolute root can admit a path |
| PathUtil.RelativeRootFailsOpen | src/internal/core/pathutil.go:57-59 | as written, a relative root whose `filepath.Abs` fails admits every absolute path; with the failed root skipped, none |
| PathUtil.DefaultRootsSimple | src/internal/core/pathutil.go:12 | the default roots are single absolute names |
| PathUtil.SimpleRootAbs | src/internal/core/pathutil.go:58 | a simple root is its own absolute form |
| PathUtil.SiblingRejected | src/internal/core/pathutil.go:56-63 | a sibling that merely begins like a root ("/code-evil" beside "/code") is refused |
| PathUtil.SiblingNotUnder | src/internal/core/pathutil.go:59 | a one-name path other than the root is neither the root nor below it |
| PathUtil.BelowRootAllowed | src/internal/core/pathutil.go:59 | a simple root admits itself and every path below it |
| PathUtil.EnvOr | src/internal/core/pathutil.go:97-102 | a set environment value wins, an unset one gives the default |
| PathUtil.GetWorkDir | src/internal/core/pathutil.go:84-93 | `CHROTE_WORKDIR` when set, else the first allowed root, else "/code" |
| PathUtil.DefaultWorkDir | src/internal/core/pathutil.go:84-93 | with nothing configured the working directory is "/code", and the default roots admit it |
| PathUtil.GetLaunchScript | src/internal/core/pathutil.go:97-102 | never empty; the environment value when set |
| PathUtil.GetBvLaunchScript | src/internal/core/pathutil.go:106-111 | never empty; the environment value when set |
| Response.NewSuccessResponse | AgentArena_go/internal/core/response.go:25-31 | a success response carries the data, no error and the timestamp given |
| Response.NewErrorResponse | AgentArena_go/internal/core/response.go:34-43 | an error response carries the code and message, no data and the timestamp given |
| Response.GetErrorStatusCode | AgentArena_go/internal/core/response.go:63-84 | every status is between 400 and 599, and it is 500 exactly for the codes the switch does not list |
| Response.ClientErrorCodes | AgentArena_go/internal/core/response.go:64-80 | a code maps below 500 iff it is BAD_REQUEST, FORBIDDEN, NOT_FOUND, INVALID_JSONL or ALREADY_RUNNING |
| Response.RalphCodesUnmapped | AgentArena_go/internal/core/response_test.go:115-130 | as written, RALPH_NOT_INSTALLED and RALPH_ERROR fall through to 500, while the test expects 503 and 502 like the bv codes |
| Response.ErrorStatusCode | AgentArena_go/internal/core/response.go:63-84 | the corrected table maps the ralph codes like their bv counterparts and agrees with the written table on every other code |
| Response.ErrorStatusCodeTable | AgentArena_go/internal/core/response_test.go:115-130 | the corrected table gives every status the test lists |
| PathClean.CleanKeepsRoot | AgentArena_go/internal/api/files.go:79 | `filepath.Clean` never returns "", keeps a rooted path rooted and a relative one relative, and turns "" into "." |
| PathClean.CleanRooted | AgentArena_go/internal/api/files.go:79 | a rooted path cleans to "/" followed by elements that are none of "", "." and "..", joined by "/" |
| PathClean.CleanRelative | AgentArena_go/internal/api/files.go:79 | a relative path cleans to "." or to elements that are neither "" nor "." |
| PathClean.CleanNoChar | AgentArena_go/internal/api/files.go:79-82 | cleaning adds no character other than "/" and ".", so a path without "\\" still has none afterwards |
| PathClean.CleanCanonical | AgentArena_go/internal/api/files.go:79 | an already clean rooted path is its own cleaned form |
| PathClean.CleanCanonicalTrailing | AgentArena_go/internal/api/files.go:79 | cleaning only drops the trailing "/" of an otherwise clean rooted path |
| PathClean.CleanIdempotent | AgentArena_go/internal/api/files.go:79 | cleaning a rooted path twice is cleaning it once |
| PathClean.CleanUpAndOver | AgentArena_go/internal/api/files.go:78-79 | "/a/../b" cleans to "/b": ".." removes the element before it |
| PathClean.NormalizeRooted | api/file-routes.js:16 | Node's `path.normalize` of a rooted path is the cleaned path with the input's trailing "/" kept |
| FilesGo.FirstRoot | AgentArena_go/internal/api/files.go:85-91 | the first root, in list order, that the path equals or lies below; none exactly when no root admits it |
| FilesGo.MatchRoot | AgentArena_go/internal/api/files.go:85-91 | the loop with its `break` finds exactly that first matching root |
| FilesGo.ResolveSafePath | AgentArena_go/internal/api/files.go:71-115 | (corrected) a resolved path lies in an allowed root; "", "/" and "." give the root listing; a path under no root is "Path not allowed" |
| FilesGo.MatchedIsRooted | AgentArena_go/internal/api/files.go:84-91 | a path that matched an allowed root is absolute |
| FilesGo.UnderRootStart | AgentArena_go/internal/api/files.go:87 | a path under a root starts as the root does |
| FilesGo.AllowedRootsAbsolute | AgentArena_go/internal/api/files.go:64-68 | both allowed roots are absolute |
| FilesGo.NormalizedNoBackslash | AgentArena_go/internal/api/files.go:79-82 | after the replacement the normalised path holds no "\\" |
| FilesGo.ResolvedIsContained | AgentArena_go/internal/api/files.go:101-114 | (corrected) a resolved path is its root or lies below it and is canonical, with no ".." left |
| FilesGo.AgreesWithoutBackslash | AgentArena_go/internal/api/files.go:71-115 | for requests without "\\" the written and the corrected resolver agree and never report traversal |
| FilesGo.ReplaceConcat | AgentArena_go/internal/api/files.go:82 | replacing characters works piece by piece |
| FilesGo.ReplaceBackslashes | AgentArena_go/internal/api/files.go:82 | the replacement turns "/a\\..\\b" into "/a/../b" |
| FilesGo.BackslashedIsPlain | AgentArena_go/internal/api/files.go:79 | `filepath.Clean` keeps "a\\..\\b" as one element |
| FilesGo.BackslashClimbsOut | AgentArena_go/internal/api/files.go:79-110 | "/a\\..\\b" is matched under the root "/a" but resolves to "/b" |
| FilesGo.BackslashEscapesRoot | AgentArena_go/internal/api/files.go:110-114 | as written, "/code\\..\\codex"-shaped requests resolve outside their root, because the final test is a bare string prefix; the corrected resolver refuses them |
| FilesGo.RootAliases | AgentArena_go/internal/api/files.go:73-96 | "", "/" and "." all give the root listing |
| FilesGo.SiblingNotAllowed | AgentArena_go/internal/api/files.go:84-98 | "/code-evil" and every other one-name path that is not a root is "Path not allowed" |
| FilesGo.ListRoot | AgentArena_go/internal/api/files.go:128-146 | one directory entry per root, in order, named by the root without its leading "/" |
| FilesGo.RootItemNames | AgentArena_go/internal/api/files.go:132-134 | the listed roots are named "code" and "vault" |
| FilesGo.GetResource | AgentArena_go/internal/api/files.go:149-223 | (corrected) 403 exactly for a rejected path; the root listing for an empty path or a root alias; any file-system effect stays inside a root |
| FilesGo.CreateResource | AgentArena_go/internal/api/files.go:226-270 | (corrected) 403 unless the path resolves under a root ("Cannot create at root" for the root); a directory is made exactly when the path ends in "/"; effects stay inside a root |
| FilesGo.RenameResource | AgentArena_go/internal/api/files.go:273-309 | (corrected) the source must resolve, the body must be a "rename" with a destination (400 otherwise), and the destination must resolve (403 "Invalid destination"); the move stays inside the roots |
| FilesGo.DeleteResource | AgentArena_go/internal/api/files.go:312-348 | (corrected) 403 unless the path resolves under a root ("Cannot delete root" for the root); a directory is removed with its contents, a file alone |
| FilesGo.DownloadFile | AgentArena_go/internal/api/files.go:351-382 | (corrected) 403 unless the path resolves under a root; only a regular file is served, a directory is 400 |
| FilesJs.Decoded | api/file-routes.js:15 | the empty request path stands for "/"; any other is kept |
| FilesJs.ResolveSafePath | api/file-routes.js:13-38 | the root listing exactly for "/" after normalising; "Path not allowed" exactly when no root admits the normalised path; a resolved path starts with its root |
| FilesJs.NormalizeKeepsRoot | api/file-routes.js:16 | `path.normalize` never returns "" and keeps an absolute path absolute |
| FilesJs.NormalizeThenResolve | api/file-routes.js:16-32 | on an absolute path, normalising keeps at most a trailing "/", and resolving the normalised path gives the cleaned path |
| FilesJs.UnderRootSlash | api/file-routes.js:19-21 | a trailing "/" does not change which root a path lies under |
| FilesJs.RootsWellFormed | api/file-routes.js:10 | both allowed roots are absolute and do not end in "/" |
| FilesJs.FirstRootSlash | api/file-routes.js:19-21 | matching with or without the trailing "/" finds the same root |
| FilesJs.UnderRootPrefix | api/file-routes.js:20-33 | a path under a root starts with the root's text |
| FilesJs.ResolvedIsContained | api/file-routes.js:31-37 | the "Path traversal detected" branch is dead: a matched path stays under its root after `path.resolve` |
| FilesJs.AgreesWithGo | api/file-routes.js:13-38 | on absolute paths without "\\", the Node resolver answers as the corrected Go resolver does |
| FilesJs.RootItems | api/file-routes.js:41-52 | the root listing has one directory entry per root, of size 0, stamped with the time given |
| FilesJs.RootItemsName | api/file-routes.js:44-45 | each entry's name is its root without the leading "/", as in the Go listing |
| FilesJs.GetResource | api/file-routes.js:55-117 | 403 exactly for a rejected path; the root listing exactly for the root; effects stay inside a root |
| FilesJs.CreateResource | api/file-routes.js:120-142 | 403 unless the path resolves under a root ("Cannot create at root" for the root); a directory is made exactly when the path ends in "/" |
| FilesJs.RenameResource | api/file-routes.js:145-169 | the source must resolve, the body must be a "rename" with a non-empty destination (400 otherwise), the destination must resolve (403 "Invalid destination"); the move stays inside the roots |
| FilesJs.DeleteResource | api/file-routes.js:172-194 | 403 unless the path resolves under a root ("Cannot delete root" for the root); a directory is removed recursively, a file unlinked |
| FilesJs.DownloadFile | api/file-routes.js:197-218 | 403 unless the path resolves under a root; only a regular file is served, a directory is 400 |
| StatusLines.SpanSpace | src/internal/api/mail.go:171-172 | the end of the run of white space (`\\s`) from a position: everything up to it is white space and the next character is not |
| StatusLines.SpanWord | src/internal/api/mail.go:171-172 | the end of the run of word characters (`\\w`) from a position, likewise |
| StatusLines.SpanSpaceRun | src/internal/api/mail.go:171-172 | a run of exactly n white-space characters is spanned exactly |
| StatusLines.SpanWordRun | src/internal/api/mail.go:171-172 | a run of exactly n word characters is spanned exactly |
| StatusLines.Pieces | src/internal/api/mail.go:171-172 | a match of white space, a word, white space and a status mark yields a non-empty word of word characters |
| StatusLines.MatchRole | src/internal/api/mail.go:171 | a role line starts with one of the four role emoji and yields a non-empty word name |
| StatusLines.MatchMember | src/internal/api/mail.go:172 | a member line yields a non-empty word name |
| StatusLines.MatchRig | src/internal/api/chat.go:100 | a rig heading yields a non-empty word |
| StatusLines.PiecesAt | src/internal/api/mail.go:171-172 | every stretch of the shape white space, word, white space, mark is matched, with that word as the name and the mark deciding online |
| StatusLines.RoleLineAt | src/internal/api/mail.go:171 | every line of the role shape is matched, with its emoji, word and mark as the parts |
| StatusLines.MemberLineAt | src/internal/api/mail.go:172 | every line of the member shape is matched, with its word and mark as the parts |
| StatusLines.RigLineAt | src/internal/api/chat.go:100 | every rig heading is matched, with the word between the rule and the slash as the rig |
| StatusLines.MemberIsNotRole | src/internal/api/mail.go:171-172 | a line the member pattern matches begins with white space, so the role pattern never matches it |
| Mail.MessageLine | src/internal/api/mail.go:116-130 | an inbox line gives a message iff it has at least three bar-separated fields; the message has no recipient or body and is unread |
| Mail.MessageLineFields | src/internal/api/mail.go:116-128 | three or four fields joined by bars are read back trimmed, the fourth as the timestamp, otherwise the current time |
| Mail.InboxFromStep | src/internal/api/mail.go:96-132 | the scan reads the lines one at a time |
| Mail.InboxStoppedStays | src/internal/api/mail.go:103-105 | after "(no messages)" nothing more is read |
| Mail.InboxFromConcat | src/internal/api/mail.go:96-132 | scanning two runs of lines is scanning the first, then the second from where it stopped |
| Mail.ParseInboxOutput | src/internal/api/mail.go:87-135 | the loop returns the messages of the inbox scan |
| Mail.InboxIgnoresAfterStop | src/internal/api/mail.go:103-105 | lines after a "(no messages)" line add no message |
| Mail.NoHeaderNoMessages | src/internal/api/mail.go:108-113 | before an "Inbox:" header no line adds a message |
| Mail.InboxNeedsHeader | src/internal/api/mail.go:95-113 | output without an "Inbox:" header holds no messages |
| Mail.PreambleIgnored | src/internal/api/mail.go:96-113 | lines before the header that neither stop the scan nor hold the header leave it as it started |
| Mail.InboxAfterHeader | src/internal/api/mail.go:96-132 | what precedes the header does not matter: the messages are read from the lines after it |
| Mail.GetInbox | src/internal/api/mail.go:68-84 | a failing `gt mail inbox` gives an empty inbox, not an error; otherwise the parsed messages |
| Mail.RoleName | src/internal/api/mail.go:191-201 | an emoji names a role exactly when it is one of the four role emoji |
| Mail.RecipientsFromStep | src/internal/api/mail.go:174-230 | the recipient scan reads the lines one at a time |
| Mail.ParseStatusForRecipients | src/internal/api/mail.go:164-233 | the loop returns the recipients of the scan |
| Mail.RecipientStepShaped | src/internal/api/mail.go:174-230 | one line keeps every recipient well shaped |
| Mail.RecipientsFromShaped | src/internal/api/mail.go:174-230 | the whole scan keeps every recipient well shaped |
| Mail.RecipientsWellShaped | src/internal/api/mail.go:203-227 | main roles are addressed as "role/" with their own name as id; section members as "section/name" with id "section-name" |
| Mail.NoSectionOnlyRoles | src/internal/api/mail.go:176-216 | without a "Crew" or "Polecats" heading, only main roles are found |
| Mail.NoSectionNoMembers | src/internal/api/mail.go:216-229 | status output with no such heading yields no section member |
| Mail.GetRecipients | src/internal/api/mail.go:138-161 | a failing `gt status` is 500 COMMAND_FAILED; otherwise the parsed recipients followed by the human overseer |
| Mail.HumanOnlyLast | src/internal/api/mail.go:149-156 | the human overseer is the last recipient and appears nowhere else |
| Mail.AfterFirst | src/internal/api/mail.go:258-260 | what follows the first "Overseer:" |
| Mail.BeforeFirst | src/internal/api/mail.go:258-260 | a prefix of the text, all of it when the separator is absent |
| Mail.ParseTownStatus | src/internal/api/mail.go:249-266 | the loop returns the town of the scan |
| Mail.TownFromConcat | src/internal/api/mail.go:253-263 | scanning two runs of lines is scanning one after the other |
| Mail.NoTownLineKeepsName | src/internal/api/mail.go:254-256 | lines without "Town:" leave the town name alone |
| Mail.LastTownLineWins | src/internal/api/mail.go:254-256 | the last "Town:" line names the town, trimmed |
| Mail.OverseerLine | src/internal/api/mail.go:257-261 | an "Overseer:" line gives the trimmed text after it |
| Mail.SendMailArgs | src/internal/api/mail.go:290-295 | the `--human` branch builds the same argument list as the general one |
| Mail.SendMailProblem | src/internal/api/mail.go:276-287 | a decoded request is refused exactly when the recipient, the subject or the body is empty |
| Mail.SendMail | src/internal/api/mail.go:269-309 | an undecodable body is 400 "Invalid request body"; missing fields are 400 with their own message, the recipient checked first; a request is sent exactly when it is valid and `gt` succeeds, with a "msg-" id; a failing `gt` is 500 SEND_FAILED |
| Mail.SendMailValidatesFirst | src/internal/api/mail.go:270-287 | a refused request is refused before `gt` runs: its outcome and the clock do not matter |
| Mail.MarkAsRead | src/internal/api/mail.go:312-330 | an empty id is 400; any other id is reported read, whatever `gt mail read` does |
| Mail.GetStatus | src/internal/api/mail.go:236-246 | a failing `gt status` is 500 COMMAND_FAILED; otherwise the parsed town |
| Chat.Title | src/internal/api/chat.go:170-174 | `strings.Title` of a one-word name raises only its first letter and keeps its length |
| Chat.RoleConversation | src/internal/api/chat.go:120-155 | a role line gives a conversation exactly for the four role emoji, never with a crew or polecat role |
| Chat.ConversationsFromStep | src/internal/api/chat.go:102-185 | the conversation scan reads the lines one at a time |
| Chat.ParseStatusForConversations | src/internal/api/chat.go:91-188 | the loop returns the conversations of the scan |
| Chat.MemberTarget | src/internal/api/chat.go:169 | the target "rig/name" splits back into the rig and the name at its first "/" |
| Chat.RigConversationShaped | src/internal/api/chat.go:138-145 | a witness or refinery conversation is addressed "rig/role" and labelled with its rig |
| Chat.RoleConversationShaped | src/internal/api/chat.go:129-154 | every role conversation is well shaped |
| Chat.AppendShaped | src/internal/api/chat.go:149-182 | appending a well-shaped conversation keeps the list well shaped |
| Chat.ConversationStepShaped | src/internal/api/chat.go:102-185 | one line keeps the list well shaped |
| Chat.ConversationsFromShaped | src/internal/api/chat.go:102-185 | the whole scan keeps the list well shaped |
| Chat.ConversationsWellShaped | src/internal/api/chat.go:129-182 | mayor and deacon are "mayor/" and "deacon/"; witness and refinery are "rig/witness" and "rig/refinery" labelled with the rig; members are "rig/name" labelled with their section's emoji and the titled name |
| Chat.TownRoleClearsRig | src/internal/api/chat.go:156-159 | a mayor or deacon line clears the current rig and keeps the section |
| Chat.MemberNeedsSectionAndRig | src/internal/api/chat.go:164-183 | a member is added only while both a section and a rig are set |
| Chat.NoRigStep | src/internal/api/chat.go:104-184 | with no rig set and no rig heading, a line keeps the rig unset and adds no member |
| Chat.MembersNeedRig | src/internal/api/chat.go:102-185 | output without a rig heading lists no member, whatever sections appear |
| Chat.MailMessageOf | src/internal/api/chat.go:275-305 | a mail record is "user" when its sender contains "crew" or "human" or is empty, else the given role; its content is the body, else the subject; a missing time becomes now |
| Chat.BeadMessageOf | src/internal/api/chat.go:343-367 | a bead becomes a message with the description, else the title, as content; read exactly when it is closed; a missing time becomes now |
| Chat.ParseMailResults | src/internal/api/chat.go:275-306 | one message per mail record, in order |
| Chat.ParseBeadResults | src/internal/api/chat.go:343-368 | one message per bead, in order |
| Chat.SortMessagesByTime | src/internal/api/chat.go:374-382 | the exchange sort leaves the messages oldest first and a permutation of the input |
| Chat.ReplaceAll | src/internal/api/chat.go:200 | a text without the pattern is left unchanged |
| Chat.UnescapeTarget | src/internal/api/chat.go:199-200 | replacing "%2F" by "/" undoes escaping the slashes of a target without "%" |
| Chat.GetHistory | src/internal/api/chat.go:192-240 | an empty target is 400; otherwise the decoded target and, oldest first, exactly the messages from the target (as "agent") and to it (as "user") |
| Chat.SpanId | src/internal/api/chat.go:26 | the end of the run of `[a-z0-9]` characters from a position |
| Chat.FindMessageId | src/internal/api/chat.go:425-427 | the id found is "" or "hq-" followed by id characters; it is "" exactly when no "hq-" with an id character follows |
| Chat.SpanIdRun | src/internal/api/chat.go:26 | a run of exactly n id characters is spanned exactly |
| Chat.MessageIdFound | src/internal/api/chat.go:425-427 | the leftmost "hq-" run is the id found, up to the first non-id character |
| Chat.FindSkips | src/internal/api/chat.go:425 | positions without an "h" are skipped |
| Chat.SendMessage | src/internal/api/chat.go:386-451 | an empty target, an undecodable body and an empty message are 400 in that order; delivery succeeds exactly when `gt mail send` does, with the decoded target in both commands and the id found in the output; a failed send is 500 with the trimmed output |
| Chat.NudgeBestEffort | src/internal/api/chat.go:430-444 | whether the nudge ran never changes whether the send succeeded, nor a refusal |
| Ralph.PathRefusal | AgentArena_go/internal/api/ralph.go:307-311 | a failed path validation is answered with its own code and message and the status `GetErrorStatusCode` gives that code |
| Ralph.DropTrailingSlashes | AgentArena_go/internal/api/ralph.go:195 | what is left once the trailing slashes are dropped: a prefix that does not end in "/" |
| Ralph.AfterLastSlash | AgentArena_go/internal/api/ralph.go:195 | the slash-free tail after the last "/" |
| Ralph.Base | AgentArena_go/internal/api/ralph.go:195 | `filepath.Base` is never empty and holds a "/" only when it is "/" itself |
| Ralph.BaseOfJoin | AgentArena_go/internal/api/ralph.go:195 | the base of a directory joined with a plain name is that name |
| Ralph.CollapseDashes | AgentArena_go/internal/api/ralph.go:198 | every run of dashes becomes one dash; no character is invented and the first is kept |
| Ralph.CollapseIdempotent | AgentArena_go/internal/api/ralph.go:198 | collapsing a text without a dash run changes nothing |
| Ralph.SessionSlug | AgentArena_go/internal/api/ralph.go:195-201 | the project part is at most 20 characters of `[a-z0-9-]` with no dash run |
| Ralph.SlugKeepsCleanName | AgentArena_go/internal/api/ralph.go:195-201 | a base name that is already a short slug is kept as it is |
| Ralph.SessionStamp | AgentArena_go/internal/api/ralph.go:202-205 | the clock part is the last one to six base-36 digits of the milliseconds |
| Ralph.GenerateSessionName | AgentArena_go/internal/api/ralph.go:194-207 | the name is "ralph-", the slug, "-" and the stamp |
| Ralph.GeneratedNameValid | AgentArena_go/internal/api/ralph.go:194-207 | a generated name always passes the session-name validator and is at most 33 characters long |
| Ralph.KeyValueState | AgentArena_go/internal/api/ralph.go:97-110 | the key=value reading gives a state only when it found at least one pair |
| Ralph.ParseKeyValueState | AgentArena_go/internal/api/ralph.go:97-110 | the scan loop computes the key=value reading |
| Ralph.PairsOfKeys | AgentArena_go/internal/api/ralph.go:100-106 | a key is read iff some line with an "=" carries it before its first "=" |
| Ralph.LastPairWins | AgentArena_go/internal/api/ralph.go:100-106 | a key's value is the trimmed value of the last line that carries it |
| Ralph.NoPairsNoState | AgentArena_go/internal/api/ralph.go:107-110 | there is no key=value state exactly when no line holds an "=" |
| Ralph.SessionState | AgentArena_go/internal/api/ralph.go:80-111 | no state without a readable file; a JSON object is taken as it is, JSON null is no state, anything else is read as key=value |
| Ralph.Tail | AgentArena_go/internal/api/ralph.go:138-140 | the last `limit` entries, or all when there are fewer |
| Ralph.TailAsWritten | AgentArena_go/internal/api/ralph.go:175-177 | as written the cut is the tail for a non-negative limit and panics for a negative one |
| Ralph.HistoryEntries | AgentArena_go/internal/api/ralph.go:126-136 | at most one entry per history line |
| Ralph.HistoryOf | AgentArena_go/internal/api/ralph.go:114-142 | no history without a readable file; otherwise at most `limit` entries, the last ones of the decoded non-blank lines |
| Ralph.GetRalphSessionHistory | AgentArena_go/internal/api/ralph.go:114-142 | the scan loop and the cut compute that history |
| Ralph.LogFiles | AgentArena_go/internal/api/ralph.go:156-161 | the log files are exactly the entries named "ralph-…​.log" that are not directories, in listing order |
| Ralph.LogsOf | AgentArena_go/internal/api/ralph.go:145-184 | no logs without a listing, a log file or a readable latest log; with all three the logs are given exactly when the limit is not negative, naming the last log file, the file count and its trimmed lines cut to `limit`; a negative limit makes the cut fail |
| Ralph.GetRalphLogs | AgentArena_go/internal/api/ralph.go:145-184 | the listing loop and the cut compute those logs |
| Ralph.LogLimitAsWritten | AgentArena_go/internal/api/ralph.go:581-586 | the limit is 50 unless the query parses as an integer, negative ones included |
| Ralph.NegativeLimitPanics | AgentArena_go/internal/api/ralph.go:581-586 | "limit=-1" reaches the cut with -1, which fails as soon as there is a log file (the cut is at lines 175-177) |
| Ralph.LogLimit | AgentArena_go/internal/api/ralph.go:581-586 | (corrected) a parsed limit is used only when it is not negative, else 50 |
| Ralph.LogsEndpoint | AgentArena_go/internal/api/ralph.go:574-594 | (corrected) a failed path check is refused with its code; otherwise the project's logs, never more lines than the limit |
| Ralph.RalphSessionOf | AgentArena_go/internal/api/ralph.go:210-232 | the active session is the recorded name, when it starts with "ralph-" and tmux lists it; "" otherwise |
| Ralph.FindRalphSession | AgentArena_go/internal/api/ralph.go:210-232 | the search loop finds that session |
| Ralph.GeneratedSessionFound | AgentArena_go/internal/api/ralph.go:210-232 | a session started under a generated name is found again once tmux lists it and the state records it |
| Ralph.GeneratedNameTrimmed | AgentArena_go/internal/api/ralph.go:224 | a generated name has no white space at either end, so trimming the listed name keeps it |
| Ralph.LoopCountOf | AgentArena_go/internal/api/ralph.go:328-332 | the loop count is read from "loop_count", else "loopCount", else 0 |
| Ralph.PhaseOf | AgentArena_go/internal/api/ralph.go:334-340 | the phase is "phase", else "status", else "running" while a session is active, else "idle" |
| Ralph.ExitSignalOf | AgentArena_go/internal/api/ralph.go:346-352 | the exit signal is received iff "exit_signal" prints as "true" or "exitSignal" is the boolean true |
| Ralph.RateLimitOf | AgentArena_go/internal/api/ralph.go:354-378 | a rate limit is reported iff either spelling of the calls used is non-null; the maximum defaults to 100; remaining is maximum minus used |
| Ralph.LoopStateOf | AgentArena_go/internal/api/ralph.go:321-379 | without a state the defaults 0, "idle", no exit signal and no rate limit; otherwise the resolutions above |
| Ralph.KeyValueCounters | AgentArena_go/internal/api/ralph.go:328-375 | a key=value file's decimal counters are read back, with 100 - used calls remaining |
| Ralph.StatusEndpoint | AgentArena_go/internal/api/ralph.go:306-394 | the path check, then 503 RALPH_NOT_INSTALLED, then the loop state with the session active iff one was found |
| Ralph.SessionEndpoint | AgentArena_go/internal/api/ralph.go:397-414 | the path check, then the state, at most the last ten history entries and the active session |
| Ralph.RalphArgs | AgentArena_go/internal/api/ralph.go:458-478 | no flags give no arguments |
| Ralph.BuildRalphArgs | AgentArena_go/internal/api/ralph.go:458-478 | the appends build exactly the argument list |
| Ralph.NoContinueLast | AgentArena_go/internal/api/ralph.go:475-477 | "--no-continue" comes last, and only for an explicit `continue: false` |
| Ralph.MonitorFirst | AgentArena_go/internal/api/ralph.go:460-462 | the first argument is "--monitor" exactly when monitoring was asked for |
| Ralph.RalphCommand | AgentArena_go/internal/api/ralph.go:480-483 | the command is "ralph" alone iff there are no arguments, else "ralph" and the arguments joined by spaces |
| Ralph.StartEndpoint | AgentArena_go/internal/api/ralph.go:424-498 | invalid JSON is 400; then the path check; then 409 ALREADY_RUNNING; an invalid given name is 400 BAD_REQUEST with the validator's message; with a usable name a failed `new-session` is 500 TMUX_ERROR with its message; success exactly when tmux starts the session, under a valid name (the given one, else a generated one) in the resolved path |
| Ralph.StopEndpoint | AgentArena_go/internal/api/ralph.go:506-532 | invalid JSON or an invalid session name is 400; otherwise Ctrl-C is sent and the session killed |
| BeadsFallback.Filter | api/beads-routes.js:250-254 | `filter` keeps exactly the elements that pass, in order |
| BeadsFallback.FilterDisjoint | api/beads-routes.js:314-317 | the open and the blocked counts together never exceed the issue count |
| BeadsFallback.Ids | api/beads-routes.js:275 | `map(i => i.id)` gives each issue's id, in order |
| BeadsFallback.SortPriority | api/beads-routes.js:257 | a missing, null or zero priority sorts as 5; any other number as itself |
| BeadsFallback.ByPriorityIsStrictWeakOrder | api/beads-routes.js:257 | the comparator is a strict weak order, so the sort is well defined |
| BeadsFallback.RankedOpen | api/beads-routes.js:250-257 | the ranked issues are a permutation of the open and in-progress issues, most urgent first |
| BeadsFallback.RankedFacts | api/beads-routes.js:250-257 | every ranked issue is open and in the file, in non-decreasing sort priority |
| BeadsFallback.Impact | api/beads-routes.js:264 | "high" for priority 2 or less (null counts as 0), "medium" for 3, "low" above 3 and when missing |
| BeadsFallback.ImpactFollowsPriority | api/beads-routes.js:264 | a more urgent numeric priority never gets a lesser impact |
| BeadsFallback.ZeroPriorityRankedLastButHigh | api/beads-routes.js:257-264 | priority 0 sorts as 5, after priority 4, yet is rated "high" while 4 is "low" |
| BeadsFallback.Recommend | api/beads-routes.js:259-265 | a recommendation carries the issue's id, its rank, its dependencies and its impact |
| BeadsFallback.Recommendations | api/beads-routes.js:256-265 | the first ten ranked issues, numbered from 1 |
| BeadsFallback.QuickWins | api/beads-routes.js:267-270 | as many ids as there are quick wins, but at most five, each the id of a ranked quick win |
| BeadsFallback.QuickWinReported | api/beads-routes.js:267-270 | a quick win with fewer than five quick wins ranked ahead of it is reported, right after their ids, so the list is the first five quick wins in ranked order |
| BeadsFallback.Blockers | api/beads-routes.js:254-275 | exactly the ids of the blocked issues |
| BeadsFallback.TopRecommendationMostUrgent | api/beads-routes.js:256-265 | when some issue is open, the first recommendation is at least as urgent as every open issue |
| BeadsFallback.RecommendationsNameOpenIssues | api/beads-routes.js:256-265 | every recommendation names an open issue of the file |
| BeadsFallback.QuickWinsNameOpenIssues | api/beads-routes.js:267-270 | every quick win names an open issue without dependencies whose sort priority is at least 3 |
| BeadsFallback.ComputeDegree | api/beads-routes.js:320-325 | the degree loop computes the degree map |
| BeadsFallback.DegreeOfKeys | api/beads-routes.js:320-325 | the degree map has exactly the issue ids as keys |
| BeadsFallback.DegreeOfLastWins | api/beads-routes.js:321-324 | an id's degree is the dependency-plus-blocking count of the last issue carrying it |
| BeadsFallback.TotalDeps | api/beads-routes.js:328-330 | the total is 0 exactly when no issue has a dependency or a blocking entry |
| BeadsFallback.DensityHighIff | api/beads-routes.js:331-366 | the density exceeds one half exactly when there are possible edges and twice the total exceeds them |
| BeadsFallback.FirstWithId | api/beads-routes.js:341 | `find` gives an issue of the file with that id, or none when no issue has it |
| BeadsFallback.CyclePair | api/beads-routes.js:343 | the pair holds the two ids in string order |
| BeadsFallback.FindCycles | api/beads-routes.js:335-349 | the cycle loop computes the cycle list |
| BeadsFallback.PushPairs | api/beads-routes.js:340-348 | the inner loop adds the mutual pairs through one issue's dependencies |
| BeadsFallback.CyclesOfGood | api/beads-routes.js:335-349 | every cycle reported is a self-reference or a mutual pair in string order, and no pair is reported twice |
| BeadsFallback.MutualPairReported | api/beads-routes.js:340-347 | whenever an issue lists an id whose issue lists it back, that pair is reported |
| BeadsFallback.HighBlockedIff | api/beads-routes.js:356 | the blocked ratio is high exactly when 10 times the blocked count exceeds 3 times the issue count |
| BeadsFallback.HealthOf | api/beads-routes.js:352-371 | the score stays in [0, 100]; it is 100 exactly when nothing is penalised; ten cycles drive it to 0; one risk per penalty, one warning for density |
| BeadsFallback.ScoreHealth | api/beads-routes.js:352-371 | the handler's steps compute that health block |
| BeadsFallback.HealthFallsWithCycles | api/beads-routes.js:361-363 | another cycle never raises the score |
| BeadsFallback.InsightsOf | api/beads-routes.js:312-392 | the fallback insights count the issues, key the degree by id, report only genuine unique cycles and a score in [0, 100] |
| BeadsFallback.ComputeInsights | api/beads-routes.js:312-392 | the route's loops compute those insights |
| BeadsRoutes.RootFields | api/beads-routes.js:34-35 | the roots setting, or its default, has at least one field |
| BeadsRoutes.AllowedRoots | api/beads-routes.js:34-36 | one root per field, trimmed and resolved |
| BeadsRoutes.EmptyFieldAllowsWorkingDir | api/beads-routes.js:34-36 | an empty field ("/code,") resolves to the working directory, which then becomes a root |
| BeadsRoutes.DefaultProjectPath | api/beads-routes.js:28 | the default project path is never empty |
| BeadsRoutes.ValidateProjectPath | api/beads-routes.js:46-69 | the input, or the default when empty, is resolved; refused outside every root and when missing; otherwise returned resolved |
| BeadsRoutes.ValidatedIsClean | api/beads-routes.js:50 | from an absolute working directory, an accepted path is absolute and clean |
| BeadsRoutes.TraversalRefused | api/beads-routes.js:50-61 | "/code/../etc" and every such climb into a sibling that is not a root is refused |
| BeadsRoutes.BelowRootAccepted | api/beads-routes.js:53-68 | an existing path inside a root is accepted as it is |
| BeadsRoutes.CheckBeadsDirectory | api/beads-routes.js:74-80 | the project's ".beads" directory, which must exist |
| BeadsRoutes.ValidFlagIsOneOption | api/beads-routes.js:90 | an accepted flag starts with "-" and holds no space, slash or "=" |
| BeadsRoutes.RouteFlagsValid | api/beads-routes.js:228 | the three flags the routes pass are accepted (triage; insights at line 291 and plan at line 405 likewise) |
| BeadsRoutes.SingleDashRefused | api/beads-routes.js:90 | a flag with a space, or one not starting with "--", is refused |
| BeadsRoutes.BvFailure | api/beads-routes.js:104-117 | a "not found", "not recognized" or ENOENT failure becomes the install hint; any other is "bv command failed: " and the message |
| BeadsRoutes.ExecBvCommand | api/beads-routes.js:88-118 | an invalid flag is refused before anything runs; success exactly when the flag is valid, `bv` printed and the output parses |
| BeadsRoutes.MissingExecutableMessage | api/beads-routes.js:106-107 | a missing executable always surfaces as the install hint |
| BeadsRoutes.CreateResponse | api/beads-routes.js:123-142 | data only on success, an error only on failure, code and message defaulted |
| BeadsRoutes.ClassifyAsWritten | api/beads-routes.js:152-164 | as written the first matching test decides: "not found" 404, "not installed"/"not recognized" 503, "timeout" 504, else 500 |
| BeadsRoutes.MissingBvReportedNotFound | api/beads-routes.js:106-157 | the install hint contains "not found", so a missing `bv` is answered 404 NOT_FOUND, never BV_NOT_INSTALLED |
| BeadsRoutes.Classify | api/beads-routes.js:152-164 | (corrected) the install hint is 503 BV_NOT_INSTALLED; every other message as written |
| BeadsRoutes.ClassifyOutcomes | api/beads-routes.js:152-164 | the written and the corrected mapping each give one of the four statuses; a missing `bv` is 404 NOT_FOUND as written and 503 BV_NOT_INSTALLED corrected |
| BeadsRoutes.Answer | api/beads-routes.js:147-171 | (corrected) a result is sent as a 200 success with its data; a thrown message gets the corrected mapping's status and code |
| BeadsRoutes.AnswerAsWritten | api/beads-routes.js:147-171 | a result is sent as a 200 success with its data; a thrown message gets the written mapping's status and code |
| BeadsRoutes.AnswerAgrees | api/beads-routes.js:147-171 | the corrected and the written handler answer alike for every result except the missing-`bv` message, which they answer 503 and 404 |
| BeadsRoutes.HealthRoute | api/beads-routes.js:182-184 | GET /health is always a 200 success |
| BeadsRoutes.ContentLines | api/beads-routes.js:200 | the non-blank lines of the trimmed file |
| BeadsRoutes.DecodedLines | api/beads-routes.js:202-209 | the lines that parse, in order; all of them when every line parses |
| BeadsRoutes.DecodedFromLines | api/beads-routes.js:202-209 | every issue comes from some line |
| BeadsRoutes.LineDecoded | api/beads-routes.js:203-209 | every line that decodes contributes its issue |
| BeadsRoutes.CollectIssues | api/beads-routes.js:202-209 | the loop pushes exactly the lines that parse |
| BeadsRoutes.IssuesRoute | api/beads-routes.js:190-216 | GET /issues: the loop's answer is the envelope of IssuesOf |
| BeadsRoutes.IssuesOf | api/beads-routes.js:190-216 | a success exactly when the path validates and has a ".beads" directory holding the issue file; it carries the project path and the lines that decode, in order, with their count; a refused path gives its own error |
| BeadsRoutes.WithFallback | api/beads-routes.js:222-394 | for a located project: `bv`'s output when it succeeds; the fallback when it fails and the issue file exists; its error rethrown when there is no issue file; a refused path gives its own error |
| BeadsRoutes.InsightsRoute | api/beads-routes.js:285-394 | (corrected) GET /insights is that shape with the insights the loops compute, answered through the corrected handler |
| BeadsRoutes.TriageRoute | api/beads-routes.js:222-283 | (corrected) for a located project: 200 with `bv`'s triage when it succeeds; 200 with the triage computed from the decoded issue lines when it fails and the issue file exists; the classified error of the failure without an issue file; a refusal of status 404 or more otherwise |
| BeadsRoutes.TriageWithoutBvOrIssues | api/beads-routes.js:237-239 | with `bv` missing and no issue file, triage answers 503 corrected and 404 as written |
| BeadsRoutes.PlanRoute | api/beads-routes.js:400-417 | for a located project always a 200 success: `bv`'s plan when it succeeds, the empty plan stamped now when it fails; a refusal of status 404 or more otherwise |
| BeadsProjects.MaxDepth | api/beads-routes.js:432 | a missing, unparsable or zero depth is 3; any other parsed depth is taken |
| BeadsProjects.MaxDepthOfDecimal | api/beads-routes.js:432 | a positive decimal depth is taken as written; "0" means 3 |
| BeadsProjects.ChildrenOfMembers | api/beads-routes.js:456-460 | a path is among the subdirectories walked from a directory exactly when an entry that is a directory, not hidden and not "node_modules" names it |
| BeadsProjects.SearchRoots | api/beads-routes.js:435-436 | the given root, else "/code" and "/workspace" |
| BeadsProjects.ProjectSearch.constructor | api/beads-routes.js:438-439 | the search starts with no projects and nothing searched |
| BeadsProjects.ProjectSearch.Find | api/beads-routes.js:441-465 | nothing happens beyond the depth limit or for a searched directory; otherwise the directory is marked searched, and, below the limit, every subdirectory the walk enters from a newly searched directory is searched too; the results only grow and every searched project is listed |
| BeadsProjects.ProjectSearch.WalkEntries | api/beads-routes.js:456-460 | below the depth limit every qualifying entry of the listing is searched once the loop ends; the results only grow |
| BeadsProjects.ProjectsRoute | api/beads-routes.js:431-478 | every project reported is a beads project and listed once; the search roots reported are those that exist; each existing root that is a project is reported, and so is each project among the first root's walked subdirectories when the depth allows one level |
| ServerMain.CorsOrigins | src/cmd/server/main.go:49-54 | an unset or empty setting gives no origins; otherwise one trimmed origin per comma-separated piece |
| ServerMain.CorsOriginsOfList | src/cmd/server/main.go:49-54 | a list of trimmed, comma-free, non-empty origins joined with commas is read back as itself |
| ServerMain.AllowOrigin | src/cmd/server/main.go:149-162 | "*" with no configured origins; otherwise the request's origin exactly when listed, and nothing else |
| ServerMain.MatchOrigin | src/cmd/server/main.go:151-158 | the allowlist loop that stops at the first match computes that header |
| ServerMain.Cors | src/cmd/server/main.go:146-175 | the CORS headers are always set; a preflight is answered 204 with an empty body and never routed; every other request goes on unchanged |
| ServerMain.AuthCheck | src/cmd/server/main.go:179-214 | passes exactly with no token, off the guarded paths, or with "Bearer " and the token; 401 without the "Bearer " prefix; 403 otherwise |
| ServerMain.AuthOffPassesAll | src/cmd/server/main.go:182-186 | with no token configured nothing is refused |
| ServerMain.AuthBearerOnly | src/cmd/server/main.go:200-212 | on a guarded path a bearer header passes exactly when it carries the token; a header without the prefix never passes |
| ServerMain.Auth | src/cmd/server/main.go:179-214 | a passing request gets the next handler's answer; a refusal gets its status and JSON error body and no CORS header |
| ServerMain.ServeReachesRoutes | src/cmd/server/main.go:87-89 | as stacked, a request reaches the routes exactly when it is not a preflight and the token lets it through |
| ServerMain.PreflightRefusedAsWritten | src/cmd/server/main.go:87-89 | as stacked, with a token set, a preflight to a guarded path is refused 401 with no CORS header |
| ServerMain.ServeCorsFirst | src/cmd/server/main.go:87-89 | (corrected) with CORS outermost every answer carries the CORS headers and a preflight is answered 204 |
| ServerMain.CorsFirstKeepsAuth | src/cmd/server/main.go:87-89 | with CORS outermost every request other than a preflight gets the same status, body and routing as before |
| ServerMain.StatusRecorder.constructor | src/cmd/server/main.go:223 | a new recorder starts at status 200 |
| ServerMain.StatusRecorder.WriteHeader | src/cmd/server/main.go:239-242 | the status written is recorded |
| ServerMain.Logging | src/cmd/server/main.go:218-231 | the response is the next handler's, unchanged; a line is logged exactly for "/api/" paths and statuses of 400 and above |
| ServerMain.LoggingCoversErrors | src/cmd/server/main.go:228 | every error status is logged; a success outside the API is not |
| ServerMain.UpgradeStatus | src/internal/proxy/terminal.go:226 | the upgrade succeeds with 101 exactly when every wrapper down to the connection forwards `Hijack`, else 500 |
| ServerMain.LoggingWriterAsWritten | src/cmd/server/main.go:234-237 | the written wrapper wraps the writer given and does not forward `Hijack` |
| ServerMain.LoggingWriter | src/cmd/server/main.go:234-237 | (corrected) the wrapper wraps the writer given and forwards `Hijack` |
| ServerMain.TerminalUpgradeFailsAsWritten | src/cmd/server/main.go:223-242 | as written the logging wrapper hides `Hijack`, so the terminal's WebSocket upgrade through it fails with 500, whatever it wraps |
| ServerMain.UpgradeThroughWrappers | src/cmd/server/main.go:234-242 | an upgrade answers 101 exactly when every wrapper in the stack forwards `Hijack`; (corrected) the forwarding logging wrapper lets the terminal upgrade |
| Embed.HasFileExtension | src/internal/dashboard/embed.go:40-57 | true exactly when the path ends in one of the listed extensions |
| Embed.ExtensionsStartWithDot | src/internal/dashboard/embed.go:42-49 | every listed extension is a dot and at least one more character |
| Embed.NoDotNoExtension | src/internal/dashboard/embed.go:51-56 | a path with no dot is never a static asset |
| Embed.ListedExtensionsAreAssets | src/internal/dashboard/embed.go:42-55 | a path ending in any listed extension is a static asset |
| Embed.ServedPath | src/internal/dashboard/embed.go:25-35 | a static asset other than "/" is served as itself; anything else is served "/" |
| Embed.ServedPathIdempotent | src/internal/dashboard/embed.go:25-35 | rewriting a rewritten path changes nothing |
| Embed.RoutesGetIndex | src/internal/dashboard/embed.go:33-35 | a client-side route with no dot gets index.html |
| Embed.RequestUrl.constructor | src/internal/dashboard/embed.go:25 | the URL holds the request's path |
| Embed.Handle | src/internal/dashboard/embed.go:24-36 | the path is rewritten to what is served, an asset is left as it is, and the handler reports which |
| Windows.WindowIdInjective | dashboard/src/context/SessionContext.tsx:35 | distinct positions give distinct "window-i" ids |
| Windows.IdsUnique | dashboard/src/context/SessionContext.tsx:33-40 | in a valid list a window id names at most one window |
| Windows.DefaultWindows | dashboard/src/context/SessionContext.tsx:33-40 | the requested number of empty windows, valid |
| Windows.ClampCount | dashboard/src/context/SessionContext.tsx:105 | the count is clamped into 1..4 and kept when already inside |
| Windows.SetWindowCount | dashboard/src/context/SessionContext.tsx:104-127 | the clamped number of windows; the old ones kept in place; new ones empty and numbered by position |
| Windows.ApplyWindowCount | dashboard/src/context/SessionContext.tsx:108-120 | the loop that pushes the new windows computes that list |
| Windows.SetWindowCountValid | dashboard/src/context/SessionContext.tsx:104-127 | changing the count keeps the list valid |
| Windows.Without | dashboard/src/context/SessionContext.tsx:147-163 | exactly the other names survive the filter; a missing name changes nothing; no duplicates appear |
| Windows.Unbind | dashboard/src/context/SessionContext.tsx:143-171 | the name is gone from the window; the active session stays unless it was the name; a well-formed window stays well-formed |
| Windows.Bind | dashboard/src/context/SessionContext.tsx:130-139 | the name is appended once and becomes active when none was; a well-formed window stays well-formed |
| Windows.AddSession | dashboard/src/context/SessionContext.tsx:129-156 | the target window binds the session and every other window drops it |
| Windows.AddSessionBindsOnce | dashboard/src/context/SessionContext.tsx:129-156 | adding keeps the list valid; afterwards the session is bound in the target window and no other, and the target has an active session |
| Windows.RemoveSession | dashboard/src/context/SessionContext.tsx:158-172 | only the target window changes, dropping the session |
| Windows.RemoveActiveSession | dashboard/src/context/SessionContext.tsx:158-172 | removing the active session keeps the list valid and activates the first one left, or none |
| Windows.SetActive | dashboard/src/context/SessionContext.tsx:174-180 | only a session bound to the target window becomes active; nothing else changes |
| Windows.SetActiveValid | dashboard/src/context/SessionContext.tsx:174-180 | choosing the active session keeps every active session bound |
| Windows.IndexIn | dashboard/src/context/SessionContext.tsx:188 | `indexOf`: the first position of the element, or -1 exactly when absent |
| Windows.Cycle | dashboard/src/context/SessionContext.tsx:182-200 | with more than one session the next or previous one becomes active, wrapping around; every other window is unchanged |
| Windows.CycleValid | dashboard/src/context/SessionContext.tsx:182-200 | cycling keeps the list valid |
| Windows.PrevUndoesNext | dashboard/src/context/SessionContext.tsx:191-197 | in a well-formed window with named sessions, a step back undoes a step forward |
| Windows.IndexOfNoDup | dashboard/src/context/SessionContext.tsx:188 | in a duplicate-free list the first position of the element at k is k |
| Windows.AssignedSessions | dashboard/src/context/SessionContext.tsx:62-66 | the set holds exactly the sessions bound in some window |
| Windows.AddedIsAssigned | dashboard/src/context/SessionContext.tsx:129-156 | after adding, the session is among the assigned ones |
| FileService.SanitizeFilename | dashboard/src/components/FilesView/fileService.ts:13-42 | accepted exactly when the name has no separator or "..", no control character, is not blank and not only dots; then trimmed; refusals are INVALID with no status |
| FileService.SanitizedIsComponent | dashboard/src/components/FilesView/fileService.ts:13-42 | an accepted name is one real path component: not empty, not "." or "..", no separator, no control character |
| FileService.SanitizeRefuses | dashboard/src/components/FilesView/fileService.ts:14-39 | "../x" and "a/b" are refused as separators, "." as dots, each with its own message |
| FileService.SanitizeAcceptsPlain | dashboard/src/components/FilesView/fileService.ts:13-42 | a plain name with no dot, separator, control character or edge white space is accepted as it is |
| FileService.StatusError | dashboard/src/components/FilesView/fileService.ts:52-69 | no error exactly for a 2xx status; 403, 404, 409, 413 and 507 get their codes; any other failure is SERVER, named by context and status |
| FileService.ErrorMessage | dashboard/src/components/FilesView/fileService.ts:74-99 | PERMISSION "Permission denied"; NOT_FOUND "File not found" on rename, else "Path not found"; CONFLICT "Folder already exists" on create, else "Destination already exists"; STORAGE "File too large" for 413, else "Insufficient storage"; NETWORK and SERVER their fixed texts, SERVER with the status; INVALID and other errors keep their message; a non-error gives the generic text |
| FileService.StatusMessages | dashboard/src/components/FilesView/fileService.ts:52-99 | a 404 reads "File not found" on rename and "Path not found" elsewhere; a 409 on create reads "Folder already exists"; 413 and 507 read as storage; other statuses name the status |
| FileService.CleanPath | dashboard/src/components/FilesView/fileService.ts:110 | the path with exactly one leading "/" added when it had none |
| FileService.CleanPathIdempotent | dashboard/src/components/FilesView/fileService.ts:110 | cleaning twice is cleaning once |
| FileService.ChildPath | dashboard/src/components/FilesView/fileService.ts:154 | "/name" at the root, "dir/name" elsewhere |
| FileService.ChildPathUnder | dashboard/src/components/FilesView/fileService.ts:250 | inside a clean directory a child path starts with "/", extends the directory and ends in "/" and the name |
| FileService.DownloadUrl | dashboard/src/components/FilesView/fileService.ts:300-302 | the raw-file URL with the path spliced in whole between "/api/files/raw" and "?inline=false" |
| FileService.NetworkError | dashboard/src/components/FilesView/fileService.ts:118-123 | a rejected `fetch` is a NETWORK error with no status, carrying the thrown `Error`'s message or "Network error" |
| FileService.FetchDirectory | dashboard/src/components/FilesView/fileService.ts:109-156 | a rejected request is the network error; an answered failure goes through `throwForStatus`; a listing is returned exactly when the request is answered 2xx and the body is an object not marked as a file with items; each item gets its child path under the clean directory |
| FileService.CreateFolderError | dashboard/src/components/FilesView/fileService.ts:162-185 | no error exactly on an answered 2xx; a rejected request is the network error; a 409 says the folder exists; any other failure is `throwForStatus` with "Failed to create folder" |
| FileService.RenameError | dashboard/src/components/FilesView/fileService.ts:191-216 | no error exactly on an answered 2xx; a rejected request is the network error; a 409 says the destination exists; any other failure is `throwForStatus` with "Failed to rename" |
| FileService.UploadError | dashboard/src/components/FilesView/fileService.ts:267-275 | no error exactly on 2xx; an answered request never fails as a network error |
| FileService.UploadStep | dashboard/src/components/FilesView/fileService.ts:246-275 | a refused name fails with the sanitiser's error; a rejected POST is the network error; an answered one succeeds with the sanitised name's child path exactly on 2xx, else fails with the upload error |
| FileService.UploadOutcome | dashboard/src/components/FilesView/fileService.ts:243-277 | the paths sent before the first failure, each the sanitised child path of its name; every name is sent when there is no failure |
| FileService.UploadOutcomeSteps | dashboard/src/components/FilesView/fileService.ts:243-277 | each sent path is the result of a successful upload step for its name; an error is the failing step's error for the first name not sent, so the loop stops at exactly the first refused name, rejected or non-2xx POST |
| FileService.UploadFiles | dashboard/src/components/FilesView/fileService.ts:243-277 | the upload loop that stops at the first refused name, rejected or failed request computes that outcome |
| FileService.RefusedNameStopsUploads | dashboard/src/components/FilesView/fileService.ts:246-250 | a refused name stops the uploads with an error before any request for it or the names after it |
| FileService.RejectedFetchStopsUploads | dashboard/src/components/FilesView/fileService.ts:252-265 | a rejected POST stops the uploads with the network error after exactly the names before it |
| FileService.FailedReplyStopsUploads | dashboard/src/components/FilesView/fileService.ts:267-275 | an answered non-2xx POST stops the uploads with its upload error after exactly the names before it |
| FilesView.NavigateTo | dashboard/src/components/FilesView/index.tsx:100-107 | forward entries are dropped and the path is appended and made current |
| FilesView.GoBack | dashboard/src/components/FilesView/index.tsx:110-116 | one entry back when there is one; otherwise nothing changes |
| FilesView.GoForward | dashboard/src/components/FilesView/index.tsx:119-125 | one entry forward when there is one; otherwise nothing changes |
| FilesView.BackAfterNavigate | dashboard/src/components/FilesView/index.tsx:100-116 | after navigating there is no forward entry, and back returns to where the browser was |
| FilesView.BackForwardInverse | dashboard/src/components/FilesView/index.tsx:110-125 | forward undoes back and back undoes forward |
| FilesView.NonEmpty | dashboard/src/components/FilesView/index.tsx:129 | `filter(Boolean)` keeps exactly the non-empty pieces |
| FilesView.GoUp | dashboard/src/components/FilesView/index.tsx:128-134 | no parent exactly at the root; otherwise an absolute path |
| FilesView.GoUpAtRoot | dashboard/src/components/FilesView/index.tsx:128-134 | "/" has no parent |
| FilesView.GoUpDropsLast | dashboard/src/components/FilesView/index.tsx:128-134 | for "/s1/.../sn", going up gives "/s1/.../s(n-1)" |
| FilesView.Filter | dashboard/src/components/FilesView/index.tsx:140-142 | keeps exactly the matching items, in order |
| FilesView.VisibleIgnoresCase | dashboard/src/components/FilesView/index.tsx:140-142 | queries that lower-case alike show the same items |
| FilesView.FilterSameQuery | dashboard/src/components/FilesView/index.tsx:141 | the filter depends only on the lower-cased query |
| FilesView.BeforeIff | dashboard/src/components/FilesView/index.tsx:144-161 | directories first; then the key ascending, or reversed when descending |
| FilesView.KeyLtFacts | dashboard/src/components/FilesView/index.tsx:148-158 | each key's order is a strict weak order |
| FilesView.BeforeStrictWeak | dashboard/src/components/FilesView/index.tsx:144-161 | the comparator is a strict weak order for every key and direction |
| FilesView.SortedItems | dashboard/src/components/FilesView/index.tsx:137-164 | a permutation of the visible items in which no item follows one it sorts before, directories first |
| FilesView.SortedItemsShown | dashboard/src/components/FilesView/index.tsx:137-164 | an item is shown exactly when it is in the directory and matches the search, or there is none |
| FilesView.SizesAscend | dashboard/src/components/FilesView/index.tsx:152-160 | within the files or within the directories, sizes ascend under an ascending size sort |
| FilesView.HandleSort | dashboard/src/components/FilesView/index.tsx:167-173 | the key is set; the direction turns descending exactly when the same key was ascending |
| FilesView.HandleSortAlternates | dashboard/src/components/FilesView/index.tsx:167-173 | clicking one header alternates the direction |
| FilesView.Names | dashboard/src/components/FilesView/index.tsx:197 | the items' names, in order |
| FilesView.Toggle | dashboard/src/components/FilesView/index.tsx:179-188 | the clicked name leaves the selection when in it and joins it otherwise; no duplicates appear |
| FilesView.ToggleTwice | dashboard/src/components/FilesView/index.tsx:179-188 | toggling twice restores the selection |
| FilesView.JsSlice | dashboard/src/components/FilesView/index.tsx:197 | `slice` with bounds in range is the subsequence |
| FilesView.ShiftRangeAsWritten | dashboard/src/components/FilesView/index.tsx:189-199 | as written, the slice from the smaller to the larger index, where a hidden anchor's index is -1 |
| FilesView.HiddenAnchorClearsSelection | dashboard/src/components/FilesView/index.tsx:189-199 | with the anchor hidden, a shift click on any but the last row selects nothing, not even the row clicked |
| FilesView.HiddenAnchorExample | dashboard/src/components/FilesView/index.tsx:189-199 | "x" selected then filtered away, a shift click on "a" of ["a", "b"] selects nothing |
| FilesView.ShiftRange | dashboard/src/components/FilesView/index.tsx:189-199 | (corrected) the clicked name is always selected; the inclusive range when both ends are shown; the clicked name alone otherwise |
| FilesView.ShiftRangeAgrees | dashboard/src/components/FilesView/index.tsx:189-199 | when both ends are shown the corrected range is the one written |
| FilesView.HandleSelect | dashboard/src/components/FilesView/index.tsx:176-203 | (corrected) ctrl or meta toggles; shift with a selection selects the corrected range; anything else selects the clicked name alone |
| FilesView.ClickSelects | dashboard/src/components/FilesView/index.tsx:189-202 | (corrected) a click without ctrl or meta always leaves the clicked name selected |
| FilesView.FindByName | dashboard/src/components/FilesView/index.tsx:227 | `find` gives an item with that name, or none when no item has it |
| FilesView.SubmitRename | dashboard/src/components/FilesView/index.tsx:221-232 | cancelled exactly when nothing is renamed or the value is blank or unchanged; nothing happens for a vanished item; otherwise the untrimmed name under the current directory |
| FilesView.RenameStaysInDirectory | dashboard/src/components/FilesView/index.tsx:230-232 | a rename in a clean directory targets a path under it ending in the new name |
| PathMap.Replace | dashboard/src/components/FilesView/types.ts:101-120 | the first entry whose prefix the path starts with has that prefix swapped; an unmatched path is returned as it is |
| PathMap.ToDisplayPath | dashboard/src/components/FilesView/types.ts:93-108 | "/code..." shows as "E:/Code...", "/vault..." as "E:/Vault...", anything else unchanged |
| PathMap.ToContainerPath | dashboard/src/components/FilesView/types.ts:93-120 | "E:/Code..." maps to "/code...", "E:/Vault..." to "/vault...", anything else unchanged |
| PathMap.ContainerRoundTrip | dashboard/src/components/FilesView/types.ts:101-120 | a mounted container path shown on screen converts back to itself |
| PathMap.DisplayRoundTrip | dashboard/src/components/FilesView/types.ts:101-120 | a host path under a mount converts to the container and back unchanged |
| PathMap.RootDisplayName | dashboard/src/components/FilesView/types.ts:126-132 | "code" and "vault" show as their host paths; any other name as itself |
| PathMap.RootNamesAgreeWithPaths | dashboard/src/components/FilesView/types.ts:93-132 | a root's display name is the display path of its mount |
| BeadsGraph.Nodes | dashboard/src/beads_module/context.tsx:45-52 | one node per issue, in order, with its id and title |
| BeadsGraph.Ids | dashboard/src/beads_module/context.tsx:54 | exactly the issues' ids |
| BeadsGraph.PushDependsLoop | dashboard/src/beads_module/context.tsx:59-67 | the dependency loop pushes a depends link from each present dependency |
| BeadsGraph.PushBlocksLoop | dashboard/src/beads_module/context.tsx:70-78 | the blocking loop pushes a blocks link to each present blocked issue |
| BeadsGraph.PushRelatedLoop | dashboard/src/beads_module/context.tsx:81-98 | the related loop pushes a link unless the pair is already related in either direction |
| BeadsGraph.BuildGraphData | dashboard/src/beads_module/context.tsx:44-102 | the loops build the graph of the issues |
| BeadsGraph.GraphLinksOk | dashboard/src/beads_module/context.tsx:44-102 | every link joins two issues of the graph and no related pair is linked twice in either direction |
| BeadsGraph.DependsLinked | dashboard/src/beads_module/context.tsx:59-66 | a present dependency gets a link from it to the issue |
| BeadsGraph.BlocksLinked | dashboard/src/beads_module/context.tsx:70-77 | a present blocked issue gets a link from the issue to it |
| BeadsGraph.RelatedLinked | dashboard/src/beads_module/context.tsx:81-97 | a present related issue leaves the pair linked in one direction or the other |
| BeadsGraph.GraphComplete | dashboard/src/beads_module/context.tsx:44-102 | every dependency, blocked and related issue of the graph is linked to the issue that lists it |
| BeadsGraph.GraphData | dashboard/src/beads_module/context.tsx:130-133 | no graph exactly when there are no issues; otherwise one node per issue |
| BeadsGraph.SetProjectPath | dashboard/src/beads_module/context.tsx:268-277 | the new path with issues, triage, insights, plan, selection and error cleared |
| BeadsGraph.NoGraphAfterProjectChange | dashboard/src/beads_module/context.tsx:268-277 | after a change of project there is no graph |
| Kanban.SortPriority | dashboard/src/components/BeadsView/KanbanView.tsx:66 | a missing or zero priority counts as 99; any other as itself |
| Kanban.PriorityLtStrictWeak | dashboard/src/components/BeadsView/KanbanView.tsx:66 | the priority comparator is a strict weak order |
| Kanban.ColumnMembers | dashboard/src/components/BeadsView/KanbanView.tsx:55-62 | a column holds exactly the issues with its status |
| Kanban.OtherMembers | dashboard/src/components/BeadsView/KanbanView.tsx:53-62 | "Other" holds exactly the issues whose status has no column |
| Kanban.StatusesDistinct | dashboard/src/components/BeadsView/KanbanView.tsx:13-19 | the five column statuses are distinct |
| Kanban.EmptyBuckets | dashboard/src/components/BeadsView/KanbanView.tsx:47-50 | an empty list for exactly the column statuses |
| Kanban.Bucket | dashboard/src/components/BeadsView/KanbanView.tsx:52-62 | each column status keys exactly its issues; "other" gets the rest |
| Kanban.SortByPriority | dashboard/src/components/BeadsView/KanbanView.tsx:65-68 | a permutation of the list in ascending priority |
| Kanban.BuildBoard | dashboard/src/components/BeadsView/KanbanView.tsx:46-68 | column k holds a permutation of the issues with status k, "other" of the rest, each sorted by priority |
| Kanban.ColumnsOfCons | dashboard/src/components/BeadsView/KanbanView.tsx:55-62 | one more issue lands in the columns once when its status has one, else not at all |
| Kanban.Partition | dashboard/src/components/BeadsView/KanbanView.tsx:46-68 | the columns and "other" together hold every issue exactly as often as it occurs |
| Kanban.BoardPartitions | dashboard/src/components/BeadsView/KanbanView.tsx:13-68 | the five columns and "other" hold every issue exactly once |
| Kanban.OtherShownIff | dashboard/src/components/BeadsView/KanbanView.tsx:88 | "Other" is shown exactly when some issue's status has no column |
| Kanban.KanbanView | dashboard/src/components/BeadsView/KanbanView.tsx:21-101 | loading first, then a non-empty error, then the empty message; otherwise the board, whose five columns each hold a priority-sorted permutation of their status's issues and whose sorted "other" column is shown only when non-empty |
| Roles.DetectRole | dashboard/src/utils/roleDetection.ts:59-93 | a detected role's patterns match the lower-cased name |
| Roles.DetectedFirst | dashboard/src/utils/roleDetection.ts:59-93 | whenever a role matches, a role is detected, tried no later than that one |
| Roles.DetectNone | dashboard/src/utils/roleDetection.ts:59-93 | no role exactly when no role's patterns match |
| Roles.ToLowerIdempotent | dashboard/src/utils/roleDetection.ts:60 | lower-casing twice is lower-casing once |
| Roles.DetectIgnoresCase | dashboard/src/utils/roleDetection.ts:60 | a name and its lower-cased form have the same role |
| Roles.NotMayorDeaconWitness | dashboard/src/utils/roleDetection.ts:63-75 | without 'm', 'd' and 'w' a name matches none of the first three roles |
| Roles.PolecatName | dashboard/src/utils/roleDetection.ts:77-80 | a lower-case name with "-pc-" and none of 'm', 'd', 'w' is a polecat, whatever else it holds |
| Roles.RefineryPolecatIsPolecat | dashboard/src/utils/roleDetection.ts:78-85 | "gt-refinery-pc-1" is a polecat, not a refinery |
| Roles.Badge | dashboard/src/utils/roleDetection.ts:15-52 | the role's configured badge, carrying the role |
| Roles.BadgesDistinct | dashboard/src/utils/roleDetection.ts:15-52 | every role has its own badge name and colour |
| Roles.GetRoleInfo | dashboard/src/utils/roleDetection.ts:100-108 | no badge exactly when no role is detected; otherwise the detected role's badge |
| DashboardGroups.Config | dashboard/src/types.ts:109-113 | configured exactly for "hq", "main" and "other" |
| DashboardGroups.Capitalize | dashboard/src/types.ts:120 | same length; the first character upper-cased and the rest kept |
| DashboardGroups.GroupDisplayName | dashboard/src/types.ts:115-123 | the configured name; else a "gt-" group's rig name capitalised; else the key itself |
| DashboardGroups.GroupPriority | dashboard/src/types.ts:125-129 | the configured priority; else 2 for "gt-" groups; else 99 |
| DashboardGroups.RigGroupsUnconfigured | dashboard/src/types.ts:109-113 | no configured group starts with "gt-" |
| DashboardGroups.RigDisplayName | dashboard/src/types.ts:117-121 | a rig group shows as its rig name capitalised |
| DashboardGroups.GastownDisplayName | dashboard/src/types.ts:118-120 | "gt-gastown" shows as "Gastown" |
| DashboardGroups.ConfiguredDisplayNames | dashboard/src/types.ts:109-116 | "hq", "main", "other" show as "HQ", "Main", "Other" |
| DashboardGroups.UnknownDisplaysAsItself | dashboard/src/types.ts:122 | a group neither configured nor a rig shows as itself |
| DashboardGroups.RigDisplayAgreesWithTmux | dashboard/src/types.ts:115-123 | for a lower-case rig name this and the Go sorting table give the same display name |
| DashboardGroups.PriorityOrder | dashboard/src/types.ts:109-129 | hq, then main, then rigs, then unknown groups, then "other"; the Go table ties unknown groups with "other" |
| DashboardGroups.PriorityAgreesWithTmux | dashboard/src/types.ts:125-129 | except for unknown groups, the priorities are the Go table's |
| Toasts.InitialOk | dashboard/src/context/ToastContext.tsx:23-24 | the empty queue with next id 1 satisfies the invariant |
| Toasts.AddToast | dashboard/src/context/ToastContext.tsx:26-46 | the next id advances; the new toast goes in front with that id; at most five kept, the rest shifted down |
| Toasts.AddKeepsOk | dashboard/src/context/ToastContext.tsx:26-46 | adding keeps every shown id below the next id and the toasts newest first |
| Toasts.AddDropsOldest | dashboard/src/context/ToastContext.tsx:39-43 | with five shown, adding drops exactly the oldest |
| Toasts.Without | dashboard/src/context/ToastContext.tsx:49 | exactly the toasts with another id survive |
| Toasts.WithoutNewestFirst | dashboard/src/context/ToastContext.tsx:49 | filtering keeps the rest newest first |
| Toasts.WithoutAbsent | dashboard/src/context/ToastContext.tsx:49 | removing an id not shown changes nothing |
| Toasts.RemoveToast | dashboard/src/context/ToastContext.tsx:48-50 | the toasts with that id go and the others stay; the next id is unchanged |
| Toasts.RemoveKeepsOk | dashboard/src/context/ToastContext.tsx:48-50 | removing keeps the invariant |
| Toasts.RemoveUndoesAdd | dashboard/src/context/ToastContext.tsx:26-50 | dismissing a toast just added to a queue that was not full restores what was shown |
| Radix.FormatNat | src/internal/api/tmux.go:188 | at least one digit, every character a digit of the base, no leading zero except for 0 itself |
| Radix.ParseFormat | src/internal/api/tmux.go:188 | reading back what was written in any base gives the number |
| Radix.Atoi | AgentArena_go/internal/api/ralph.go:583 | the result stays in the 64-bit range; a failure gives 0 or one of the two bounds |
| Radix.AtoiFormat | AgentArena_go/internal/api/ralph.go:583 | every 64-bit integer written in decimal is read back exactly, with success |
| Radix.ParseIntFormat | api/beads-routes.js:432 | `parseInt` reads back every natural number written in decimal |
| Radix.UnsignedText | api/server.js:127 | text starting with a digit is read by `parseInt` as its unsigned digit prefix |

## Left out

- The WebSocket relay (`proxyWebSocket`), the `httputil` reverse proxy, the ttyd monitor goroutines, `fuser` port reclamation and the fixed sleeps are not modelled. They are concurrency, networking and process control. A spawn's success and a process exit are inputs or operations of their own.
- Every `exec` call (`tmux`, `gt`, `bd`, `bv`, `ralph`) and every file-system access becomes a parameter: its output or error, whether a path exists, a directory's listing.
- The clock, `Date.now`, environment variables and `localStorage` are inputs. A missing or zero timestamp in the mail and chat records becomes the clock reading passed in.
- JSON encoding and decoding are not modelled. A decoded record is a datatype, and whether a line parses is a parameter. This covers the JSONL fallback of `chat.go` and the issue file of the beads routes.
- Timestamp text is not parsed. An instant is an integer, and RFC 3339 parsing in `chat.go` is a parameter.
- `decodeURIComponent` is not modelled. The file routes of the Node server take the path as already decoded.
- Floating point is left out. The beads graph density and the blocked ratio are compared as exact rationals, not as floating-point numbers.
- Case mapping and white space are ASCII only. Unicode case folding in `toLowerCase`, `strings.Title` and `TrimSpace` is not modelled.
- FilesView.BeforeIff: `localeCompare` is modelled as code-point order on names. Locale collation is not modelled.
- ApiServer.JsLessAgrees: `localeCompare` in the session sort of server.js is read as code-point order. Under locale collation "alpha" sorts before "Zed", where Go's `<` puts "Zed" first, so the two servers can order mixed-case names differently.
- SessionJs.SortSessions: `localeCompare` on groups and agent names is read as code-point order, not locale collation.
- ApiServer.SessionsApp.ListSessions: its sort uses the code-point reading of `localeCompare` stated for ApiServer.JsLessAgrees.
- Sort stability is stated only where the source relies on it. Go's `sort.Slice` is proved to give a sorted permutation, not a particular order among equal keys.
- JavaScript prototype-key lookups (`GROUP_CONFIG["constructor"]` and the like) are not modelled. A configured group is one of the listed keys.
- FilesView.HandleSelect: the selection `Set` is a sequence without duplicates, and item names in one directory are assumed distinct.
- Toasts.AddToast: the `nextId` closed over by `addToast` is taken as current. Two toasts added within one render would share an id in the source.
- Kanban.KanbanView: the column labels and the rendering of cards are not modelled. Only the buckets, their order and the "other" column's visibility are.
- Ralph handlers `Health`, `ListProjects`, `ResetCircuitBreaker` and `Templates` are not modelled. The status fields `completion_indicators` and `resetTime` are not modelled either, nor is the delay in `Stop`. They are I/O wrappers or copy a file through unchanged.
- The ralph project-path check is a parameter. The AgentArena copy of `pathutil.go` is the same code as `src/internal/core/pathutil.go`, which is modelled.
- The right-click selection of `handleContextMenu` and the rendering of the file browser are not modelled. They are UI wiring around `HandleSelect`.
- `deleteItem` and `pathExists` in `fileService.ts` are `throwForStatus` with the context "Failed to delete" and `response.ok` (false when the request is rejected). Both are covered by FileService.StatusError and FileService.Ok, and `deleteItem`'s rejected request by FileService.NetworkError.
- The dashboard's own group table gives unknown groups priority 99 and "other" 100, while the Go `tmux` table ties them at 100. This divergence is stated by DashboardGroups.PriorityOrder and is not treated as a defect.
- The beads `/projects` route does not check the allowed roots. The model keeps that behaviour.
- The React rendering, the floating-point graph layout and the thin fetch hooks of the dashboard are not modelled.
- FilesGo.GetResource: built on the corrected resolver FilesGo.ResolveSafePath. As written, `/code\..\codex` is served from `/codex` (FilesGo.BackslashEscapesRoot); on requests without "\" the two resolvers agree (FilesGo.AgreesWithoutBackslash).
- FilesGo.CreateResource: built on the corrected resolver. As written, `/code\..\codex/x` creates under `/codex`.
- FilesGo.RenameResource: built on the corrected resolver. As written, a rename can reach paths outside the roots through backslashes.
- FilesGo.DeleteResource: built on the corrected resolver. As written, `/code\..\codex` removes `/codex`.
- FilesGo.DownloadFile: built on the corrected resolver. As written, files outside the roots are served through backslashes.
- PathUtil.ValidateProjectPath: built on the corrected PathUtil.IsAllowed. As written, a root whose `filepath.Abs` fails admits every absolute path (PathUtil.RelativeRootFailsOpen).
- PathUtil.AllowedNeedsAbsoluteRoot: stated of the corrected check. As written, a relative root with an unknown working directory admits every absolute path.
- Ralph.LogsEndpoint: built on the corrected Ralph.LogLimit. As written, `?limit=-1` panics once a log file exists (Ralph.NegativeLimitPanics).
- BeadsRoutes.Answer: uses the corrected BeadsRoutes.Classify. As written, a missing `bv` is answered 404 NOT_FOUND; BeadsRoutes.AnswerAgrees states that this is the only difference.
- BeadsRoutes.ClassifyOutcomes: its third clause is of the corrected mapping; its fourth states the written 404.
- BeadsRoutes.InsightsRoute: answers through the corrected BeadsRoutes.Answer. As written, with `bv` missing and no issue file it answers 404, not 503.
- BeadsRoutes.TriageRoute: answers through the corrected BeadsRoutes.Answer, with the same difference (BeadsRoutes.TriageWithoutBvOrIssues states both).
- FilesView.HandleSelect: its shift branch uses the corrected FilesView.ShiftRange. As written, a shift click with the anchor hidden by the search selects nothing unless the clicked row is last (FilesView.HiddenAnchorClearsSelection); with both ends shown the two agree (FilesView.ShiftRangeAgrees).
- FilesView.ClickSelects: holds of the corrected selection only, for the same reason.
- BeadsProjects.ProjectsRoute: completeness is stated for the roots and the first root's subdirectories. Because the walk skips a directory already searched, a directory first reached at a deeper level has its own children cut off earlier; on a file-system tree each directory is reached once and this does not arise, but the model does not assume a tree, so deeper levels are not stated.

## Findings

| source | as written | input that shows it | evidently intended | confidence | as-written member | corrected member |
|---|---|---|---|---|---|---|
| AgentArena_go/internal/api/files.go:110-112 | the final containment test is a bare string prefix of the root | the path `/code\..\codex` with root `/code` resolves to `/codex` and is accepted | a resolved path equal to the root or below `root + "/"` | high, not executed | FilesGo.BackslashEscapesRoot | FilesGo.ResolveSafePath |
| api/server.js:276-319 | `DELETE /sessions/:name` is registered before `DELETE /sessions/all` | `DELETE /api/tmux/sessions/all` kills a session named "all" and never reaches the nuke handler | the nuke route matched first | high, not executed | ApiServer.NukeUnreachable | ApiServer.FixedRoutesDispatch |
| api/server.js:73-99 | the auth middleware mounted at `/api` compares `req.path`, which is mount-relative | with a token set, `GET /api/health` without credentials is answered 401 | the health check open without a token | high, not executed | ApiServer.HealthNeedsToken | ApiServer.FixedHealthOpen |
| src/internal/core/pathutil.go:57-59 | a root whose `filepath.Abs` fails compares as "" | with the root "code" unresolvable, every absolute path is allowed | a root that cannot be resolved admits nothing | low, not executed | PathUtil.RelativeRootFailsOpen | PathUtil.IsAllowed |
| AgentArena_go/internal/core/response.go:63-84 | RALPH_NOT_INSTALLED and RALPH_ERROR fall to the default 500 | `GetErrorStatusCode("RALPH_NOT_INSTALLED")` is 500; the test at response_test.go:125 expects 503 | 503 and 502, like the bv codes | high, not executed | Response.RalphCodesUnmapped | Response.ErrorStatusCode |
| AgentArena_go/internal/api/ralph.go:581-586 | any parsed limit is used, negative included | `?limit=-1` with a log file slices past the end and panics | a negative limit falls back to 50 | high, not executed | Ralph.NegativeLimitPanics | Ralph.LogLimit |
| api/beads-routes.js:106-157 | the install hint contains "not found", which is tested first | with `bv` missing, a route answers 404 NOT_FOUND | 503 BV_NOT_INSTALLED | high, not executed | BeadsRoutes.MissingBvReportedNotFound | BeadsRoutes.Classify |
| src/cmd/server/main.go:87-89 | the token check wraps the CORS middleware | with a token set, a browser preflight `OPTIONS /api/tmux/sessions` is answered 401 with no CORS header | CORS outermost, so preflights get 204 | high, not executed | ServerMain.PreflightRefusedAsWritten | ServerMain.ServeCorsFirst |
| src/cmd/server/main.go:234-242 | the logging wrapper does not forward `Hijack` | the terminal's WebSocket upgrade through `loggingMiddleware` fails with 500 | `Hijack` forwarded to the wrapped writer | medium, not executed | ServerMain.TerminalUpgradeFailsAsWritten | ServerMain.UpgradeThroughWrappers |
| dashboard/src/components/FilesView/index.tsx:189-199 | a hidden anchor has index -1, and `slice(-1, i + 1)` is empty unless the clicked row is last | "x" selected, the search hides it, and shift-click on "a" of ["a", "b"] selects nothing | the clicked row alone when the anchor is not shown | high, not executed | FilesView.HiddenAnchorClearsSelection | FilesView.ShiftRange |

