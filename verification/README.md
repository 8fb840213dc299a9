# Web gateway kernels, modelled and proved

A model of the algorithmic core of the web UI gateway (`apps/web-ui/gateway`, Go), with proofs that it
does what its callers rely on. Each module stands for one component:

- `ChatGroups`: the chat rail's forest of conversations over a parent map with missing links and cycles.
- `Tools`, `ToolPicker`, `ToolRoundTrip`: an agent's tool lists and policies, the page that renders them,
  the form it submits, the save, and the resolver that says what is granted.
- `BoardStream`, `BoardDrain`, `Sse`, `BoardHealth`: the live board, as a protocol of two goroutines and
  a ticker, its upstream reader, its wire format and its health readout.
- `Versions`, `BlueprintList`, `BlueprintDiff`, `BlueprintPatch`: the order on version strings, the patch
  bump, the list of available blueprints and the structural comparison of two versions.
- `Wizard`: the install, import and update requests and the pages between them.
- `Accounts`, `RecentProjects`: the account registry, its rotation, and the recent-project list.
- `WorkText`: the one-per-line text boxes and their printers.
- `BoardLanes`: the work board's lanes, and the per-type swimlanes that only tests build.
- `Order`, `Text`, `Slices`, `Options`: sorting, Go's `strings` functions, list helpers, optional values.

Code that computes by loops and updates is a method or a class here, proved against a function that says
what it computes; what that function means is stated by lemmas. A Go map is read by picking any remaining
key, so a result proved of such a loop holds in every iteration order.

Conventions. A string is a sequence of code points compared by code point, which is Go's byte order on
valid UTF-8. Instants are integers, as the rail's timestamp parser returns them. `path.Match` is an
arbitrary predicate. `strings.ToLower` is an arbitrary function where the board sorts types. JSON decoding
is an arbitrary function. Backend answers, clock readings and the verdict of the session cookie are
parameters. Form field names are constructors of a datatype, so that a tool's name never runs into a
prefix. Conversation ids are distinct within a page wherever the grouping is promised; the root finder and
its termination need no such assumption. Capability group ids are distinct, as the server computes them.

## What the proofs found

- The Inherit option of a per-tool policy select submits an empty value (agent.templ:1555) while the save
  deletes an override only on "inherit" (agent.go:554): choosing it keeps the override, whatever it is.
- The comment on the save says a per-tool select is submitted for unchecked tools too (agent.go:500-501);
  the template disables the select of an unchecked row (agent.templ:1441), so it is not.
- Saving the untouched page loses no grant and keeps every policy value, but drops a policy's message and a
  `confirm` beside `disabled`, and turns an unset default policy into "allow", which blocks as little. A
  default stored in another spelling, such as "Deny", is a deny to the resolver (agent_tools.go:134) and no
  option of the page (agent.templ:848-852), so an untouched save turns it into "allow".
- If the session group is shown without a `set_session_title` row, and that tool is neither banned nor
  allowed, an untouched save bans it.
- A bumped version is not newer for strings with a leading "v" at or above 1.0.0, since the parser
  tolerates the "v" and the bump does not, nor at the largest 64-bit patch number.
- Prereleases compare lexicographically, unlike section 11 of Semantic Versioning 2.0.0; the order is
  still strict and total.
- The diff does not say whether an added property is required. It never compares an agent's configuration,
  work configuration, trigger, schedule, dispatch or appearance, nor an object type's board flag and
  statuses (blueprints.go:16-40, 420-431, 882-1022): versions that differ only there read as unchanged.
- The comment on the available list excludes what is applied "by blueprint id or name+version"
  (blueprints.go:77-81); the code looks at the id only when the name is not applied, and at a matching
  name excludes every version that is not strictly newer.
- A list call that fails inside a push is not retried: the stream falls quiet on an error board, and stays
  on it until another event arrives.
- When the upstream body ends, or a line outgrows the reader's buffer, the reader returns without telling the
  loop (board_stream.go:188-210): the connection goes on with heartbeats and never shows another change. On
  shutdown too only the body is closed (board_stream.go:89-97), so the stream does not end promptly as the
  comment on the channel says (handlers.go:40-42).
- The upstream reader trims field values and ignores fields without a colon; it agrees with the WHATWG
  reading of a line exactly when the line is tidy. It does not drop a byte order mark in front of the body,
  so an event right behind one is missed.
- A stored prompt, status or variable with a carriage return inside does not survive its text box: the browser
  makes it a line end.
- A plain login does not touch the registry, so it can leave the active account cached as well.
- The model review is enforced by the pages: a confirm form posted without its markers skips it, and
  without a merge the handlers never read the reviewed marker.
- The health signature is not the readout it stands for: it caps counts at nine (board_stream.go:305) where
  the readout prints them in full (board.templ:87), so an enabled agent's tenth failure is not sent; and it
  counts the failures of disabled agents, which the readout does not print, so those are sent for nothing.
  It also collides when an agent name contains NUL.
- Where no capability group renders, the page draws plain source lists (agent.templ:1133-1155), which show no
  tool for being banned; an untouched save keeps its ban all the same.
- Writing the session cookie may shed the id token; nothing else is lost by switching accounts.

## Model

| member | source | states |
|---|---|---|
| ChatGroups.ConversationRoot | apps/web-ui/gateway/chat_groups.go:142-167 | terminates for every parent map (missing parents, self-parents, cycles); for a conversation of the page it finds the least id of the cycle its parent chain ends in, a conversation without a visible parent counting as a cycle of one, and the number of hops to its first occurrence |
| ChatGroups.RootUnique | apps/web-ui/gateway/chat_groups.go:142-167 | root and depth are determined by the parent map |
| ChatGroups.ParentSharesRoot | apps/web-ui/gateway/chat_groups.go:142-167 | a conversation and its visible parent have the same root, the parent one level up |
| ChatGroups.RootShape | apps/web-ui/gateway/chat_groups.go:142-167 | a root has no visible parent or is the smallest id of a cycle of real parent links; depth 0 exactly for the root |
| ChatGroups.CycleRoot | apps/web-ui/gateway/chat_groups.go:152-162 | the entry found by `seen` and the least id from there on the path make the root of the cycle, whichever member the climb started from |
| ChatGroups.TopRoot | apps/web-ui/gateway/chat_groups.go:147-151 | a climb that ends at a conversation without a visible parent ends at its root |
| ChatGroups.SmallestFrom | apps/web-ui/gateway/chat_groups.go:153-160 | the smallest id of the cycle part of the path |
| ChatGroups.GroupConversations | apps/web-ui/gateway/chat_groups.go:67-135 | for a page of distinct ids: every group holds exactly the conversations rooted at its root, in spawn order with their depths; `latest` is the maximum over its members; expanded exactly for the active row; every conversation is in a group; groups newest first, ties by id |
| ChatGroups.FoldPage | apps/web-ui/gateway/chat_groups.go:82-107 | the folding loop keeps each group equal to the conversations seen so far that are rooted there |
| ChatGroups.FoldStep | apps/web-ui/gateway/chat_groups.go:82-107 | adding one conversation to the group of its root keeps every group right and every earlier conversation covered |
| ChatGroups.RenderGroups | apps/web-ui/gateway/chat_groups.go:109-128 | the sorted descendants and the expanded flag, for the root itself and for a descendant |
| ChatGroups.RailIsPermutation | apps/web-ui/gateway/chat_groups.go:67-135 | no conversation is dropped or repeated: the rail rows are a permutation of the page |
| ChatGroups.ActiveBranchOnly | apps/web-ui/gateway/chat_groups.go:112-127 | the expanded group is the one that holds the active conversation, and there is no other |
| ChatGroups.GroupingOrderFree | apps/web-ui/gateway/chat_groups.go:67-135 | two permutations of a page give the same output |
| ChatGroups.NewestGroupFirst | apps/web-ui/gateway/chat_groups.go:128-133 | of two groups the one with the larger `latest` stands first, on a tie the one with the smaller root id, and never otherwise |
| ChatGroups.NewerSubtreeFirst | apps/web-ui/gateway/chat_groups.go:128-133 | a group with a conversation newer than every conversation of another group stands above it, however old its root |
| ChatGroups.OldestRowFirst | apps/web-ui/gateway/chat_groups.go:112-118 | of two rows of a group the earlier created stands first, on a tie the smaller id |
| Tools.AgentDefinition.ApplyToolsSection | apps/web-ui/gateway/agent.go:510-571 | the new allowed list, banned list, policies and default of a save, whatever order the submitted keys come in |
| Tools.AgentDefinition.ApplyToolGroups | apps/web-ui/gateway/agent.go:602-629 | the enable/disable fan-out over the two lists, group by group, delegation tools excepted |
| Tools.ToolSelects | apps/web-ui/gateway/agent.go:539-560 | the per-tool selects, in any map order |
| Tools.GroupSelects | apps/web-ui/gateway/agent.go:583-600 | the group policy selects |
| Tools.SaveMembership | apps/web-ui/gateway/agent.go:510-629 | membership and ban of an ordinary tool after any save: the last toggled group that lists it decides, else its checkbox; an unchecked box lifts no ban |
| Tools.SaveBanManaged | apps/web-ui/gateway/agent.go:517-568 | `set_session_title` is never stored as allowed; its ban follows the last toggled group that lists it, else its box where the session group was rendered |
| Tools.SaveDisjoint | apps/web-ui/gateway/agent.go:510-629 | no save leaves a tool both allowed and banned |
| Tools.SaveKeepsUntouchedPolicies | apps/web-ui/gateway/agent.go:495-503 | a policy without a submitted control is kept verbatim |
| Tools.SaveDetermined | apps/web-ui/gateway/agent.go:510-629 | map iteration order is irrelevant: form and prior definition determine the result |
| Tools.SwitchedOffIsDenied | apps/web-ui/gateway/agent_tools.go:107-123 | after a save that switches a group off, with no later toggled group turning the tool back on, the tool is not granted, whatever globs are stored |
| Tools.SwitchedOnIsGranted | apps/web-ui/gateway/agent_tools.go:107-123 | a tool switched on is granted exactly when no ban glob and no policy is in the way |
| Tools.GroupDenyBlocks | apps/web-ui/gateway/agent_tools.go:125-150 | a stored group deny blocks every member whose first listing group it is and that has no entry of its own, never for "other" |
| Tools.FirstListing | apps/web-ui/gateway/agent_tools.go:142-150 | the owning group is the first that lists the tool |
| Tools.FanOutDecides | apps/web-ui/gateway/agent.go:602-629 | each list after the fan-out, tool by tool |
| Tools.SwitchDecides | apps/web-ui/gateway/agent.go:605-628 | on the form fields: if the last group that lists an ordinary tool, among those submitted with a switch unlike their baseline, is switched on, the tool is allowed and not banned; if off, banned and not allowed |
| Tools.CheckboxDecides | apps/web-ui/gateway/agent.go:512-513 | a tool no such group lists, and each delegation tool, is allowed exactly if its box is checked, and stays banned exactly if it was and its box is not |
| Tools.SessionTitleBan | apps/web-ui/gateway/agent.go:517-531 | the ban of `set_session_title` on the form fields: the last flipped group that lists it, else its box where the session group was rendered |
| Tools.SwitchedAndSaved | apps/web-ui/gateway/agent_tools.go:107-123 | end to end: after a save that flips a group, a member is granted if and only if the switch is on, no stored ban glob matches it and no policy blocks it |
| Tools.SelectWrites | apps/web-ui/gateway/agent.go:539-600 | what each value of a submitted tool or group select leaves stored |
| Tools.SelectDecidesGrant | apps/web-ui/gateway/agent_tools.go:129-131 | a tool saved with "deny" is not granted; one saved with "allow" or "ask" is granted exactly as the two lists say, whatever its group and the default |
| Tools.DefaultTrimmed | apps/web-ui/gateway/agent.go:514 | the default policy is stored without surrounding spaces |
| Tools.ToolWhitelistMatches | apps/web-ui/gateway/agent_tools.go:153-167 | the whitelist scan with its early returns |
| Tools.BannedToolMatches | apps/web-ui/gateway/agent_tools.go:173-186 | the ban scan |
| Tools.MergeToolGroupId | apps/web-ui/gateway/agent_tools.go:142-151 | the scan for the group that lists a tool |
| Tools.AgentToolBlockedByPolicy | apps/web-ui/gateway/agent_tools.go:125-135 | own entry, else group entry, else default |
| Tools.AgentToolGranted | apps/web-ui/gateway/agent_tools.go:107-118 | the resolver, for a missing definition too |
| Tools.MatchingEntryGrants | apps/web-ui/gateway/agent_tools.go:153-186 | with "*", the exact name or a matching glob on the whitelist, the tool is granted if and only if no ban entry names or matches it and no policy blocks it |
| Tools.NoEntryNoGrant | apps/web-ui/gateway/agent_tools.go:153-167 | without such an entry it is not granted; a stored text without glob characters is only a name |
| Tools.WiderGrantsMore | apps/web-ui/gateway/agent_tools.go:107-118 | allowing more and banning less takes no grant away |
| Tools.PolicyPrecedence | apps/web-ui/gateway/agent_tools.go:125-151 | the tool's own entry decides; else that of the first group that lists it, unless it is "other"; else the default, which blocks if it spells "deny" in any case |
| Slices.RemoveItems | apps/web-ui/gateway/memory.go:840-854 | order-preserving difference, compacted in place |
| Slices.AppendUnique | apps/web-ui/gateway/memory.go:823-837 | append what is missing, in order |
| ToolPicker.BuildToolPickerView | apps/web-ui/gateway/agent.go:1112-1241 | the four blocks, each claiming what no earlier block rendered |
| ToolPicker.CapabilityGroups | apps/web-ui/gateway/agent.go:1141-1194 | the capability groups; `claimed` is always exactly the set of names rendered so far |
| ToolPicker.ServerBlocks | apps/web-ui/gateway/agent.go:1196-1216 | the external server blocks, claiming as they go |
| ToolPicker.RelayBlocks | apps/web-ui/gateway/agent.go:1218-1237 | the relay blocks, claiming as they go |
| ToolPicker.UnclaimedRows | apps/web-ui/gateway/agent.go:1247-1284 | the rows of one server or relay: its names not yet claimed, once each, in order |
| ToolPicker.GroupRows | apps/web-ui/gateway/agent.go:1153-1180 | the rows of one capability group: builtin catalogue members, then native members no source offers |
| ToolPicker.UncoveredRows | apps/web-ui/gateway/agent.go:1333-1365 | the fallback rows: allowed, banned and builtin names no block claimed |
| ToolPicker.ExternalOwned | apps/web-ui/gateway/agent.go:1120-1136 | the names owned by external servers and relays |
| ToolPicker.BuiltinDistinct | apps/web-ui/gateway/agent.go:1141-1194 | the capability groups show a name exactly when one of them, alone, would |
| ToolPicker.ServerDistinct | apps/web-ui/gateway/agent.go:1196-1216 | the server blocks show exactly the unclaimed external catalogue, once |
| ToolPicker.RelayDistinct | apps/web-ui/gateway/agent.go:1218-1237 | the relay blocks show exactly the unclaimed relay catalogue, once |
| ToolPicker.RendersAtMostOnce | apps/web-ui/gateway/agent.go:1102-1241 | no tool renders twice across Built-in, Servers, Relays and Other |
| ToolPicker.RendersEveryTool | apps/web-ui/gateway/agent.go:1239-1365 | every ordinary tool that is allowed, banned or in the builtin catalogue is in the four blocks |
| ToolPicker.UnlistedTools | apps/web-ui/gateway/agent.go:904-926 | the allowed tools no server or relay offers, in stored order |
| ToolPicker.FirstGroupShows | apps/web-ui/gateway/agent.go:1141-1194 | the group blocks are a subsequence of the catalog in its order, none empty; a tool renders in the first group that would show it alone |
| ToolPicker.FirstServerShows | apps/web-ui/gateway/agent.go:1196-1216 | the server blocks are a subsequence of the external servers, under their names, none empty; a tool several of them offer renders in the first one's block |
| ToolPicker.FirstRelayShows | apps/web-ui/gateway/agent.go:1218-1237 | the relay blocks likewise, under their instance names |
| ToolPicker.GroupRowOrder | apps/web-ui/gateway/agent.go:1153-1180 | a group lists its builtin catalogue members first, in catalogue order, then its native ones, in group order |
| ToolPicker.FreshInOrder | apps/web-ui/gateway/agent.go:1247-1284 | rows keep the order in which their source first lists them |
| ToolPicker.OtherInOrder | apps/web-ui/gateway/agent.go:1333-1365 | the fallback rows: allowed tools, then banned ones, then the rest of the builtin catalogue |
| ToolPicker.HeaderShows | apps/web-ui/gateway/agent.go:1148-1188 | a group header shows the server-computed policy, else the stored entry, else "inherit" |
| ToolRoundTrip.UntouchedKeepsTools | apps/web-ui/gateway/agent.go:510-629 | rendering the Tools page, in blocks or plain, and submitting it unchanged keeps every ordinary tool in or out of the allowed list |
| ToolRoundTrip.PlainPageShows | apps/web-ui/gateway/agent.templ:1133-1155 | the page drawn when no capability group renders shows an ordinary tool if and only if it is allowed or some source offers it |
| ToolRoundTrip.UntouchedKeepsBans | apps/web-ui/gateway/agent.go:510-629 | with disjoint lists the banned list survives, element for element, if and only if the session group is not shown, or is shown with the row that carries its ban, or that tool is stored as banned or allowed anyway |
| ToolRoundTrip.SessionListed | apps/web-ui/gateway/agent.go:517-531 | that condition holds whenever the session group lists the builtin and no external source offers it |
| ToolRoundTrip.UntouchedKeepsPolicyValues | apps/web-ui/gateway/agent.go:956-973 | no tool or group select changes its value |
| ToolRoundTrip.UntouchedRewritesEntry | apps/web-ui/gateway/agent.go:547-556 | a stored policy record, a tool's or a group's, comes back if and only if no select rewrites it or it has no message and is not confirm beside disabled |
| ToolRoundTrip.MessageIsLost | apps/web-ui/gateway/agent.go:547-556 | a page whose untouched save drops an approval message |
| ToolRoundTrip.MissingRowBans | apps/web-ui/gateway/agent.go:523-531 | a page whose untouched save bans set_session_title |
| ToolRoundTrip.UntouchedGrants | apps/web-ui/gateway/agent_tools.go:107-190 | what an untouched save does to any ordinary tool, whatever is stored and for every glob semantics: it loses no grant; under any stored "*", exact name or matching glob it is granted afterwards if and only if no ban entry that is not also allowed names or matches it and no deny on it outlives the save |
| ToolRoundTrip.UntouchedKeepsGrants | apps/web-ui/gateway/agent_tools.go:107-190 | so with disjoint lists, and no default deny in another spelling, it is granted afterwards exactly when it was before |
| ToolRoundTrip.MisspelledDenyGrants | apps/web-ui/gateway/agent_tools.go:134 | a default stored as "Deny" is read as a deny, cannot be shown, and is saved as "allow": the untouched save grants what it denied |
| ToolRoundTrip.UntouchedDefault | apps/web-ui/gateway/agent.templ:848-852 | a default the page can show survives, any other becomes "allow"; what it blocks survives if and only if it is "deny" itself or does not read as deny |
| ToolRoundTrip.NothingToggled | apps/web-ui/gateway/agent.go:607-612 | the untouched form toggles no group |
| ToolRoundTrip.SubmittedPolicy | apps/web-ui/gateway/agent.templ:1416-1442 | a per-tool select is submitted exactly for the checked rows that draw one, with the stored value |
| ToolRoundTrip.SubmittedGroup | apps/web-ui/gateway/agent.templ:1211-1292 | each rendered group submits its baseline, its switch and (unless "other") its policy, once |
| ToolRoundTrip.DecodeMeans | apps/web-ui/gateway/agent.go:511 | the decoded form holds exactly the submitted pairs |
| ToolRoundTrip.InheritOptionKeepsOverride | apps/web-ui/gateway/agent.templ:1526-1557 | setting any checked row of any page to its Inherit option and saving leaves the stored override in place, so it is gone afterwards only if there was none |
| ToolRoundTrip.DenyOutlivesInherit | apps/web-ui/gateway/agent.templ:1545-1557 | a page on which a stored "deny" outlives that choice |
| ToolRoundTrip.SelectReads | apps/web-ui/gateway/agent.go:547-556 | "" keeps an entry, only "inherit" deletes it |
| ToolRoundTrip.UntouchedLiftsConflictingBan | apps/web-ui/gateway/agent.go:512-513 | an ordinary tool stored on both lists loses its ban to an untouched save |
| BoardStream.RunKeepsInv | apps/web-ui/gateway/board_stream.go:120-159 | every interleaving of publishing, draining, ticking, pushing and ending keeps the stream invariant |
| BoardStream.NoLostRefresh | apps/web-ui/gateway/board_stream.go:120-159 | a signalled event that no later list call covers is still in the slot, in `pending` or in a push about to list; pushes never exceed ticks or signals |
| BoardStream.QuietIsFresh | apps/web-ui/gateway/board_stream.go:120-159 | when nothing is queued every published change is covered, and the client shows them all if and only if the last list call succeeded, else an error board |
| BoardStream.FailedListIsNotRetried | apps/web-ui/gateway/board_stream.go:231-247 | a run in which a failed list call leaves a quiet stream on an error board |
| BoardStream.QuietStays | apps/web-ui/gateway/board_stream.go:120-159 | from a quiet stream on, nothing but another event changes the screen, however long it runs |
| BoardStream.Settles | apps/web-ui/gateway/board_stream.go:120-159 | a decreasing measure: while the stream is not quiet a working step is possible after at most one tick if and only if the reader lives or something is queued or being pushed, and every one brings it nearer |
| BoardStream.DeadReaderFreezes | apps/web-ui/gateway/board_stream.go:184-210 | once the upstream reader is gone and nothing is queued, no number of events, ticks or other steps changes the screen |
| BoardStream.DeadReaderFallsBehind | apps/web-ui/gateway/board_stream.go:127-159 | a run in which the reader ends, an event is published, and no step is left that could bring the screen up to date |
| BoardStream.SelectLoop | apps/web-ui/gateway/board_stream.go:122-159 | the loop pushes on a tick that follows a signal, else beats when nothing was written for the heartbeat interval |
| BoardStream.NeverSilent | apps/web-ui/gateway/board_stream.go:136-158 | a tick that writes nothing comes less than the heartbeat interval after the start or some write; a heartbeat comes at least that long after the last write |
| BoardStream.LoopMakesTheSteps | apps/web-ui/gateway/board_stream.go:122-159 | over whatever a run of the protocol lets it receive, the loop pushes as often as the protocol does |
| BoardDrain.BoardStreamDrain | apps/web-ui/gateway/board_stream.go:184-210 | the upstream scanner signals, in order, the relevant events of its own reading |
| BoardDrain.OneEventSignalled | apps/web-ui/gateway/board_stream.go:46-60 | an event is signalled if and only if its name is one of the six entity events and its entity is "graph_object" or "agent_run" |
| BoardDrain.SignalsRelevantEvents | apps/web-ui/gateway/board_stream.go:184-210 | on a body whose lines are tidy and whose first line is no field behind a byte order mark, that reading signals exactly the relevant events of the stream as sections 9.2.5 and 9.2.6 of the WHATWG HTML Standard read it, complete or cut off |
| BoardDrain.BomIsExact | apps/web-ui/gateway/board_stream.go:188-199 | behind a byte order mark the two readings take the same step on a line if and only if it is no event or data field |
| BoardDrain.BomHidesFirstEvent | apps/web-ui/gateway/board_stream.go:199-200 | a mark in front of an event makes the reader miss it |
| BoardDrain.TidyIsExact | apps/web-ui/gateway/board_stream.go:199-207 | a line is tidy if and only if the two readings take the same step on it from every buffer |
| BoardDrain.UntidyEventSignalled | apps/web-ui/gateway/board_stream.go:199-200 | a body on which they part: an event name ending in a space is signalled by the reader and irrelevant by the Standard |
| BoardDrain.SameLine | apps/web-ui/gateway/board_stream.go:185-189 | the scanner and the Standard split lines alike where carriage returns only precede line feeds |
| Sse.WriteSsePartial | apps/web-ui/gateway/board_stream.go:314-340 | one `data:` line per line of the hx-partial directive, then a blank line |
| Sse.FrameSurvives | apps/web-ui/gateway/board_stream.go:311-340 | read back by the Standard, a frame is exactly one event whose data is the directive, if and only if it contains no carriage return |
| Sse.FrameReads | apps/web-ui/gateway/board_stream.go:311-340 | blank lines and leading spaces inside the fragment survive, and the stream goes on cleanly behind the frame |
| Sse.FrameNames | apps/web-ui/gateway/board_stream.go:314-340 | target and swap style, without quotes in them, read back from the frame as the two attributes in that order, and the markup behind them to the letter |
| Sse.StreamReads | apps/web-ui/gateway/board_stream.go:148-155 | everything a connection carries reads back as exactly its frames, in order, heartbeats invisible |
| Sse.HeartbeatReads | apps/web-ui/gateway/board_stream.go:152 | a heartbeat is a comment: it dispatches nothing and disturbs nothing |
| Sse.DataLacksCr | apps/web-ui/gateway/board_stream.go:311-313 | no event of any stream carries a carriage return |
| BoardHealth.BoardHealthSignature | apps/web-ui/gateway/board_stream.go:295-309 | the signature of the unhealthy reaction agents |
| BoardHealth.ReadoutMeans | apps/web-ui/gateway/board.go:345-353 | the readout names exactly the reaction agents that are disabled, and those enabled that failed at least once, with their whole count |
| BoardHealth.ReadoutInOrder | apps/web-ui/gateway/board.go:345-353 | in the order of the agents |
| BoardHealth.EntriesIdentify | apps/web-ui/gateway/board_stream.go:290-309 | when no name contains NUL, equal signatures mean the same names, enabled flags and counts capped at nine, entry by entry, and nothing more |
| BoardHealth.LabelsTell | apps/web-ui/gateway/board.templ:83-90 | the text of a badge (disabled without a count, or the whole count) determines the badge |
| BoardHealth.StaleExactly | apps/web-ui/gateway/board_stream.go:264-267 | of two fetches with one signature, of which only the first was sent, the client is right if and only if they agree at every enabled agent whose digit is 9 |
| BoardHealth.TenthFailureUnseen | apps/web-ui/gateway/board_stream.go:305 | an enabled agent going from nine failures to ten keeps its signature but not its readout |
| BoardHealth.ResentExactly | apps/web-ui/gateway/board_stream.go:264-267 | an unchanged readout keeps its signature if and only if the capped counts of the disabled agents agree; else it is sent again |
| BoardHealth.DisabledFailureResent | apps/web-ui/gateway/board.templ:84-86 | a disabled agent going from three failures to four changes the signature and not the readout |
| BoardHealth.NulNamesCollide | apps/web-ui/gateway/board_stream.go:295-309 | with NUL in a name two different readouts share a signature |
| BoardHealth.HealthState.PushHealth | apps/web-ui/gateway/board_stream.go:253-279 | a failed fetch sends and forgets nothing; after a successful one the client shows it if and only if a frame went out or the nines agree; a frame is wasted exactly when only counts of disabled agents changed |
| Versions.ParseVersionCore | apps/web-ui/gateway/blueprints.go:283-300 | the three-number core, or failure |
| Versions.NewerStrictTotal | apps/web-ui/gateway/blueprints.go:250-278 | "newer" is a strict total order on all strings |
| Versions.NewerTransitive | apps/web-ui/gateway/blueprints.go:250-278 | across parsed and unparsed versions, releases and prereleases |
| Versions.NumbersDecide | apps/web-ui/gateway/blueprints.go:262-266 | of two parsed versions the one with the larger major is newer whatever follows; then minor; then patch |
| Versions.PrereleaseDecides | apps/web-ui/gateway/blueprints.go:267-277 | on the same numbers a release is newer than each of its prereleases, two prereleases compare as strings, and equal ones by the whole string |
| Versions.ParsedIsNewer | apps/web-ui/gateway/blueprints.go:256-261 | a parsed version is newer than an unparsed text; two unparsed texts compare as strings |
| Versions.NextVersion | apps/web-ui/gateway/blueprints.go:328-352 | the bumped version, with the wrap-around of a 64-bit int |
| Versions.RenderParses | apps/web-ui/gateway/blueprints.go:283-352 | a rendered version parses back to its three numbers |
| Versions.SuffixedParses | apps/web-ui/gateway/blueprints.go:283-315 | a rendered version with a prerelease and build data behind it keeps its numbers, and its prerelease is what stands between the dash and the plus |
| Versions.ScanSeesCore | apps/web-ui/gateway/blueprints.go:328-352 | on a parseable version without a leading "v" the digit scan finds the parsed core |
| Versions.NextBumpsPatch | apps/web-ui/gateway/blueprints.go:328-352 | on a version without a leading "v", below the largest patch, the bump adds one to the patch, keeps major and minor and drops what follows |
| Versions.NextPads | apps/web-ui/gateway/blueprints.go:317-352 | missing components count as zero, and what does not begin with a digit becomes 1.0.0 |
| Versions.NextIsNewer | apps/web-ui/gateway/blueprints.go:328-352 | below the largest int, the bumped version is newer if and only if the string has no leading "v" after trimming or is below 1.0.0 |
| Versions.VersionTwoFallsBack | apps/web-ui/gateway/blueprints.go:328-352 | "v2.0.0" is bumped to "1.0.0", which is not newer |
| Versions.NextAtOverflow | apps/web-ui/gateway/blueprints.go:328-352 | at the largest patch the bump no longer parses, and is newer if and only if the string does not parse either and sorts before it |
| Versions.LargestPatchFallsBack | apps/web-ui/gateway/blueprints.go:328-352 | 1.0.9223372036854775807 is bumped to something not newer |
| BlueprintList.BuildAvailableList | apps/web-ui/gateway/blueprints.go:82-126 | name-sorted, one item per name, exactly the items that are to be listed, in any map order |
| BlueprintList.LatestIsGreatest | apps/web-ui/gateway/blueprints.go:90-98 | each published name holds its greatest non-draft version |
| BlueprintList.ListedForAReason | apps/web-ui/gateway/blueprints.go:100-123 | a listed item is the greatest version of its name, and is unapplied or strictly newer than the applied version |
| BlueprintList.OmittedForAReason | apps/web-ui/gateway/blueprints.go:100-109 | the greatest version of a name is listed if and only if it is newer than the applied one, or neither name nor id is applied |
| BlueprintList.ListOrderFree | apps/web-ui/gateway/blueprints.go:82-126 | independent of record order when no (name, version) pair repeats |
| BlueprintList.LargestMajorListed | apps/web-ui/gateway/blueprints.go:82-126 | of a name whose published record r has the largest major, nothing but r is listed: as an install when neither name nor id is applied, as an upgrade when the applied majors are smaller, not at all when that version is applied |
| BlueprintList.TieKeepsFirst | apps/web-ui/gateway/blueprints.go:90-102 | of records with one name and version the first one stands |
| BlueprintList.LastAppliedCounts | apps/web-ui/gateway/blueprints.go:83-88 | of several applied rows of one name the last one counts |
| BlueprintList.NamesAscend | apps/web-ui/gateway/blueprints.go:124-125 | the list is in name order, each name once |
| BlueprintDiff.DiffBlueprintDetails | apps/web-ui/gateway/blueprints.go:1026-1040 | the three sections of the comparison, a missing side being empty |
| BlueprintDiff.DiffProperties | apps/web-ui/gateway/blueprints.go:850-878 | one property row per name of either side, sorted |
| BlueprintDiff.DiffObjectTypes | apps/web-ui/gateway/blueprints.go:882-910 | one object-type row per name of either side, with its property rows |
| BlueprintDiff.DiffRelationshipTypes | apps/web-ui/gateway/blueprints.go:922-948 | one relationship row per name of either side |
| BlueprintDiff.DiffAgents | apps/web-ui/gateway/blueprints.go:990-1022 | one agent row per name of either side |
| BlueprintDiff.UnionNames | apps/web-ui/gateway/blueprints.go:819-832 | the names of both sides, sorted, once each, in any map order |
| BlueprintDiff.ChipDiffOf | apps/web-ui/gateway/blueprints.go:953-975 | the sorted chips only one side has |
| BlueprintDiff.LastNameStands | apps/web-ui/gateway/blueprints.go:851-858 | of two entries of one side with one name the later one is compared |
| BlueprintDiff.PropertyBadges | apps/web-ui/gateway/blueprints.go:770-878 | every cell and the badge of a property row: the side it is missing on, else both texts and whether they differ |
| BlueprintDiff.TypeBadges | apps/web-ui/gateway/blueprints.go:882-910 | the same of an object-type row, changed when a text or a property row differs |
| BlueprintDiff.RelationshipBadges | apps/web-ui/gateway/blueprints.go:922-948 | the same of a relationship row |
| BlueprintDiff.AgentBadges | apps/web-ui/gateway/blueprints.go:990-1022 | the same of an agent row, changed when a text or a chip list differs |
| BlueprintDiff.RowsByName | apps/web-ui/gateway/blueprints.go:819-832 | the rows of every section are in name order |
| BlueprintPatch.DiffRebuildsTarget | apps/web-ui/gateway/blueprints.go:1026-1040 | read as a patch on the base, the diff rebuilds the target on every compared field except the required flag of an added property |
| BlueprintPatch.DiffDeterminesTarget | apps/web-ui/gateway/blueprints.go:1026-1040 | two targets with the same diff agree on everything it can show |
| BlueprintPatch.SamePropertyRows | apps/web-ui/gateway/blueprints.go:850-878 | property rows coincide if and only if the targets agree on what the base lets the rows show |
| BlueprintPatch.AddedPropertyHidesRequired | apps/web-ui/gateway/blueprints.go:792-803 | an added property shows the same row whether required or not |
| BlueprintPatch.NoChangeMeansEqual | apps/web-ui/gateway/blueprints.go:770-1040 | every row reads unchanged if and only if the two versions agree on every compared field |
| BlueprintPatch.UncomparedChangesUnseen | apps/web-ui/gateway/blueprints.go:882-1022 | a version that changes only an uncompared field of a type or an agent reads unchanged |
| BlueprintPatch.DiffMirrors | apps/web-ui/gateway/blueprints.go:770-1040 | swapping the versions swaps Added with Removed and Before with After throughout |
| BlueprintPatch.PropertiesRebuilt | apps/web-ui/gateway/blueprints.go:850-878 | the property rows rebuild the target properties |
| BlueprintPatch.PropertiesUnchanged | apps/web-ui/gateway/blueprints.go:836-878 | some property row differs if and only if the property tables do |
| BlueprintPatch.ChipsPatched | apps/web-ui/gateway/blueprints.go:953-975 | chips rebuild a list as a set, and are empty if and only if the sets are equal |
| Accounts.AccountRegistry.Put | apps/web-ui/gateway/account.go:61-76 | the registry as a map from install to map from sub: insert or replace, other installs untouched |
| Accounts.AccountRegistry.Remove | apps/web-ui/gateway/account.go:80-98 | the in-place compaction deletes one sub and drops an empty install |
| Accounts.AccountRegistry.Get | apps/web-ui/gateway/account.go:101-113 | lookup in that map |
| Accounts.AccountRegistry.List | apps/web-ui/gateway/account.go:49-58 | the accounts of one install, each sub once |
| Accounts.OidcCallback | apps/web-ui/gateway/account.go:173-192 | an add-account or login callback moves browser and registry as the abstract event does |
| Accounts.AuthSwitch | apps/web-ui/gateway/account.go:198-233 | a switch moves browser and registry as the abstract event does |
| Accounts.SetSessionCookie | apps/web-ui/gateway/auth.go:95-106 | every claim reaches the cookie unchanged but the id token, which is shed exactly when the signed claims would be too large with it |
| Accounts.RunKeepsAccounts | apps/web-ui/gateway/account.go:167-233 | over any run of add-account callbacks and switches with a verifiable session, the known accounts are those known before and those added; the active one is never cached |
| Accounts.RotationKeepsCredentials | apps/web-ui/gateway/account.go:116-163 | rotation carries credentials unchanged; only a missing email may be filled in |
| Accounts.SwitchAndBack | apps/web-ui/gateway/account.go:116-233 | switching away and back restores session and registry, but for id tokens shed by the two cookies |
| Accounts.ActivationShedsIdTokenOnly | apps/web-ui/gateway/account.go:223-233 | the account being made active, without a refresh, keeps everything but an id token the cookie has no room for |
| Accounts.SwitchActivates | apps/web-ui/gateway/account.go:223-233 | field by field, what a switch makes active: the refreshed claims when the account has a refresh token, expires within five minutes and the refresh succeeds, else what was cached for it |
| Accounts.SwitchCaches | apps/web-ui/gateway/account.go:217-222 | field by field, what it caches for the account it leaves, with the profile's email where it had none |
| Accounts.SwitchLosesOnlyExpired | apps/web-ui/gateway/account.go:217-223 | a switch loses an account if and only if it succeeds on a session cookie that no longer verifies |
| Accounts.LoginSkipsRegistry | apps/web-ui/gateway/account.go:182-191 | a plain login breaks the invariant if and only if the account was cached |
| Accounts.TwoAccountsGoWrong | apps/web-ui/gateway/account.go:167-233 | a browser with two accounts in which a switch on an expired cookie loses one and a plain login leaves one both active and cached |
| Accounts.LogoutForgetsOne | apps/web-ui/gateway/oidc.go:553-566 | logging out forgets the active account and no other |
| Accounts.LogoutUncaches | apps/web-ui/gateway/oidc.go:553-566 | of an account that is active and cached, logging out keeps no copy if and only if the session cookie still verifies; every other account stays |
| RecentProjects.RecordRecentProject | apps/web-ui/gateway/auth.go:276-301 | one activation: moved to the front, cut to eight, other accounts untouched, no-op cases |
| RecentProjects.RunKeepsLatest | apps/web-ui/gateway/auth.go:276-301 | after any activations by any accounts, each list is the first eight distinct ids of the reversed history |
| RecentProjects.TakeCommutes | apps/web-ui/gateway/auth.go:292-295 | cutting before or after an activation makes no difference |
| RecentProjects.LatestFirstMeans | apps/web-ui/gateway/auth.go:272-295 | that order lists each activated project once |
| RecentProjects.LatestFirstOrder | apps/web-ui/gateway/auth.go:272-295 | and sorts by last activation |
| Wizard.StartInstallFlow | apps/web-ui/gateway/blueprints_handlers.go:315-350 | the install step: preview, conflict page, review page or apply |
| Wizard.StartImportFlow | apps/web-ui/gateway/blueprints_handlers.go:416-466 | the import step, which previews even when merging |
| Wizard.ConfirmHandler | apps/web-ui/gateway/blueprints_handlers.go:356-408 | what a posted confirm form does |
| Wizard.ApplyBlueprintUpdate | apps/web-ui/gateway/blueprints_handlers.go:583-617 | the update step |
| Wizard.BuildModelMapRows | apps/web-ui/gateway/blueprints_handlers.go:139-168 | one review row per agent that pins a model |
| Wizard.ApplyModelOverridesToRows | apps/web-ui/gateway/blueprints_handlers.go:174-184 | posted choices written over the rows in place |
| Wizard.ApplyIsGuarded | apps/web-ui/gateway/blueprints_handlers.go:268-522 | any request applies at most once, last, and what it names; without merge only after its own clean preview, with merge only if it posted the confirmation |
| Wizard.MergedOnlyIfShown | apps/web-ui/gateway/blueprints_conflict.templ:77-103 | in any run through the rendered pages, a merge is preceded by the conflict page of the same source |
| Wizard.PinnedModelsReviewed | apps/web-ui/gateway/blueprints_model_map.templ:60-100 | in any such run, a source whose manifest pins models is applied only in answer to its review page |
| Wizard.AppliesExactly | apps/web-ui/gateway/blueprints_handlers.go:356-408 | of a source whose manifest pins models, any request applies if and only if it confirms a merge with the reviewed marker, or confirms without a merge and its own preview is clean |
| Wizard.AppliesIff | apps/web-ui/gateway/blueprints_handlers.go:268-522 | every request, on its fields and the backend's answers, applies if and only if it goes through: with no pinned model an install or update when the merge is confirmed or its preview clean, an import when its preview did not fail, its manifest is readable and the merge is confirmed or the preview clean; a posted confirm by its own rules; a missing source never. Its last call then applies the named source with the posted choices and merge flag |
| Wizard.ShowsExactly | apps/web-ui/gateway/blueprints_handlers.go:315-466 | every request shows the conflict page exactly for an unconfirmed collision, with the posted choices, and the review page exactly when it is past that gate, unreviewed, and the manifest pins a model |
| Wizard.ReviewsPinnedAgents | apps/web-ui/gateway/blueprints_handlers.go:139-184 | one review row per pinned agent, preselecting the posted choice, else the saved one, else the pinned model if it can be served |
| Wizard.MarkerSpellings | apps/web-ui/gateway/blueprints_handlers.go:247-254 | a marker is "1", or "true", "on" or "yes" in any case, in any spaces, and nothing else |
| Wizard.ReviewedMarkUnread | apps/web-ui/gateway/blueprints_handlers.go:472-522 | without a merge the reviewed marker has no effect at all |
| Wizard.BareConfirmSkipsReview | apps/web-ui/gateway/blueprints_handlers.go:356-408 | so a confirm posted without markers, whatever choices it carries, applies without a review |
| Wizard.ChoicesSurviveConflict | apps/web-ui/gateway/blueprints_conflict.templ:96-101 | choices posted into a late collision are applied or pre-selected after the merge is confirmed |
| Wizard.PostedChoiceIsPreselected | apps/web-ui/gateway/blueprints_handlers.go:174-184 | a posted model choice is the one pre-selected on the review page that comes back |
| Wizard.ConflictPageIsEarned | apps/web-ui/gateway/blueprints_handlers.go:315-350 | a conflict page is shown only by a request that previewed the collision and applied nothing |
| WorkText.ParseRuleTriggers | apps/web-ui/gateway/agent_work.go:208-224 | the triggers of a text box, line by line |
| WorkText.RuleTriggersText | apps/web-ui/gateway/agent_work.go:343-354 | the text of a trigger list |
| WorkText.TriggersReadBack | apps/web-ui/gateway/agent_work.go:208-224 | parsing inverts printing on well-formed triggers; a prompt may contain "&#124;" |
| WorkText.TriggersStable | apps/web-ui/gateway/agent_work.go:343-354 | for every text, parse after print after parse is parse |
| WorkText.TriggersSubmitted | apps/web-ui/gateway/agent_work.go:208-224 | shown in the box and submitted by a browser, with its line ends, well-formed triggers come back if and only if none contains a carriage return |
| WorkText.TriggersResubmitted | apps/web-ui/gateway/agent_work.go:208-224 | whatever a browser once submitted, submitting the box again changes nothing |
| WorkText.ParseRuleTransitions | apps/web-ui/gateway/agent_work.go:226-243 | the transitions of a text box |
| WorkText.RuleTransitionsText | apps/web-ui/gateway/agent_work.go:356-362 | the text of a transition list |
| WorkText.TransitionsReadBack | apps/web-ui/gateway/agent_work.go:226-243 | parsing inverts printing on well-formed transitions; a target may contain "->" |
| WorkText.TransitionsStable | apps/web-ui/gateway/agent_work.go:356-362 | for every text, parse after print after parse is parse |
| WorkText.TransitionsSubmitted | apps/web-ui/gateway/agent_work.go:226-243 | through the browser well-formed transitions come back if and only if none contains a carriage return |
| WorkText.TransitionsResubmitted | apps/web-ui/gateway/agent_work.go:226-243 | whatever a browser once submitted, submitting the box again changes nothing |
| WorkText.BoxesConcat | apps/web-ui/gateway/agent_work.go:208-243 | lines are read one by one: the rules of two texts joined by a line end are those of the first and then those of the second, so a line without a rule loses no other |
| WorkText.ParseEnvVars | apps/web-ui/gateway/agent.go:1777-1792 | the environment box: KEY=VALUE lines, the first bad line or git-token key being the answer |
| WorkText.EnvRefusals | apps/web-ui/gateway/agent.go:1777-1792 | what one line does after accepted ones: without "=" or with a blank key the box is refused as no key-value text, a git-token key in any case refuses it as reserved, any other key takes the trimmed value |
| WorkText.SandboxEnvVars | apps/web-ui/gateway/agent.go:1877-1891 | the sorted lines of a variable map, in any map order |
| WorkText.EnvReadsBack | apps/web-ui/gateway/agent.go:1777-1792 | parsing inverts printing on well-formed maps |
| WorkText.EnvStable | apps/web-ui/gateway/agent.go:1877-1891 | the text shown for an accepted box is accepted and means the same |
| WorkText.EnvSubmitted | apps/web-ui/gateway/agent.go:1777-1792 | through the browser a well-formed environment comes back if and only if none of its keys and values contains a carriage return |
| WorkText.EnvResubmitted | apps/web-ui/gateway/agent.go:1777-1792 | an accepted box a browser submitted is accepted again with the same meaning |
| BoardLanes.BuildBoardColumns | apps/web-ui/gateway/board.go:315-341 | the lanes: declared statuses, then item-only ones sorted, each with its items in input order |
| BoardLanes.BuildBoardSwimlanes | apps/web-ui/gateway/board.go:270-296 | the rows: compiled types that have items, then item-only types sorted |
| BoardLanes.BoardLanesForType | apps/web-ui/gateway/board.go:244-259 | the declared statuses, de-duplicated, or the default order |
| BoardLanes.GroupBy | apps/web-ui/gateway/board.go:271-274 | append-by-key groups the items of each key in input order |
| BoardLanes.LanesConserve | apps/web-ui/gateway/board.go:315-341 | the lanes of one type show each item once if and only if no declared status an item has is declared twice |
| BoardLanes.RowsOk | apps/web-ui/gateway/board.go:270-296 | every row carries exactly the items of its type, in the lane of their status, in input order, with `Count` the lane total |
| BoardLanes.BoardConserves | apps/web-ui/gateway/board.go:270-296 | the board is a permutation of the items if and only if no type that has items is compiled onto it twice |
| BoardLanes.BoardStatusesFromCompiled | apps/web-ui/gateway/board.go:202-223 | the lane order of the served board: the statuses of the visible board types, first seen first, without repeats |
| BoardLanes.ServedBoardConserves | apps/web-ui/gateway/board.templ:112 | the served board shows every item exactly once, in a lane of its own status, in input order, whatever is compiled |
| BoardLanes.LaneOrder | apps/web-ui/gateway/board.go:14-17 | lanes from left to right: the declared statuses or the six default ones in their order, then item-only statuses alphabetically; every item is in one |
| BoardLanes.LaneNamesInOrder | apps/web-ui/gateway/board.go:244-259 | a type's lanes stand in the order its statuses are first declared |
| BoardLanes.RowOrder | apps/web-ui/gateway/board.go:270-296 | rows from top to bottom: compiled types that have items, in their order, then item-only types alphabetically |
| BoardLanes.BoardTypesSorted | apps/web-ui/gateway/board.go:228-240 | the visible board-enabled types, in the order of their lower-cased names |
| BoardLanes.BlocksConserve | apps/web-ui/gateway/board.go:315-341 | blocks by key conserve the items if and only if each item key occurs once among the blocks |

## Left out

- HTTP routing, rendering, JSON codecs, cookie signing and all backend calls: their answers are parameters.
- Labels, descriptions, icons and open/closed state of picker rows.
- Tools.AgentDefinition.ApplyToolsSection: delegation tools are excluded from the membership and round-trip theorems, because the delegation toggle is a separate save.
- ToolRoundTrip.UntouchedKeepsPolicyValues: assumes, where the server sends a group policy, that it is the stored one; otherwise the page would save the server's.
- ToolRoundTrip.InheritOptionKeepsOverride: assumes a tool name that does not begin like a group's policy key, as the source's validation of names guarantees.
- ToolRoundTrip.UntouchedRewritesEntry: for a key a group select writes, assumes as above that the server's group policy is the stored one.
- ToolRoundTrip.UntouchedGrants: assumes, as UntouchedKeepsPolicyValues does, that the group policy the server sends is the stored one.
- BoardDrain.BoardStreamDrain: reads a body that has ended; a token over the scanner's limit ends the reader and is the step DrainStops of BoardStream.
- BoardStream.NoLostRefresh: the change behind an event is stored before the event is published, and a render or write error is the step Return.
- Accounts.AccountRegistry.Put: requests take the registry one at a time, as under its mutex; two requests of one browser that interleave between lock sections are not modelled, and neither is a nil registry.
- Accounts.SetSessionCookie: whether the signed value is too large is a parameter; signing itself never fails.
- Accounts.AuthSwitch: a refresh answers with arbitrary claims; sharing one refresh among concurrent callers is not modelled.
- Accounts.RunKeepsAccounts: assumes an identity provider that names its users and a session cookie that verifies; the excluded cases are SwitchLosesOnlyExpired and LoginSkipsRegistry.
- Wizard.PinnedModelsReviewed: says nothing when the manifest cannot be read during the request, since the code then applies without a review.
- BlueprintPatch.DiffRebuildsTarget: tool and skill lists are compared as sets, and a property's widget is not compared because the rows show only its presence.
- Slices.RemoveItems: slices are sequences, so that a caller's other slices over the same backing array are not followed.
- WorkText.ParseEnvVars: lower-casing is modelled for the letters of the two reserved names only.
- Rule validation, effective status resolution, tool eligibility and comment ordering: each is settled by reading one function.
- WorkText.TriggersSubmitted: a browser's treatment of line ends only; characters HTML cannot carry are not modelled.
- Invalid UTF-8, and timestamp strings the rail's parser rejects.
