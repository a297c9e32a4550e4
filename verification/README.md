# adfilter: a verified model

adfilter denies DNS queries for unwanted hosts. A Windows driver looks at every UDP datagram to port 53, turns
the queried name into text and matches it against lists of regular expressions; it stands on a firewall driver
that follows TCP connections and logs requests to the user. This project models the parts of both that carry
state or do real computation, and proves what they are for.

| files | what they model |
|---|---|
| `SlreTables`, `SlreScan`, `SlreMatcher`, `SlreEngine` | the SLRE regular-expression engine: the pattern scan, the branch sort, the backtracking matcher, once as functions and once as the loops and in-place updates of the original |
| `SlreSyntax`, `SlreSets`, `SlreSoundness`, `SlreParsing`, `SlreTheorems`, `SlreExactness`, `SlreAlternatives` | a language semantics for regular expressions, and how the engine agrees with it |
| `SlreEnds`, `SlreForms`, `SlreChoices` | where a match ends: on the expression alone for all flat expressions, and on the bytes of the pattern for its ordinary forms |
| `SlreWalk`, `SlreAccepted`, `SlreRotation`, `SlreGroups` | properties of patterns as bytes: when the scan ends, what it refuses with which code, what the branch sort does to alternatives, when the tables are right |
| `SlreSettled`, `SlreParens`, `SlreInStep`, `SlreFlat`, `SlreInside` | when the result does not depend on memory that was never set, and when a match ends within the text |
| `SlreLimits`, `SlreMissed`, `SlreAstray`, `SlreSpare`, `SlreRuns` | runs of the engine on concrete inputs just outside the conditions of the theorems |
| `Chains`, `ConnTable`, `ObjTable` | the TCP connection table with its delete list and reaper, and the object table that owns its entries |
| `TcpLifecycle`, `TcpHandlers` | the life of a TCP connection as the handlers drive it through the two tables |
| `RequestLog` | the cyclic request log |
| `HostFile`, `HostList`, `HostForms`, `DnsName`, `AdFilter` | host files, host lists, what ordinary hosts match, query names and the verdict |
| `Sids` | the SID list parser |
| `Bytes` | bytes, C character classes, little-endian fields |

## How to read it

**The engine.** `SlreMatcher` gives `bar`, `doh` and `baz` as functions over byte offsets, with the original's
running bracket index, truncated retries and possessive `?`. The methods of `SlreEngine` carry out the loops and
are proved equal to these functions, so what is proved about the functions holds of the loops. `MatchResult` is
`None` exactly on the patterns on which the scan stands still, which `SlreWalk` describes by their bytes; on all
others the matcher terminates, and a success never ends more than one byte behind the text. It ends within the text
if no set operation of the pattern accepts 0, for patterns whose groups the matcher does not confuse
(`ResultInside`); for all others the matcher's own bound asks that no `[` byte at all would accept 0 in any region
(`NoNul`). `SlreSyntax` defines what an expression means without any table or loop. `MatchSound` connects the two for
*flat* expressions: groups not nested and in one alternative, a quantified group last, sets that refuse 0 and stand
in no group that is followed by more, `^` first, and bars that survive the branch sort. `MatchExact` adds the
converse for single atoms, plain or quantified, and `AltsExact` for alternatives of these. `SlreLimits`,
`SlreMissed` and `SlreAstray` have an input just outside nearly every condition.

Which of the matches is reported, and where it ends, is not a matter of the language. `SlreEnds.End` tells it on the
expression tree, without offsets, tables or loop variables, and `MatchEnds` proves that for every flat expression the
engine reports just that end, from the first start that has one. For the ordinary forms of a pattern the same is
said with the bytes of the pattern and of the text alone: `SlreForms` for plain atoms with one repetition, option
or anchor, `SlreChoices` for a bar and for a group, `HostForms` for the names that such a host matches.
`SlreAccepted` says on the bytes which patterns are refused, and with which code.

**Memory that was never set.** The matcher may load the length of a bracket behind the last one, from the part of
its stack frame that nothing has written, and then decides by it: on `SlreSpare.PATTERN` one value makes the whole
text match and another nothing. `spare` is that value; every call has its own. For *settled* patterns the result is
the same for all values: those whose every `(` opens a group, and those that keep the matcher's bracket number in
step with the groups, which all flat expressions do. `HostMatches` and `Denied` do not mention memory, and the
methods agree with them if the hosts are settled.

**The tables.** A connection table is one ghost value, `Table`: the simple list it stands for (`order`, the entry
inserted last first), what its entries hold (`model`), the delete list (`dead`), and a picture of the links.
`Mirrored` says that the picture is right, `Sound` that every bucket is the list filtered by hash, that `next` and
`prev` are inverse, and that the delete list holds closed entries without an owner, once each. All pointer
surgery keeps both. `Objects` adds the object table, a hash that stands for a map from file objects to objects,
and `Owns`: every entry is owned by exactly one object or is dead, never both. Every operation keeps `Valid`, so
these are invariants of every run, but for two ways out that the source leaves open and whose contracts say exactly
when: a connection accepted on an object that owns one already, and one added to an object of another kind.

**Findings.** Where the code and its comments disagree, the model follows the code.
- The comment of `setup_branch_points` asks for a stable sort. The exchange sort rotates the bars of a group by the
  number of outer bars behind it (`SortRotates`), so that `(a|b|c)|d` does not match "a" (`RotatedMisses`). Where
  groups are not nested the tables are right if and only if the bars of every group divide the outer ones behind it
  (`PatternTables`).
- An uninitialised length can decide a match (`SpareDecides`), and the scan never ends on a set that is cut short
  inside an escape, such as `[\` (`ScanEnds`, `CutSetHangs`).
- A set reads the byte behind the text: a pattern that is one set runs over the end if and only if it accepts 0 and no
  byte of the text (`OneSetOverruns`).
- A non-greedy `*` takes a byte if it can, so that at the end of a pattern `a*?` is `a?` (`AtMostOne`); a greedy `*`
  behind whose longest run the rest is not found takes nothing rather than less, if the rest is found there:
  `a*a` ends a match in "aa" behind the first byte (`StarBetween`, `StarTakes`).
- A group with pattern behind it settles for its first alternative that matches, and reaches a later one only if that
  is shorter: `(a|ab)c` misses "abc" (`GroupChoice`). A group whose text ends in `\(` is refused as an empty one
  (`EscapedParenRefused`), and a quantifier in front of everything fails every search (`QuantifierFirst`).
- An option is never given back (`OptionMisses`), a quantified group hides the groups behind it (`GroupReused`), groups
  in two alternatives are taken for each other (`GroupsConfused`), an empty match of an alternative that is not the
  last is lost (`EmptyMatchLost`), and the outer parenthesis of a nested group closes another one (`NestedMisses`).
- `^` anchors all alternatives or none (`FirstAnchor`, `LateAnchor`), and holds at the start of a group and behind a
  repetition (`GroupStart`, `MiddleAnchor`); `$` holds at the end of the shorter text a group is tried on
  (`GroupEnd`), which a set looks beyond (`SetCutsGroup`).
- An ordinary host such as `ads.com` matches a name only if it occurs nowhere before the name's end
  (`HostMatchPlain`, `HostName`): "ads.com.ads.com" passes.
- The comment of `conn_thread` asks for the minimum timeout; the code keeps the maximum, so that every entry left is
  due when the wait is over (`AllDueAfterWait`), and the wait is the least remaining time if and only if all remain
  equally long (`WaitLeast`, `WaitTooLong`).
- `tdi_event_connect` queues the entry of a reused connection object without clearing the object's pointer, then
  refuses the connection and queues it again: the delete list leads from that entry to itself, and the reaper never
  gets past it. The tables stay sound if and only if a checked object owned no entry (`RefusedExact`).
- `ot_free` closes every connection, but of a hash chain it disconnects the last one alone, and that only if no handler
  to be restored is behind it (`OtFree`, `Hung`).
- A raw datagram is looked at if the last UDP datagram went to port 53 (`SendDatagram`).
- A SID record whose length carries the offset around to 0 fills the table with the start of the buffer
  (`WrappedStays`).
- `tdi_disconnect` uses an uninitialised variable for a graceful request out of place (`OffRouteJunk`); `junk` in
  the model.
- The handlers keep a connection on the routes of RFC 793 if and only if each of them finds a state of its guard
  (`RunsExact`).
- `fmt_dns_msg` and `load_file` leave their buffers on names of 1024 bytes, on names without an end and on lines of
  more than 128 bytes, and on nothing else (`FormatDnsMessage`, `LoadFile`); a zero byte in a line ends a host file.
- `fmt_dns_msg` inverts a name if and only if all labels but the first are shorter than 48 bytes and all are made
  of the bytes from '0' to 127 (`NameInverted`).

## Model

| member | source | states |
|---|---|---|
| SlreEngine.MatchResult | sys/slre/slre.c:425-437 | a match ends at most one byte behind the text, and within the text if no `[` byte of the pattern would accept 0 in any region (`NoNul`, which is more than that its sets refuse 0: see `ResultInside`); there is a result, so that the search terminates, for every pattern whose scan ends |
| SlreEngine.SlreMatch | sys/slre/slre.c:425-437 | for all patterns the engine as it runs, tables filled in place, returns this result, or tells that the original never comes back; which result that is, `MatchEnds` says on the expression, and `SlreForms` and `SlreChoices` on the bytes |
| SlreEngine.RegexInfo.ScanPattern | sys/slre/slre.c:365-420 | for all patterns the loop fills the tables with what the scan function records, or returns its error code, or tells that it stands still; slots behind the last bracket stay |
| SlreEngine.RegexInfo.SetupBranchPoints | sys/slre/slre.c:336-363 | sorting and slicing in place give exactly the tables of `Setup` |
| SlreEngine.RegexInfo.SortBranches | sys/slre/slre.c:340-349 | the exchange sort in place is `SortFrom`, which `BranchesSorted` shows to sort |
| SlreScan.BranchesSorted | sys/slre/slre.c:340-349 | for all branch tables the sort leaves a sorted permutation |
| SlreScan.SortedUnchanged | sys/slre/slre.c:340-349 | branches in order are left alone, ties included |
| SlreRotation.SortRotates | sys/slre/slre.c:340-349 | for every branch table: if, behind a stretch of lower brackets' branches, none of bracket k stands behind a lower one, then those of k come out rotated by the number of lower ones behind them |
| SlreRotation.OrderKept | sys/slre/slre.c:336-349 | the sort keeps their order, as its comment asks, if and only if there are none or their number divides that of the lower ones behind them |
| SlreScan.SetupExact | sys/slre/slre.c:336-363 | the slices partition the sorted branches: slice k holds exactly the branches of bracket k, and no bracket moves |
| SlreGroups.PatternTables | sys/slre/slre.c:303-420 | for every accepted pattern with groups one deep, the tables are right if and only if the bars of every group divide the outer ones behind it; right: bracket k is the text between the k-th `(` and its `)`, and the pieces `doh` visits are that text split at its own `\|`s, in order |
| SlreWalk.ScanEnds | sys/slre/slre.c:85-97 | on the bytes of the pattern: the scan stands still if and only if one of its operations is a set cut short inside an escape, and none before it is rejected |
| SlreWalk.FittingEnds | sys/slre/slre.c:81-97 | if no escape runs over the end of the pattern, the scan does not stand still |
| SlreParsing.ScanRegex | sys/slre/slre.c:365-420 | scanning a rendered flat expression records exactly its groups and alternatives |
| SlreParsing.TablesExact | sys/slre/slre.c:336-420 | after the sort too: bracket 0 holds the top-level alternatives, the others the groups in order |
| SlreAccepted.ScanRefuses | sys/slre/slre.c:365-420 | for all patterns and codes, on the bytes: the scan returns the code if and only if the walk from operation to operation meets it first: -8 at a `\|` behind 100 others, -6 at a backslash without one of 22 bytes or `x` and two digits behind it, -9 at a `(` behind 99 others, -7 at one more than there are captures, -3 at a `)` too many or at the end with one too few, -1 at a `)` right behind the byte `(` |
| SlreTheorems.FlatScanEnds | sys/slre/slre.c:375-419 | the scan of a flat expression ends |
| SlreMatcher.Bar | sys/slre/slre.c:183-300 | the matcher terminates on all patterns and tables, and a success ends at most one byte behind the text, and within it if no `[` byte of the pattern would accept 0 in any region (`NoNul`, which is more than that its sets refuse 0: see `ResultInside`) |
| SlreMatcher.Doh | sys/slre/slre.c:303-319 | the same for the alternatives of a bracket |
| SlreMatcher.BazFrom | sys/slre/slre.c:321-334 | the same for the search over all starts |
| SlreInside.SearchInside | sys/slre/slre.c:256-260 | for every pattern and tables: if the regions of a run stay in a set of regions at whose fronts no unquantified set accepts 0, the match ends within the text |
| SlreTheorems.ResultInside | sys/slre/slre.c:256-260 | for all patterns with groups one deep, in one alternative and a quantified one last, so all without groups: if no set operation of the scan accepts 0 in a region that starts with it, the match ends within the text |
| SlreInside.OwnLength | sys/slre/slre.c:159-179 | for sets whose elements end at their own bracket that condition holds if and only if each set by itself refuses 0 |
| SlreEngine.Bar | sys/slre/slre.c:183-300 | the loop over operations equals the recursive function |
| SlreEngine.Repeat | sys/slre/slre.c:207-252 | the `*`/`+` loop, greedy and not, equals its function; which bytes it takes, `RepeatEnds`, `GreedyStar`, `LazyPlus` and `StarBetween` say |
| SlreEngine.RetryGroup | sys/slre/slre.c:261-276 | the retry loop that truncates the text equals its function |
| SlreEngine.Doh | sys/slre/slre.c:303-319 | the loop over alternatives equals its function |
| SlreEngine.Baz | sys/slre/slre.c:321-334 | the loop over starts equals its function |
| SlreTables.MatchSet | sys/slre/slre.c:159-179 | the loop over a set equals its function |
| SlreTables.SetLen | sys/slre/slre.c:85-93 | the length loop equals its function |
| SlreSets.SetDecided | sys/slre/slre.c:159-179 | `match_set` on a written set accepts a byte if and only if an element does, or none if it is negated, wherever the region ends |
| SlreSets.SetLength | sys/slre/slre.c:85-97 | the whole of a written set is one operation |
| SlreSoundness.BarSound | sys/slre/slre.c:183-300 | a success of `bar` on a flat sequence is a match of that sequence's language at that place |
| SlreSoundness.RepeatSound | sys/slre/slre.c:207-252 | a success of a repetition is some number of matches of its operand followed by a match of the rest |
| SlreSoundness.DohSound | sys/slre/slre.c:303-319 | a success of `doh` is a match of one of the bracket's alternatives |
| SlreSoundness.GroupLoopSound | sys/slre/slre.c:261-276 | what the retry loop returns is a match of the group |
| SlreTheorems.SearchSound | sys/slre/slre.c:321-334 | the search reports the end of a match, from 0 if the pattern is anchored |
| SlreTheorems.MatchSound | sys/slre/slre.c:183-334 | soundness: for every flat expression, every text and whatever memory holds, there is a result, and a success e has a start s <= e with text[s..e] in the language; s = 0 under `^`, e = the text's length if every alternative ends with `$` |
| SlreEnds.MatchEnds | sys/slre/slre.c:183-334 | for every flat expression that the scan accepts, every text and memory: the result is the end, told on the expression tree, of the match from the first start that has one (0 under `^`), and -1 if no start has one; a refused one gives its code |
| SlreEnds.BarEnds | sys/slre/slre.c:183-300 | `bar` on a flat sequence, at any place of any text region: its result is the end of the sequence there, or -1 if there is none |
| SlreEnds.RepeatEnds | sys/slre/slre.c:207-252 | a repetition ends behind the most matches of its operand, or the fewest but one if not greedy, with the rest found behind them; `*` falls back on none |
| SlreEnds.LoopBehind | sys/slre/slre.c:261-276 | a group with pattern behind it ends on the longest stretch of text with which the pattern behind is found |
| SlreEnds.DohEnds | sys/slre/slre.c:303-319 | alternatives end with the first one that matches some text, else with the last |
| SlreForms.PlainFound | sys/slre/slre.c:321-334 | atoms without quantifiers: the end of the first place where they stand, -1 if there is none |
| SlreForms.GreedyStar | sys/slre/slre.c:207-252 | `P` + byte 42 behind plain atoms: the first place where these stand, and from there the longest run of accepted bytes |
| SlreForms.GreedyPlus | sys/slre/slre.c:207-252 | byte 43: the same from the first place with an accepted byte behind the plain atoms |
| SlreForms.LazyPlus | sys/slre/slre.c:207-252 | bytes 43, 63: exactly one accepted byte behind the plain atoms |
| SlreForms.AtMostOne | sys/slre/slre.c:203-252 | byte 63, and bytes 42, 63: one byte if it is accepted, else none |
| SlreForms.StarBetween | sys/slre/slre.c:207-252 | byte 42, or 42, 63, between plain atoms: how many bytes the `*` takes, for every text |
| SlreForms.FrontAnchored | sys/slre/slre.c:287-288 | byte 94 in front of plain atoms: they stand at the start of the text, or the result is -1 |
| SlreForms.BackAnchored | sys/slre/slre.c:289-290 | byte 36 behind them: they stand at its end, or the result is -1 |
| SlreForms.QuantifierFirst | sys/slre/slre.c:197 | byte 42, 43 or 63 in front of plain atoms gives -2 on every text |
| SlreForms.EscapeMatches | sys/slre/slre.c:111-157 | a backslash and a byte, for all bytes: digits, white space, control characters or the byte itself, and -6 for bytes with no meaning |
| SlreForms.RangeMatches | sys/slre/slre.c:159-179 | `[x-y]` for digits and small letters: the bytes between, capital letters too if case is ignored |
| SlreForms.CodeMatches | sys/slre/slre.c:103-132 | `\x` and the two digits of a byte match that byte alone |
| SlreChoices.Either | sys/slre/slre.c:303-319 | byte 124 between plain atoms: the first place where a side stands, and there the left side first, if it is not empty |
| SlreChoices.GroupGivesBack | sys/slre/slre.c:261-276 | bytes 40, 42, 41: a group of a greedy `*` in front of plain atoms takes as many bytes as leave room for them |
| SlreChoices.GroupChoice | sys/slre/slre.c:261-319 | bytes 40, 124, 41 in front of plain atoms: the left side if the rest is behind it; the right one if the left does not stand, or is the longer one |
| SlreChoices.EscapedParenRefused | sys/slre/slre.c:415 | a group that ends in an escaped `(` gives -1 on every text |
| SlreTheorems.ResultSettled | sys/slre/slre.c:191-192 | for settled patterns the result is the same for any two values of the memory behind the tables |
| SlreParens.ParensSettled | sys/slre/slre.c:191-192 | if every `(` byte opens a group, however groups are nested and quantified, no group is looked up behind the tables |
| SlreInStep.InStepSettled | sys/slre/slre.c:261-264 | if groups are one deep, in one alternative, and a quantified one last, the bracket number is that of the group met, literal parentheses or not |
| SlreTheorems.FlatSettled | sys/slre/slre.c:191-192 | every flat expression is settled |
| SlreSpare.SpareDecides | sys/slre/slre.c:191-192 | a pattern and a text on which one value of that memory gives a match of the whole text and another gives none |
| SlreExactness.BarComplete | sys/slre/slre.c:207-252 | for atoms, plain or quantified, options only where what follows has no use for the byte, if any match starts at a place, `bar` finds one there |
| SlreExactness.MatchExact | sys/slre/slre.c:183-334 | on that fragment a match is reported if and only if there is one, and it starts where the first one starts |
| SlreAlternatives.AltsExact | sys/slre/slre.c:303-334 | for alternatives without groups and `^`, of which only the last can match the empty text, a match is reported if and only if there is one, and it starts where the first one starts; more than 101 alternatives are rejected |
| SlreAlternatives.AltsAccepted | sys/slre/slre.c:365-420 | a pattern without groups is accepted, with all its bars recorded in order, if and only if the branch table has room for them |
| SlreLimits.OptionMisses | sys/slre/slre.c:203-206 | `a?a` has "a" in its language but does not match it |
| SlreLimits.SetOverruns | sys/slre/slre.c:256-260 | `[^a]` matches the empty text with length 1 |
| SlreLimits.OneSetOverruns | sys/slre/slre.c:256-260 | a pattern that is one set reports a match behind the end of the text if and only if it accepts 0 and no byte of the text |
| SlreLimits.CutSetHangs | sys/slre/slre.c:85-97 | the scan of `[\` never ends, that of `[\]` does |
| SlreLimits.GroupReused | sys/slre/slre.c:261-274 | `(a)*(b)` matches "a", which is not in its language |
| SlreMissed.RotatedMisses | sys/slre/slre.c:336-349 | `(a\|b\|c)\|d` does not match "a", which is in its language, because the sort swaps the bars of the group |
| SlreMissed.GroupsConfused | sys/slre/slre.c:303-319 | `(a)x\|(b)c` matches "ac", which is not in its language |
| SlreMissed.EmptyMatchLost | sys/slre/slre.c:303-319 | `a*\|y` does not match "z", where its first alternative matches the empty text |
| SlreAstray.LateAnchor | sys/slre/slre.c:321-334 | `a\|^b` matches "xb", which is not in its language |
| SlreAstray.FirstAnchor | sys/slre/slre.c:321-334 | `^a\|b` does not match "xb", which ends with a word of its second alternative |
| SlreAstray.MiddleAnchor | sys/slre/slre.c:225-229 | `a*^b` matches "ab", which is not in its language |
| SlreAstray.GroupStart | sys/slre/slre.c:261-276 | `x(^a)` matches "xa", which is not in its language |
| SlreAstray.GroupEnd | sys/slre/slre.c:261-276 | `(a$)b` matches "ab", which is not in its language |
| SlreAstray.SetCutsGroup | sys/slre/slre.c:256-276 | `([b]c)x` matches "bx", which is not in its language |
| SlreAstray.NestedMisses | sys/slre/slre.c:400-412 | `(a)((b)c)` does not match "abc", which is in its language, because its last parenthesis closes the first group |
| ConnTable.Conns.constructor | sys/tdi_fw/src/conn_state.c:322-376 | an empty table is sound |
| ConnTable.Conns.Add | sys/tdi_fw/src/conn_state.c:333-373 | a new entry comes first in the list, nothing else changes |
| ConnTable.Conns.SetState | sys/tdi_fw/src/conn_state.c:452-460 | one entry's state changes and nothing else, field by field |
| ConnTable.Conns.SetLocal | sys/tdi_fw/src/conn_state.c:490-523 | re-keying in place takes the entry out of the list and puts it first, with the new key; buckets and links stay exact |
| ConnTable.Conns.Close | sys/tdi_fw/src/conn_state.c:407-433 | the entry is closed, stamped with the time, loses its object and is queued first; it stays hashed, with its key |
| ConnTable.Conns.Queue | sys/tdi_fw/src/conn_state.c:407-433 | the same for any entry of the table, queued already or not; then the table need not stay sound |
| ConnTable.Conns.GetState | sys/tdi_fw/src/conn_state.c:537-560 | searching one bucket finds the first entry of the whole list with the four-tuple, or NONE |
| ConnTable.LookupFirst | sys/tdi_fw/src/conn_state.c:537-560 | the search returns the state of the first entry with the four-tuple, and 0 if there is none |
| ConnTable.Conns.Bury | sys/tdi_fw/src/conn_state.c:687-709 | an entry leaves the delete list behind its predecessor, and the hash; the rest keeps its order |
| ConnTable.Conns.Examine | sys/tdi_fw/src/conn_state.c:677-723 | one closed entry is taken out or spared, and the wait follows |
| ConnTable.Conns.Reap | sys/tdi_fw/src/conn_state.c:675-723 | a pass takes exactly the due entries out of the delete list and the hash, keeps the others in order, and returns zero if none is left, else minus the longest remaining wait |
| ConnTable.DueExact | sys/tdi_fw/src/conn_state.c:678-683 | due are the queued entries at least 200,000,000 units old, and at shutdown all |
| ConnTable.AllDueAfterWait | sys/tdi_fw/src/conn_state.c:712-718 | every entry a pass spares is 200,000,000 units old, and due, when the wait it asks for is over |
| ConnTable.WaitLeast | sys/tdi_fw/src/conn_state.c:668-718 | the wait is the least remaining time, as the comment asks, if and only if all entries spared have the same age |
| ConnTable.WaitTooLong | sys/tdi_fw/src/conn_state.c:712-718 | with two entries the wait asked for is the full time where the least remaining one is a single unit |
| ConnTable.LookupInBucket | sys/tdi_fw/src/conn_state.c:545-555 | a bucket search equals a search of the whole list, for every list and key |
| ConnTable.RekeyedLookup | sys/tdi_fw/src/conn_state.c:490-523 | after re-keying the new key finds the entry, and lookups of any third key are as before |
| ConnTable.RekeyedOk | sys/tdi_fw/src/conn_state.c:490-523 | re-keying keeps index, links and delete list sound |
| ConnTable.AddedOk | sys/tdi_fw/src/conn_state.c:364-371 | insertion keeps them sound |
| ConnTable.ClosedOk | sys/tdi_fw/src/conn_state.c:407-433 | queueing keeps them sound: once on the delete list, closed, without an object |
| ConnTable.SplicedOk | sys/tdi_fw/src/conn_state.c:696-704 | unlinking keeps every bucket the filtered list and `next`/`prev` inverse |
| ConnTable.CutOk | sys/tdi_fw/src/conn_state.c:689-692 | removal from the delete list keeps the table sound |
| ConnTable.SelfLinkUnsound | sys/tdi_fw/src/conn_state.c:417-418 | a delete list whose first entry leads to itself is none, whichever entries it is taken to hold |
| ConnTable.NeverPast | sys/tdi_fw/src/conn_state.c:677-722 | sparing any number of entries the reaper stays on such an entry |
| ConnTable.EmptyTable | sys/tdi_fw/src/conn_state.c:113-132 | a table without entries has only empty buckets, so that freeing the bucket array leaks nothing |
| Chains.ChainedCut | sys/tdi_fw/src/conn_state.c:689-692 | unlinking behind a predecessor leaves the chain without the entry |
| ObjTable.Objects.Find | sys/tdi_fw/src/obj_tbl.c:408-431 | searching a chain looks the file object up in the map |
| ObjTable.Objects.AddFileObj | sys/tdi_fw/src/obj_tbl.c:281-350 | the object is in the map with fresh fields, all zero but kind and file object; a new one comes first in its chain, an old one's connection is closed; all other objects stay |
| ObjTable.Objects.CleanupOte | sys/tdi_fw/src/obj_tbl.c:433-465 | an object's connection is closed and its fields are zeroed |
| ObjTable.Objects.DelFileObj | sys/tdi_fw/src/obj_tbl.c:352-406 | the object leaves the map and its chain, which keeps its order, its connection is closed, all other objects stay |
| ObjTable.Objects.AddTcpConn | sys/tdi_fw/src/conn_state.c:321-376 | which of the three outcomes, and for success the new entry, its owner and its state: a search for local address and port, then remote address and port, finds that state; other objects' states stay; the tables stay valid if and only if a success was on a connection object |
| ObjTable.Objects.DelTcpConn | sys/tdi_fw/src/conn_state.c:378-405 | the object's entry is queued and disowned, nothing else of the object table changes, every other object's state stays |
| ObjTable.Objects.SetTcpConnState | sys/tdi_fw/src/conn_state.c:435-471 | the outcome, and the new state of this object's entry; nothing else changes |
| ObjTable.Objects.SetTcpConnLocal | sys/tdi_fw/src/conn_state.c:473-535 | the outcome, and the entry first in the list with its new local address: a search for that and the old remote address finds its state; no state and no other key changes |
| ObjTable.Objects.GetTcpConnStateByObj | sys/tdi_fw/src/conn_state.c:562-587 | the state of the entry the object owns, NONE without one |
| ObjTable.Objects.Reap | sys/tdi_fw/src/conn_state.c:675-723 | a reaper's pass over the tables: exactly the due entries leave, no object's state changes, ownership is kept |
| ObjTable.OwnedOrDead | sys/tdi_fw/src/conn_state.c:322-433 | what the `Valid` that every method keeps says of an entry: it is owned by exactly one object, which it names, or is once on the delete list, closed and nameless; never both |
| ObjTable.OwnsMore | sys/tdi_fw/src/conn_state.c:351-360 | giving a new entry to an object without one keeps ownership |
| ObjTable.OwnsLess | sys/tdi_fw/src/conn_state.c:393-400 | queueing an entry and clearing its owner keeps ownership |
| ObjTable.OwnsReaped | sys/tdi_fw/src/conn_state.c:689-709 | a pass takes no entry from an owner |
| ObjTable.Objects.Visit | sys/tdi_fw/src/obj_tbl.c:97-175 | what a sweep does with an object: the first handler is taken and logged, or the object is done with and its connection closed |
| ObjTable.Objects.Sweep | sys/tdi_fw/src/obj_tbl.c:89-177 | a sweep finds a handler not found before, or leaves no live object in its chain |
| ObjTable.Objects.OtFree | sys/tdi_fw/src/obj_tbl.c:76-235 | the sweeps terminate, take every replaced handler exactly once and restore those for which an IRP could be built, each with its own handler and context, by chain, place in the chain and event; disconnect exactly the connection objects with a remote address behind which their chain has no other one and no handler, by chain; and leave every connection entry on the delete list |
| ObjTable.Objects.Unload | sys/tdi_fw/src/obj_tbl.c:76-235 | `ot_free` and the reaper's last pass leave the connection hash empty, with the same handlers restored and the same objects disconnected, in the same order |
| ObjTable.Objects.SetEventHandler | sys/tdi_fw/src/disp_ev.c:47-97 | what `ot_free` would restore changes in this handler alone: the one given, with its context, is added or replaces the last, and none removes it |
| ObjTable.ReplacedExact | sys/tdi_fw/src/obj_tbl.c:108-130 | what is to be restored, field by field: for every address object and event the handler kept, if any, and its context |
| ObjTable.TornPicked | sys/tdi_fw/src/obj_tbl.c:114-130 | a handler taken was not taken before, and is one of those to restore |
| ObjTable.TornDown | sys/tdi_fw/src/obj_tbl.c:164-173 | when no object is left to process, everything is restored and closed |
| ObjTable.FinalDial | sys/tdi_fw/src/obj_tbl.c:97-175 | the connection that the last sweep of a chain notes is the one with no other and no handler behind it, if there is one |
| ObjTable.OneFarewell | sys/tdi_fw/src/obj_tbl.c:143-155 | of every chain one object at most is disconnected |
| ObjTable.FarewellExact | sys/tdi_fw/src/obj_tbl.c:143-173 | which object of a chain is disconnected, field by field: a connection object with a remote address behind which the chain has no other one and no address object with a handler kept |
| TcpLifecycle.SaneStep | sys/tdi_fw/src/disp_conn.c:430-477 | every expected event keeps state, outstanding requests and path consistent |
| TcpLifecycle.RunsFollowRoutes | sys/tdi_fw/src/disp_conn.c:187-477 | in every run whose handlers all find a state of their guards the states passed through begin one of the four routes of RFC 793, section 3.2, perhaps cut short by CLOSED |
| TcpLifecycle.RanksGrow | sys/tdi_fw/src/disp_conn.c:187-477 | along such a path the phase strictly grows |
| TcpLifecycle.GuardExact | sys/tdi_fw/src/ev_conn.c:313-404 | a handler's step is a step of a route, an exit or no step, whatever its uninitialised variable holds, if and only if it finds a state of its guard |
| TcpLifecycle.StepExact | sys/tdi_fw/src/disp_conn.c:187-477 | from a run on a route, one more step keeps the whole path on a route, whatever its uninitialised variable holds, if and only if it meets its guard |
| TcpLifecycle.RunsExact | sys/tdi_fw/src/disp_conn.c:187-477 | every step of a run keeps to the routes if and only if every step meets its guard |
| TcpLifecycle.ExpectedRuns | sys/tdi_fw/src/disp_conn.c:187-477 | a run of expected events meets all guards |
| TcpLifecycle.RoutesTaken | sys/tdi_fw/src/disp_conn.c:187-477 | each of the four routes, as numbers of ipc.h, is the path of some expected run, up to TIME_WAIT, LAST_ACK and, when the other side closed first, the deleted entry |
| TcpLifecycle.OffRoute | sys/tdi_fw/src/disp_conn.c:239-301 | without the assumptions on order, two concrete runs leave the routes |
| TcpLifecycle.OffRouteJunk | sys/tdi_fw/src/disp_conn.c:430-440 | a graceful request in FIN_WAIT2, which is reachable, sets the uninitialised variable's value |
| TcpHandlers.TdiConnect | sys/tdi_fw/src/disp_conn.c:82-197 | the connection object learns its own and the remote address, and nothing else of the object table changes; a TCP request is allowed only without a connection, which then is in SYN_SENT: a search for local address and port, then remote address and port, finds that; else the connection table does not change; a connected UDP socket that is known is allowed if the filter allows it and changes no entry; other connections stay; the tables stay valid if and only if an object that gets an entry is a connection object |
| TcpHandlers.TdiConnectComplete | sys/tdi_fw/src/disp_conn.c:239-301 | one step of the lifecycle: ESTABLISHED_OUT if it succeeded and there is an entry, else no entry; other connections stay |
| TcpHandlers.TdiDisconnect | sys/tdi_fw/src/disp_conn.c:422-457 | one step of the lifecycle: the context is CLOSED, from an ESTABLISHED state FIN_WAIT1, from CLOSE_WAIT LAST_ACK, and the entry's state is the context; other connections stay |
| TcpHandlers.TdiDisconnectComplete | sys/tdi_fw/src/disp_conn.c:459-483 | one step of the lifecycle: if it succeeded FIN_WAIT1 becomes FIN_WAIT2, and LAST_ACK and CLOSED lose the entry; other connections stay |
| TcpHandlers.TdiEventConnect | sys/tdi_fw/src/ev_conn.c:165-283 | a new connection in SYN_RCVD, which a search for local address and port, then remote address and port, finds, or a refusal that leaves the table `Refused`; a checked object learns both addresses if they fit, and nothing else of the object table changes but for the pointer to the entry; the tables stay valid if and only if no checked object owned an entry, and an object allowed is a connection object; other connections stay |
| TcpHandlers.RefusedExact | sys/tdi_fw/src/ev_conn.c:209-281 | the table a refusal leaves is sound if and only if a checked object owned no entry; otherwise no delete list makes it sound, and the reaper never comes to its end |
| TcpHandlers.TdiAcceptComplete | sys/tdi_fw/src/ev_conn.c:322-329 | one step of the lifecycle: ESTABLISHED_IN if it succeeded and there is an entry, else no entry; other connections stay |
| TcpHandlers.TdiEventDisconnect | sys/tdi_fw/src/ev_conn.c:388-399 | one step of the lifecycle: graceful, ESTABLISHED becomes CLOSE_WAIT, FIN_WAIT2 becomes TIME_WAIT, and other states stay; abortive, the entry goes; other connections stay |
| RequestLog.RequestQueue.LogRequest | sys/tdi_fw/src/filter.c:313-378 | the request is appended, field by field, with the name found for its process unless it has none, and with its SID block, at the cost of the oldest one when 1023 are queued, whose skip count it continues; what the caller keeps |
| RequestLog.RequestQueue.GetRequest | sys/tdi_fw/src/filter.c:380-449 | whole records, oldest first, within the buffer; cut at their size fields they show the requests taken, one by one, in the places of ipc.h; it stops only when the queue is empty or the next record does not fit; bytes behind stay |
| RequestLog.WriteRecord | sys/tdi_fw/src/filter.c:406-436 | the bytes of one record: size, type, process, SID size, addresses, packet, skip count, byte counts, rule and pointers in their places, then the name and its zero, then the SID block with a relative pointer |
| RequestLog.FramesExact | sys/tdi_fw/src/filter.c:406-441 | stepping through the output by its size fields visits exactly the records and their skip counts |
| RequestLog.FramesShow | sys/tdi_fw/src/filter.c:406-441 | a reader who cuts the output at the size fields finds in each record, at fixed places, little-endian, type, process, addresses, skip count, name and SID of the request, in order |
| RequestLog.RecordShows | sys/tdi_fw/src/ipc.h:79-117 | the same of one record |
| RequestLog.HistoryLogs | sys/tdi_fw/src/filter.c:327-365 | logging keeps: the queue is the last requests accepted, the delivered ones a subsequence before them, and accepted = delivered + queued + dropped with the skip counts summing to dropped |
| RequestLog.HistoryTakes | sys/tdi_fw/src/filter.c:393-443 | delivery keeps the same |
| RequestLog.ConservedExactly | sys/tdi_fw/src/filter.c:333-344 | below 2^32 drops the skip counts of delivered and queued requests sum to exactly the number dropped |
| HostFile.Dispose | exe/adfilter/ViewModel/HostViewModel.cs:123-136 | writes the nonempty hosts, in order, each followed by the bytes 13 and 10 |
| HostFile.NonEmptyExact | exe/adfilter/ViewModel/HostViewModel.cs:123-136 | every nonempty host is written, in its place, and no empty one |
| HostFile.LineCut | sys/adfilter/adfilter.c:72-90 | the byte 13 ends a line and takes the byte behind it along, whatever that is; the byte 0 ends the text |
| HostFile.FileLines | sys/adfilter/adfilter.c:53-130 | for all lines without the bytes 0 and 13: each followed by 13 and 10, and perhaps a last one without, they are exactly the lines of the file |
| HostFile.ReadFile | sys/adfilter/adfilter.c:58-62 | a cleared window holds the file's bytes from the offset, zeros behind the end |
| HostFile.ScanLine | sys/adfilter/adfilter.c:72-90 | one line is copied if it fits the line buffer, and the offset behind it is found if it ends in the window; one that does not fit leaves the buffer |
| HostFile.ReadWindow | sys/adfilter/adfilter.c:65-107 | the complete lines of one window are appended |
| HostFile.LastLine | sys/adfilter/adfilter.c:109-126 | what no line end follows is appended as the last line |
| HostFile.LoadFile | sys/adfilter/adfilter.c:53-130 | for all files below 4 GB: terminates; stays inside its buffers if and only if no line is longer than 128 bytes, and then appends exactly the lines of the file, in order, wherever the windows cut; of a file of lines ended by 13 and 10 these lines |
| HostFile.LinesOfWritten | exe/adfilter/ViewModel/HostViewModel.cs:123-136 | splitting what the writer wrote gives the nonempty hosts |
| HostFile.SaveLoadRoundTrip | exe/adfilter/ViewModel/HostViewModel.cs:123-136 | saving and loading nonempty hosts gives the same list in the same order |
| HostList.List.AddHost | sys/adfilter/list.c:51-60 | a new node at the tail |
| HostList.List.RemoveHost | sys/adfilter/list.c:62-82 | the last equal host is taken out, node for node, the others keeping their order, or nothing changes if there is none |
| HostList.List.ClearHosts | sys/adfilter/list.c:84-93 | terminates with the empty list |
| HostList.List.IsMatch | sys/adfilter/list.c:98-112 | whether some host of the list matches the whole tail of the name: exactly for whatever memory holds in each run of the engine, and free of memory if the hosts are settled |
| HostList.MemoryIdle | sys/adfilter/list.c:98-112 | for settled hosts the runs find a match if and only if some host matches in every run |
| HostList.AddThenRemove | sys/adfilter/list.c:51-82 | adding and deleting a host restores the list node for node |
| HostList.List.AddThenDelete | sys/adfilter/list.c:51-82 | a host added and then deleted comes off again, and the list is node for node what it was |
| DnsName.FormatDnsMessage | sys/adfilter/filter.c:70-83 | for all messages: it stays inside message and buffer if and only if the bytes from place 13 on end, at a zero byte or after `len`, in the message and before 1024, and then the buffer holds each of them, or a dot for those below 48 and from 128 on, and a terminator |
| DnsName.ReadableExact | sys/adfilter/filter.c:70-83 | the text that is looked up is these bytes, and where it ends |
| DnsName.NameInverted | sys/adfilter/filter.c:70-83 | the name starts behind the 12 bytes of the header; splitting the text at its dots gives back the labels of a wire name (RFC 1035, sections 3.1 and 4.1.2) if and only if they are plain and all but the first shorter than 48 bytes |
| DnsName.WireShown | sys/adfilter/filter.c:70-83 | the text is the labels joined by dots if and only if the same holds |
| AdFilter.Driver.Filter | sys/adfilter/filter.c:89-118 | if the name is readable: a match in the exceptions lets it pass, otherwise a match in the user's or the system's list denies it, otherwise it passes; a statement about the names alone if the hosts are settled |
| AdFilter.Driver.SendDatagram | sys/tdi_fw/src/disp_dg.c:44-121 | `tdifw_filter` and then `tdifw_udp_send`, for all datagrams: a UDP datagram is denied if and only if it goes to port 53, filtering is not paused and its name is denied; a raw one as the last UDP datagram was; unknown ones always; only data looked at have to be readable |
| AdFilter.LastAfter | sys/adfilter/filter.c:124-141 | whether the last UDP request (protocol 17) of a run went to port 53, which is what the flag holds: one more UDP request decides it anew, any other leaves it |
| AdFilter.Driver.UdpSend | sys/adfilter/filter.c:145-161 | data are denied if and only if the last UDP request went to port 53, filtering is not paused and the name is denied; only data looked at have to be readable |
| AdFilter.HostMatchSound | sys/adfilter/list.c:98-112 | a flat host is settled, and if it matches a name it has a suffix of it in its language, case folded |
| AdFilter.HostMatchExact | sys/adfilter/list.c:98-112 | for a simple host that ends with `$` the converse holds too |
| AdFilter.HostMatchPlain | sys/adfilter/list.c:98-112 | an ordinary host without quantifiers and anchors matches a name if and only if its language has the name's end and no stretch before |
| HostForms.HostName | sys/adfilter/list.c:98-112 | a host of ordinary bytes and dots, the dots written as they are or escaped, matches a name if and only if it stands at its end and nowhere before, letters compared without case, an unescaped dot standing for any byte |
| HostForms.HostEnds | sys/adfilter/list.c:98-112 | an accepted flat host matches a name if and only if the first start with an end has the name's end for it |
| HostForms.HostStar | sys/adfilter/list.c:98-112 | a host that ends in a greedy `*`: from the first place where its plain part stands, the name goes on with accepted bytes to its end |
| HostForms.HostPlus | sys/adfilter/list.c:98-112 | in a greedy `+`: the same, with one byte at least |
| HostForms.HostLazyPlus | sys/adfilter/list.c:98-112 | in `+?`: the name ends one accepted byte behind the first such place |
| HostForms.HostAtMostOne | sys/adfilter/list.c:98-112 | in `?` or `*?`: the name ends there, or one accepted byte later |
| AdFilter.VerdictExact | sys/adfilter/filter.c:99-108 | with settled hosts every pass over the three lists, whatever memory holds, gives the verdict that the names determine |
| AdFilter.AddDeleteNeutral | sys/adfilter/list.c:51-82 | adding and deleting a host in any of the three lists changes no verdict |
| Sids.SidTable.SetSidList | sys/tdi_fw/src/sids.c:45-97 | the new table is that of the new buffer alone, and the answer is whether it was consumed exactly |
| Sids.ParsesEncoded | sys/tdi_fw/src/sids.c:73-90 | encoded records are parsed to just these records |
| Sids.AcceptedIsEncoded | sys/tdi_fw/src/sids.c:73-90 | a buffer consumed exactly is an encoding of its records, the last nonempty |
| Sids.AcceptanceExact | sys/tdi_fw/src/sids.c:63-92 | a buffer encodes up to 128 records, the last nonempty, if and only if it is accepted without wrap-around, and then it lists these records |
| Sids.WrappedStays | sys/tdi_fw/src/sids.c:74-90 | a buffer that starts with the length 0xFFFFFFFC is refused, with its start listed 128 times |

## Left out

- SlreTheorems.MatchSound: holds on flat expressions; outside are nested groups (`SlreAstray.NestedMisses`), anchors in groups, in later alternatives and behind other items (`SlreAstray`), groups behind a quantified group (`SlreLimits.GroupReused`), groups in two alternatives (`SlreMissed.GroupsConfused`), bars that the sort rotates (`SlreMissed.RotatedMisses`), sets that accept 0 (`SlreLimits.SetOverruns`) and sets in a group that is followed by more (`SlreAstray.SetCutsGroup`). In a set `.`, `$`, `|` and `-` do not stand for themselves and are not elements.
- SlreEnds.MatchEnds: on flat expressions, like `MatchSound`.
- SlreForms.GreedyStar: one repetition behind plain atoms, at the end; with plain atoms behind it `StarBetween`, with anything flat `MatchEnds`.
- SlreExactness.MatchExact: no groups, and of `?` only what commits to nothing (`SlreLimits.OptionMisses`).
- SlreAlternatives.AltsExact: no groups, no `^` (`SlreAstray.FirstAnchor`), and only the last alternative can match the empty text (`SlreMissed.EmptyMatchLost`).
- SlreEngine.SlreMatch: captures are not modelled, the driver passes none.
- SlreEngine.MatchResult: `NoNul` fails for every pattern with `[^`, even escaped; the bound under the sets' own guard is proved for patterns in step (`SlreTheorems.ResultInside`). Both are sufficient; exact is the case of one set (`SlreLimits.OneSetOverruns`).
- SlreMatcher.Bar: its bound within the text asks for the same `NoNul`, and so do those of `Doh` and `BazFrom`.
- SlreTheorems.ResultSettled: one way; patterns with literal parentheses whose groups are nested, repeated or in several alternatives may be indifferent to memory without being settled.
- SlreTables.MatchSet: the text is taken to be followed by a zero byte, which is what a set sees there; a hex escape with other than hexadecimal digits inside a set has no value.
- ObjTable.Objects.OtFree: whether a handler is restored before or after an object of its chain is disconnected is not stated; device objects are not modelled; the original builds the disconnect request with that of the object visited last, not of the one disconnected (sys/tdi_fw/src/obj_tbl.c:103, 213). Freeing the emptied tables is not modelled.
- ObjTable.Objects.SetEventHandler: the listen table, the driver's own handler and the log are left out; when the listening entry cannot be added the original denies the request but keeps the handler (sys/tdi_fw/src/disp_ev.c:79, 105-109).
- TcpHandlers.TdiConnect: the checks of device objects and address lengths, the log and the completion routine are left out; what the filter says is a parameter.
- TcpHandlers.TdiEventConnect: starts behind the original handler; whether the object belongs to the listening address object, and the lengths of the addresses, are parameters.
- AdFilter.Driver.SendDatagram: whether the socket is known is a parameter; a debug build lets an unknown one pass.
- TcpLifecycle.RunsFollowRoutes: handlers are atomic.
- HostFile.LoadFile: the file is smaller than 4 GB, where offsets wrap around and the original reads it again for ever; opening the file is not modelled.
- HostFile.Dispose: hosts are byte strings, the text encoding of the writer is not modelled.
- DnsName.FormatDnsMessage: where it would leave message or buffer the model stops, and says so; what the original does then is not modelled. The same holds of `LoadFile`.
- RequestLog.RequestQueue.LogRequest: the record is the packed 32-bit layout, its two pointer fields opaque; locks, the event and allocation failures are left out.
- Sids.SidTable.SetSidList: the allocation succeeds.
- Spin locks and IRQL: every locked region is one step.
- Allocation failures, IRPs, MDLs, device objects, completion routines, the registry and the user interface.
- The listen table, the connection contexts and the two enumeration functions: the same structures with easier invariants.
- Packet flags, memory tracking, process names and the commented-out rule engine.
