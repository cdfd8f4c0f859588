# polvon in Dafny

polvon is a terminal user interface for systemd. It lists the service units of
the machine, filters them by a search query, shows a table with their state and
description plus an information bar of counts, and lets the user start, stop,
restart, enable and disable the selected unit, or view its status and its
journal, all by calling `systemctl` and `journalctl`.

This project models the two central modules:

- `polvon/service.py`: the `ServiceManager` that builds `systemctl`
  command lines, runs them, parses `list-units` output into `Service` records,
  and turns exit codes into replies. It lives in `services.dfy`, module
  `Services`.
- `polvon/tui.py`: the state of the `PolvonApp` (the listing, the filtered
  view, the search query, the all/active toggle), its search filter, the rows
  and the information bar it draws, and what each key action does. It lives in
  `tui.dfy`, module `Tui`.

Supporting modules:

- `Strings` (`strings.dfy`) models the Python string built-ins the
  source relies on. These are `lower`, `strip`, `split('\n')`,
  `split(None, maxsplit)`, the substring test `in` and `str(int)`. Each is a
  function with its laws proved.
- `Wrappers` (`wrappers.dfy`) holds `Option`.
- `Scenarios` (`scenarios.dfy`) restates what `tests/test_service.py` and
  `tests/test_tui_search.py` check. Every test in those two files is restated
  there, including the partial-name search `"apach"`, and each is proved for
  all inputs the test's mock allows.

Modelling choices:

- **Processes are an oracle.** `Executor = seq<string> -> ProcessOutcome` maps a
  full command vector, with `sudo` and `systemctl` in front, to `Exited(returncode,
  stdout, stderr)`, `TimedOut` or `Raised(message)`.
  - `ServiceManager.RunCommand` maps a timeout to `(1, "", "Command timed out")`
    and any other exception to `(1, "", message)`, as `_run_command` does.
  - `GetServiceLogs` maps every non-exit to no logs, as `get_service_logs` does.
  - What the system looks like after a control command is a second oracle,
    `after`.
- **The `ServiceManager` is a class.** Its only field is the immutable `useSudo`.
  - Its pure queries are functions.
  - `list_services` is the method `ListServices`. It loops over the listing's
    lines (`ParseListing`, one line at a time in `ParseListingLine`) and is proved
    equal to the specification function `ListingOf`.
  - `ListServices` also returns the command vectors it issued: the listing
    command, then one `is-enabled` query per accepted line, in order.
- **The `PolvonApp` is a class.** Its fields are `services`, `filteredServices`,
  `searchQuery` and `showAllServices`, and its actions are methods that reassign
  them.
  - Its invariant `Valid()` is `filteredServices == FilterView(services, searchQuery)`.
    Every action restores it.
  - What an action shows is returned as an `Effect` value: a notification with
    its severity, the status screen or the log screen. Asking for confirmation
    is the `confirmed` argument.
- **Text is ASCII.** Lower-casing maps `A`–`Z` only. The model's whitespace is
  exactly space, `\t`, `\n`, `\r`, `\v` and `\f`.

Behaviour of the code that the model keeps:

- `action_toggle_all` reloads the listing right after flipping the toggle
  (`polvon/tui.py:322-325`). `Tui.PolvonApp.ToggleAll` does the same.
- Nothing in `list_services` makes unit names unique. The model does not
  assume they are.
- The filter tests the description with Python truthiness
  (`polvon/tui.py:269`). An empty description therefore counts as none.
- `list_services` strips the whole output before splitting it into lines
  (`polvon/service.py:98`). So only the last line loses the trailing whitespace
  of its description.
- `get_service_status` treats every return code up to 3 as available
  (`polvon/service.py:149`). That includes the code 1 that `_run_command`
  reports for a timeout or a failure to run, so such a status reads as
  available with empty output (`Services.ServiceManager.StatusOfFailedRun`).
- `action_logs` tests the log text for truthiness (`polvon/tui.py:443`). Empty
  logs are therefore reported as a failure (`Tui.LogsEffect`).

## Model

| member | source | states |
|---|---|---|
| Services.ParseActiveState | polvon/service.py:131-136 | the state whose value is the lower-cased input, and `Unknown` when no state has that value; never an error |
| Services.ParseLoadState | polvon/service.py:124-129 | the load state whose value is the lower-cased input, and `Unknown` otherwise |
| Services.ActiveStateRoundTrip | polvon/service.py:131-136 | parsing the value of any active state gives that state back |
| Services.LoadStateRoundTrip | polvon/service.py:124-129 | parsing the value of any load state gives that load state back |
| Services.StateLookupIgnoresCase | polvon/service.py:124-136 | both lookups give the same state for a string and for its lower-cased form |
| Services.ListArgs | polvon/service.py:88-90 | the five fixed `list-units` arguments, followed by `--all` exactly when all units are asked for |
| Services.ParseLine | polvon/service.py:102-120 | a line yields a record exactly when it has at least five words. The record holds name, load state, active state and sub-state from the first four words and is enabled as the oracle says for the name. Its description is the non-blank verbatim rest of the line, holding exactly the remaining words |
| Services.Accepted | polvon/service.py:99-103 | a line contributes at most one record, and none exactly when it has fewer than five words, blank lines included |
| Services.AcceptedFromFields | polvon/service.py:99-120 | the per-line step follows the source's own steps: skip a blank line, split off at most four fields, and build the record when there are five |
| Services.ParseLines | polvon/service.py:97-122 | no more records than lines, each with a single-word name, a description, and the oracle's enabled flag for its name |
| Services.ListingLines | polvon/service.py:98 | at least one line, none holding a line break, and the lines joined with line breaks give back the stripped output |
| Services.Listing | polvon/service.py:92-122 | nothing when `list-units` exited non-zero; otherwise at most one record per line, each with a single-word name, a description and the oracle's enabled flag for its name |
| Services.ParseLinesAppend | polvon/service.py:98-122 | parsing concatenated listings concatenates their records; lines are parsed independently of each other |
| Services.ParseLinesSnoc | polvon/service.py:98-122 | one more line appends exactly that line's record, if any |
| Services.LineInContext | polvon/service.py:98-122 | a line's record appears in place between the records of the lines before it and those after it |
| Services.ParseLinesPrefix | polvon/service.py:98-122 | the records of the first i + 1 lines are those of the first i lines followed by the record of line i |
| Services.ParseLineRoundTrip | polvon/service.py:102-120 | printing a record as a listing line and parsing it back gives the record. This needs a single-word name and sub-state, and a description that starts with a non-space; inner whitespace of the description is kept |
| Services.ListingLineLacksNewline | polvon/service.py:98 | a printed listing line holds no line break when its description holds none, so it stays one line |
| Services.SingleLineListing | polvon/service.py:92-122 | a successful listing of one such line, with its final newline, yields exactly that record |
| Services.SuccessMessageIdentifiesAction | polvon/service.py:196-265 | two success messages are equal only for the same verb and the same unit name |
| Services.SuccessMessageReportsVerb | polvon/service.py:199 | the success message starts with "Service " and the name, and contains the verb's past tense followed by " successfully" |
| Services.PastTenseIsWord | polvon/service.py:199-263 | each verb's past tense is a single word, and distinct verbs have distinct ones |
| Services.FailureMessageNonEmpty | polvon/service.py:201-265 | a failure message is never empty: the fixed fallback text fills in for an empty stderr |
| Services.ServiceManager.constructor | polvon/service.py:43-49 | the manager remembers whether to prefix commands with `sudo` |
| Services.ServiceManager.Command | polvon/service.py:61-64 | the command vector is `sudo` (exactly when configured) and `systemctl`, followed by the arguments unchanged |
| Services.ServiceManager.RunCommand | polvon/service.py:66-77 | an exited process gives its own return code, stdout and stderr. A timeout gives return code 1, no output and "Command timed out". An exception gives return code 1, no output and its message |
| Services.ServiceManager.IsEnabled | polvon/service.py:267-278 | enabled exactly when `is-enabled` exited 0 and its stripped output is `enabled` |
| Services.IsEnabledReply | polvon/service.py:278 | enabled only on exit 0; exit 0 with output `enabled` and a newline is enabled, output `disabled` and a newline is not |
| Services.ServiceManager.EnabledQueries | polvon/service.py:110-111 | one `is-enabled <name>` command per record, in record order |
| Services.ServiceManager.EnabledQueriesAppend | polvon/service.py:97-122 | the queries for concatenated records are the concatenated queries |
| Services.ServiceManager.ListServices | polvon/service.py:79-122 | the method returns exactly `ListingOf`: nothing when `list-units` fails, otherwise the parsed lines. It issues the `list-units` command, then one `is-enabled` query per accepted line, in order |
| Services.ServiceManager.ListingOf | polvon/service.py:79-122 | nothing when the `list-units` command times out, fails to run or exits non-zero; otherwise each record has a single-word name and is enabled exactly when `is_enabled` says so for that name |
| Services.ServiceManager.ParseListing | polvon/service.py:97-122 | the loop over the lines returns the records `ParseLines` specifies, and the `is-enabled` queries for exactly those records |
| Services.ServiceManager.ParseListingLine | polvon/service.py:99-120 | one turn of the loop: strip, split off at most four fields, build the record; it is the line's `Accepted` records and their queries |
| Services.ServiceManager.Control | polvon/service.py:187-265 | success exactly when the verb's command exited 0. On success the message is the verb's success message for the name; otherwise it is stderr, or the verb's fixed text when stderr is empty |
| Services.ServiceManager.ReloadDaemon | polvon/service.py:280-291 | success exactly when `daemon-reload` exited 0, with the fixed success text; otherwise stderr or the fixed failure text |
| Services.ServiceManager.GetServiceStatus | polvon/service.py:138-157 | nothing exactly when `status` returned more than 3. Otherwise a map with exactly the keys `output` (the command's stdout) and `name` (the unit) |
| Services.ServiceManager.StatusOfFailedRun | polvon/service.py:147-157 | a `status` command that timed out or could not run reads as available with empty output |
| Services.ServiceManager.LogsCommand | polvon/service.py:169-172 | `sudo` exactly when configured, then `journalctl -u <name> -n <count> --no-pager` |
| Services.ServiceManager.LogsCommandLineCount | polvon/service.py:172 | the count argument is the decimal text of the requested line count, with a minus sign for a negative count, and reads back as that count |
| Services.ServiceManager.GetServiceLogs | polvon/service.py:159-185 | the log text exactly when `journalctl` exited 0, and nothing on any other exit, timeout or exception |
| Strings.LowerIdempotent | polvon/tui.py:265 | lower-casing twice is lower-casing once |
| Strings.StripEmptyIffBlank | polvon/service.py:99 | a line strips to nothing exactly when it is all whitespace |
| Strings.BlankHasNoWords | polvon/service.py:99-103 | an all-whitespace line has no words |
| Strings.JoinSplit | polvon/service.py:98 | splitting at line breaks loses nothing: joining the pieces with line breaks gives the text back |
| Strings.SplitJoin | polvon/service.py:98 | lines without line breaks, joined and split again, give back the same lines |
| Strings.SplitFieldsAreWords | polvon/service.py:102 | a split with a bound has as many fields as words, up to the bound plus one, and all fields but the last are the words |
| Strings.LastFieldIsSuffix | polvon/service.py:102-108 | when the bound is reached, the last field is a verbatim suffix of the line that starts with a non-space |
| Strings.LastFieldWords | polvon/service.py:102-108 | when the bound is reached, the line has more words than the bound and the last field holds exactly the words not split off |
| Strings.FiveFieldsRoundTrip | polvon/service.py:102 | four single words and a rest starting with a non-space, joined by spaces, split back into those five fields |
| Strings.StripTrailingNewline | polvon/service.py:278 | stripping a word followed by a newline gives the word |
| Strings.ContainsIffOccurs | polvon/tui.py:268-269 | the substring test holds exactly when the needle occurs at some index |
| Strings.ContainsTransitive | polvon/tui.py:268-269 | a substring of a substring is a substring |
| Strings.IntToStringRoundTrip | polvon/service.py:172 | the decimal text of an integer reads back as that integer |
| Tui.Matching | polvon/tui.py:266-270 | every kept record matches the query and comes from the listing, and no more records are kept than listed |
| Tui.Matches | polvon/tui.py:268-269 | the empty query matches every record, and a query longer than both the name and the description matches none |
| Tui.FilterView | polvon/tui.py:260-270 | every record while the query is empty; otherwise records taken from the listing, no more than it holds (their order is `Tui.MatchingIsOrderedSubsequence`) |
| Tui.MatchingMembership | polvon/tui.py:266-270 | a record is kept exactly when it is listed and matches |
| Tui.FilterViewMembership | polvon/tui.py:260-270 | for a non-empty query, a record is shown exactly when it is listed and matches the lower-cased query |
| Tui.MatchingIsOrderedSubsequence | polvon/tui.py:266-270 | the kept records are the listing's records at increasing positions, and a position is used exactly when its record matches, so order is kept and nothing that matches is dropped |
| Tui.MatchingAppend | polvon/tui.py:266-270 | filtering a concatenated listing filters each part |
| Tui.MatchingIdempotent | polvon/tui.py:266-270 | filtering the filtered list again changes nothing |
| Tui.FilterViewIdempotent | polvon/tui.py:260-270 | re-applying the same query to the shown list changes nothing |
| Tui.FilterViewIgnoresCase | polvon/tui.py:265 | queries that agree after lower-casing show the same records |
| Tui.NoDescriptionMatchesByName | polvon/tui.py:268-269 | a record without a description matches exactly when its lower-cased name contains the query |
| Tui.MatchesSubstring | polvon/tui.py:268-269 | a record matching a query matches every substring of it |
| Tui.MatchingNarrows | polvon/tui.py:266-270 | filtering by a longer query equals filtering by a query it contains and then by the longer one |
| Tui.FilterViewNarrows | polvon/tui.py:260-270 | typing more of a query only narrows the view: the longer query's view is the shorter query's view filtered again |
| Tui.CountState | polvon/tui.py:303-304 | a count of records in one state never exceeds the number of records |
| Tui.CountStateAppend | polvon/tui.py:303-304 | counts add up over concatenated listings |
| Tui.CountTwoStates | polvon/tui.py:302-304 | the counts of two distinct states together never exceed the total |
| Tui.InfoBarOf | polvon/tui.py:299-308 | the total, the active and failed counts with active plus failed at most the total, and the mode text from the toggle. The filtered count is present exactly when the query is non-empty, and is then the size of the filtered list |
| Tui.Truncate | polvon/tui.py:295 | descriptions of at most 60 characters are shown whole, longer ones as their first 60 characters and "..." |
| Tui.TruncateShape | polvon/tui.py:295 | a shown description has at most 63 characters and begins with the first min(length, 60) characters of the original |
| Tui.TruncateIdempotent | polvon/tui.py:295 | truncating a shown description again changes nothing |
| Tui.StateColour | polvon/tui.py:279-287 | green exactly for active, yellow exactly for inactive, red exactly for failed, blue for every other state |
| Tui.EnabledMark | polvon/tui.py:289 | a one-character mark that is the tick exactly when the unit is enabled and the cross when it is not |
| Tui.RowOf | polvon/tui.py:277-297 | a row keyed and labelled by the name, the state cell showing the state's value, coloured by the active state, marked by the enabled flag, with the truncated description |
| Tui.RowStateReadsBack | polvon/tui.py:279 | the state text of a row parses back to the record's active state |
| Tui.Table | polvon/tui.py:272-297 | one row per shown record, in order |
| Tui.ListingDescribed | polvon/service.py:108-118 | every record the listing returns has a description, so its row can be drawn |
| Tui.SelectedName | polvon/tui.py:310-315 | a name exactly when the cursor is on a shown row, and then that row's name |
| Tui.ControlNotice | polvon/tui.py:334-340 | an information notice with the message on success, otherwise an error notice with "Error: " and the message |
| Tui.StatusEffect | polvon/tui.py:422-433 | with no or an empty selection, the "No service selected" warning. Otherwise the status screen with the command's output when `status` returned at most 3, else the error notice "Failed to get service status" |
| Tui.LogsEffect | polvon/tui.py:435-446 | with no or an empty selection, the warning. Otherwise the log screen exactly when `journalctl` exited 0 with non-empty output, else the error notice "Failed to get service logs" |
| Tui.PolvonApp.constructor | polvon/tui.py:223-230 | a manager with the given `sudo` setting, an empty listing and view, an empty query and the active-only mode |
| Tui.PolvonApp.FilterServices | polvon/tui.py:260-270 | the view becomes the filter of the listing by the current query |
| Tui.PolvonApp.LoadServices | polvon/tui.py:253-258 | the listing becomes what `list_services` returns in the current mode, and the view is refiltered |
| Tui.PolvonApp.Refresh | polvon/tui.py:317-320 | reloads as `LoadServices` does and says "Services refreshed" |
| Tui.PolvonApp.ToggleAll | polvon/tui.py:322-325 | flips the mode and reloads in the new mode |
| Tui.PolvonApp.OnSearchInputChanged | polvon/tui.py:460-466 | the query becomes the input's value and the view is refiltered by it |
| Tui.PolvonApp.ClearSearch | polvon/tui.py:453-466 | the query becomes empty and the view becomes the whole listing |
| Tui.PolvonApp.GetSelectedService | polvon/tui.py:310-315 | a name exactly when the cursor is on a row of the shown list, and then the name of that row's unit |
| Tui.PolvonApp.SelectedIsListed | polvon/tui.py:310-315 | a selected name belongs to a listed record that matches the current query |
| Tui.PolvonApp.TableRows | polvon/tui.py:272-297 | one row per shown unit, in the order of the view, each row built from its unit |
| Tui.PolvonApp.ControlAction | polvon/tui.py:327-420 | an empty or missing selection gives the warning and changes nothing. An unconfirmed action changes nothing. A confirmed one notifies the verb's outcome, reloads the listing only on success, and keeps the view consistent with the query |
| Scenarios.ListingOfOneActiveUnit | tests/test_service.py:24-38 | the one listed line yields one record named `test.service` that is active |
| Scenarios.InitExample | tests/test_service.py:15-21 | a manager built without sudo has `useSudo` false and one built with sudo has it true |
| Scenarios.ControlSuccessExample | tests/test_service.py:41-122 | every verb succeeds on exit 0, and its message contains the past tense and " successfully" |
| Scenarios.StartFailureExample | tests/test_service.py:55-66 | a failed start fails with the command's stderr as message |
| Scenarios.IsEnabledExamples | tests/test_service.py:125-148 | `enabled` output with exit 0 is enabled; `disabled` output with exit 1 is not |
| Scenarios.TimeoutExample | tests/test_service.py:151-160 | a timed-out command reads as return code 1, no output and a message containing "timed out" |
| Scenarios.LoadStateExamples | tests/test_service.py:162-175 | `loaded` and `not-found` parse to their states and `invalid` to `Unknown` |
| Scenarios.ActiveStateExamples | tests/test_service.py:177-194 | `active`, `inactive` and `failed` parse to their states and `invalid` to `Unknown` |
| Scenarios.SearchEmptyQuery | tests/test_tui_search.py:52-59 | the empty query shows all four units unchanged |
| Scenarios.SearchByName | tests/test_tui_search.py:61-68 | "nginx" shows only the nginx unit |
| Scenarios.SearchByDescription | tests/test_tui_search.py:70-77 | "server" shows all four units |
| Scenarios.SearchIgnoresCase | tests/test_tui_search.py:79-86 | "NGINX" shows only the nginx unit |
| Scenarios.SearchPartialName | tests/test_tui_search.py:88-95 | "apach" shows only the Apache unit |
| Scenarios.SearchWithoutMatch | tests/test_tui_search.py:97-103 | "nonexistent" shows nothing |
| Scenarios.SearchHttp | tests/test_tui_search.py:105-113 | "http" shows only the Apache unit |
| Scenarios.SearchWithoutDescription | tests/test_tui_search.py:115-131 | a unit without a description is found by its name |
| Scenarios.InfoBarOfSearchUnits | polvon/tui.py:299-308 | over the four test units the bar counts four in total, two active and one failed, in active-only mode, with no filter count |
| Scenarios.NginxLineParses | polvon/service.py:102-120 | the nginx unit's listing line parses back to the nginx record, its description kept with its inner spaces |

## Left out

- Running processes: `subprocess.run`, its 30-second timeout and the exception
  types are an oracle from command vectors to outcomes. The oracle is a
  function, so the same command always has the same outcome within one
  operation. A change to the system made by a control command is modelled only
  through the separate oracle `after` that the reload in `ControlAction` reads.
- The `capture_output` parameter of `_run_command`: every caller passes the
  default, so output is always captured.
- Whitespace beyond space, `\t`, `\n`, `\r`, `\v` and `\f`: Python's
  `split()` and `strip()` also break at the separators U+001C–U+001F and at
  non-ASCII whitespace; the model treats those as ordinary characters.
- Unicode case mapping: lower-casing maps `A`–`Z` only.
- The Textual framework: `compose`, `on_mount`, the CSS, the key bindings,
  focus handling (`action_focus_search`, and the focus part of
  `action_clear_search`) and the `ConfirmDialog`, `StatusScreen` and
  `LogScreen` widgets. Confirmation is the `confirmed` argument; notifications
  and screens are `Effect` values; the table is the list of `Row` values.
- The information bar's text: `InfoBarOf` gives the numbers and the mode it
  shows, not the formatted string.
- Tui.Table: requires every shown record to have a description. `update_table`
  would raise on a record without one, and `list_services` never produces one
  (`Tui.ListingDescribed`).
- The command-line entry point `polvon/main.py` is not part of this model.
- Unique unit names in one listing: nothing in the code ensures them, so the
  model neither assumes nor proves them.
