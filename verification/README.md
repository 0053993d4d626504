# tuixue.online visa tracker — a verified model of its core logic

tuixue.online tracks the earliest available U.S. visa interview dates at the
embassies and consulates it monitors. This project is a Dafny model of the parts
of that system that decide and shape things, with proofs of what they promise:

- **Change detection and notification routing** (`backend/notifier.py`):
  - whether a newly crawled earliest date is news;
  - which messages it triggers: the status-change email, the websocket push, the QQ group and Telegram messages;
  - how the QQ groups and the Telegram chat are chosen;
  - the date `converter`;
  - the `send_email` form;
  - the subscription and unsubscription confirmation links, lines and ten-attempt retry loops.

  Modules `Notifier`, `Mail`, `Url` and `Confirmation`. Each send is returned as an
  action or answered by an oracle parameter; nothing is sent.
- **The embassy catalog and the variable store** (`backend/global_var.py`):
  - the 78-row embassy table, its lookups by code, location and crawler code;
  - the region mapping and the region → country → code tree;
  - the crawler location lists `CGI_LOCATION` and `AIS_LOCATION`;
  - the get-or-initialise store `assign`/`value`.

  Modules `Catalog`, `EmbassyTree` and `Store`. The store is a class whose methods update its map in place.
- **The frontend selectors** (`frontend/src/redux/selectors.js`): codes by crawler
  system, the pruned region → country → embassy option tree, and the overview rows
  padded to the user's filter. Module `Selectors`.
- **The frontend helpers** (`frontend/src/utils/misc.js`): snake_case → camelCase
  renaming of JSON keys, and the date, time and `Date.UTC` readings of ISO timestamps.
  Module `Misc`.
- **The one-day chart page of the old site** (`visa2/view/index.php`):
  - the day shown;
  - reading the per-city logs into an x-axis and one series per city, with an in-place sort and the gap-filling loop;
  - the previous-day and next-day links.

  Module `DailyChart`.

Shared modules:
- `Calendar`: civil dates, day numbers, `Y/m/d` formatting and datetime order.
- `Text`: decimal numerals, `split`/`join`.
- `Seqs`: filtering, subsequences, duplicate-free sequences, first match.
- `Wrappers`: `Option`.

The catalog table is transcribed row by row from `EMBASSY_ATTR`. The lemmas
`Catalog.CodeIndexRows0` … `Catalog.CodeIndexRows77` and
`Catalog.LocationIndexRows0` … `Catalog.LocationIndexRows77` are per-row helpers of
the uniqueness proofs.

The `location` property of an embassy is `Catalog.Location`: the crawler code for a
"cgi" embassy, the English name otherwise. Every location-based lookup below uses it.

## Model

| member | source | states |
|---|---|---|
| Catalog.GetEmbassyLst | backend/global_var.py:211-213 | the embassy list has one entry per row of the table |
| Catalog.ListIsTable | backend/global_var.py:211-213 | entry `i` of the embassy list is row `i` of `EMBASSY_ATTR`, in table order |
| Catalog.CodeIndexOfRow | backend/global_var.py:89-168 | the code of row `i` maps back to `i`, so no two rows share a code |
| Catalog.LocationIndexOfRow | backend/global_var.py:89-168 | the location of row `i` maps back to `i`, so no two rows share a location |
| Catalog.TableCodesUnique | backend/global_var.py:89-168 | every code in the table is distinct |
| Catalog.TableLocationsUnique | backend/global_var.py:89-168 | every location (crawler code for cgi, English name for ais) in the table is distinct |
| Catalog.GetEmbassyByCode | backend/global_var.py:221-223 | a result is an embassy of the list with that code; None exactly when no embassy has the code |
| Catalog.GetEmbassyByCodeOfRow | backend/global_var.py:221-223 | in a list with distinct codes, looking up an entry's code returns that entry |
| Catalog.GetEmbassyByCodeOfTableRow | backend/global_var.py:221-223 | on the real table, looking up row `k`'s code returns row `k` |
| Catalog.GetEmbassyByLoc | backend/global_var.py:216-218 | a result is an embassy of the list with that location; None exactly when no embassy has it |
| Catalog.GetEmbassyByLocOfRow | backend/global_var.py:216-218 | in a list with distinct locations, looking up an entry's location returns that entry |
| Catalog.Location | backend/global_var.py:284-286 | the `location` property: the crawler code for a "cgi" embassy, the English name otherwise (its uniqueness on the table is TableLocationsUnique) |
| Catalog.GetEmbassyListByCrawlerCode | backend/global_var.py:226-227 | exactly the embassies with that crawler code, as a subsequence of the list (table order) |
| Catalog.Regions | backend/global_var.py:236 | every region of the table, each once, and nothing else |
| Catalog.GetRegionMapping | backend/global_var.py:230-237 | one entry per distinct region, in the order of the region list |
| Catalog.CodesInRegionExactly | backend/global_var.py:235 | a code is listed under a region exactly when its embassy lies in that region |
| Catalog.CodesInRegionSound | backend/global_var.py:235 | every code listed under a region is the code of an embassy in that region |
| Catalog.RegionMappingExact | backend/global_var.py:230-237 | a table embassy's code is listed under an entry exactly when the embassy lies in that region; every listed code is the code of an embassy of that region; the list keeps table order and is never empty |
| Catalog.CgiLocation | backend/global_var.py:174 | every cgi embassy's crawler code is in `CGI_LOCATION`, which is a subsequence of the table's crawler-code column (table order) |
| Catalog.CgiLocationExact | backend/global_var.py:174 | every entry of `CGI_LOCATION` comes from a cgi embassy, and the entries are distinct |
| Catalog.AisLocation | backend/global_var.py:175 | `AIS_LOCATION` holds every ais crawler code, each once |
| Catalog.AisLocationExact | backend/global_var.py:175 | every entry of `AIS_LOCATION` comes from an ais embassy |
| Catalog.DefaultFilterIsDomestic | backend/global_var.py:56 | every code of `DEFAULT_FILTER` is in the table and lies in region DOMESTIC |
| Catalog.NondomesticFilterIsAbroad | backend/global_var.py:57 | every code of `NONDOMESTIC_DEFAULT_FILTER` is in the table and lies outside DOMESTIC |
| EmbassyTree.AddCodeLookup | backend/global_var.py:244 | appending a code to a country map puts it at the end of that country's list; the other lists do not change |
| EmbassyTree.AddCodeNames | backend/global_var.py:244 | a new country key goes to the end of the map; a known one keeps its place |
| EmbassyTree.AddCodeNonEmpty | backend/global_var.py:244 | appending keeps every country list non-empty |
| EmbassyTree.AddCodeOk | backend/global_var.py:244 | appending keeps a country map duplicate-free, non-empty and with no empty list |
| EmbassyTree.AddToTreeLookup | backend/global_var.py:244 | `rce_tree[region][country].append(code)` adds the code at the end of that pair's list and of no other |
| EmbassyTree.AddToTreeNames | backend/global_var.py:244 | a new region key goes to the end of the tree; a known one keeps its place |
| EmbassyTree.AddToTreeNoDup | backend/global_var.py:244 | appending keeps the region keys distinct |
| EmbassyTree.AddToTreeMapsOk | backend/global_var.py:244 | appending keeps every country map well formed |
| EmbassyTree.AddToTreeWellFormed | backend/global_var.py:242-244 | appending keeps the whole tree well formed |
| EmbassyTree.TreeOfWellFormed | backend/global_var.py:242-244 | the tree built from any prefix of the table is well formed |
| EmbassyTree.TreeOfLookup | backend/global_var.py:242-244 | under every region and country the tree holds exactly that pair's codes, in table order |
| EmbassyTree.TreeOfRegions | backend/global_var.py:246-255 | the tree's regions are the table's regions, once each, in order of first appearance |
| EmbassyTree.TreeCodeHome | backend/global_var.py:240-256 | each code is filed under its own region and country and under no other pair |
| EmbassyTree.CountryCodesAt | backend/global_var.py:249-253 | in a map with distinct keys, the list found for an entry's country is that entry's list |
| EmbassyTree.RegionCountriesAt | backend/global_var.py:246-255 | in a tree with distinct keys, the map found for an entry's region is that entry's map |
| EmbassyTree.TreeNodeCodes | backend/global_var.py:246-256 | every country node of the result lists exactly its pair's codes in table order, and never none |
| EmbassyTree.BuildTree | backend/global_var.py:240-256 | the loop builds a well-formed tree with the table's regions and each pair's codes in table order |
| EmbassyTree.GetRegionCountryEmbassyTree | backend/global_var.py:240-256 | the same for the real embassy table |
| Store.ValueOf | backend/global_var.py:300-308 | `value` returns the stored value when the name is present, the default otherwise |
| Store.Initialised | backend/global_var.py:300-308 | after `value` the name is present, no other key changes, and the name holds what `value` returned |
| Store.GlobalVar.constructor | backend/global_var.py:289-291 | the store starts empty |
| Store.GlobalVar.Assign | backend/global_var.py:294-297 | `assign` overwrites the name's value and changes nothing else |
| Store.GlobalVar.Value | backend/global_var.py:300-308 | `value` returns the stored value or the default, and stores the default only when the name is absent |
| Store.ValueAfterAssign | backend/global_var.py:294-308 | after `assign(k, v)`, `value(k, d)` returns `v` for any `d` and leaves the store unchanged |
| Store.ValueIsStable | backend/global_var.py:300-308 | a second `value` with another default returns what the first returned and changes nothing |
| Store.OtherNamesUnchanged | backend/global_var.py:294-308 | neither `assign` nor `value` adds, removes or changes any other name |
| Store.ValueIgnoresDefault | backend/global_var.py:304-308 | on a present name the default is ignored and the store is left as it is |
| Store.Scenario | backend/global_var.py:294-308 | on a fresh store, `value(k, d)` gives `d` and, after `assign(k, v)`, `value(k, d)` gives `v` |
| Mail.SendEmailForm | backend/notifier.py:215-230 | the posted form carries the title, the content and the default sender fields |
| Mail.SingleReceiver | backend/notifier.py:227 | a single receiver is posted unchanged |
| Mail.ReceiversRoundTrip | backend/notifier.py:227 | when no address contains "@@@", splitting the receiver field at "@@@" gives back every receiver, in order |
| Mail.SendWithRetry | backend/notifier.py:127-138 | at most ten posts; stops at the first reply containing "success"; reports failure exactly when all ten fail |
| Notifier.Letter | backend/global_var.py:170 | a visa type's letter is one of "FJBHOL" |
| Notifier.LetterInjective | backend/global_var.py:170 | distinct visa types have distinct letters |
| Notifier.OldStatusReads | backend/notifier.py:323 | `old_status` is "/" (no numbers) for no previous date, else reads back as that date's year, month and day |
| Notifier.Converter | backend/notifier.py:244-249 | `converter` gives "/" exactly for no date; what any other text reads back as is ConverterReads |
| Notifier.ConverterReads | backend/notifier.py:244-249 | `converter` gives "/" for None, month/day in the current year, year/month/day otherwise, with no zero padding |
| Notifier.FiltersDisjoint | backend/global_var.py:56-57 | no code is in both default filters, so the QQ group choice is never ambiguous |
| Notifier.QqGroups | backend/notifier.py:258-263 | a `DEFAULT_FILTER` code gets the domestic groups and a `NONDOMESTIC_DEFAULT_FILTER` code the non-domestic ones, whichever test is made first; any other code gets none |
| Notifier.TgChat | backend/notifier.py:284-287 | the domestic chat for region DOMESTIC, the non-domestic chat for every other region; its agreement with the QQ choice is QqAndTgAgree |
| Notifier.QqAndTgAgree | backend/notifier.py:258-287 | for a domestic-filter code both chats are the domestic ones; for a non-domestic-filter code both are the non-domestic ones |
| Notifier.GroupMessages | backend/notifier.py:271-277 | one group message per QQ group, in order, each with the same text |
| Notifier.SendQqTg | backend/notifier.py:236-290 | the requests of `send_qq_tg` in order; their layout is SendQqTgShape and their kinds SendQqTgOnlyChats |
| Notifier.SendQqTgShape | backend/notifier.py:258-290 | with no QQ groups only the Telegram message is sent; otherwise auth, verify, one message per group, release, then Telegram |
| Notifier.SendQqTgOnlyChats | backend/notifier.py:236-290 | `send_qq_tg` sends only QQ and Telegram messages |
| Notifier.StatusEmail | backend/notifier.py:315-336 | one email, to the pair's subscribers, exactly when the pair has a non-empty subscriber list; otherwise none |
| Notifier.NotifyVisaStatusChange | backend/notifier.py:293-354 | returns False with nothing sent, or True after at least one request, and True only when there is a record and a new date; the exact condition is NotifyExactlyWhenEarlier |
| Notifier.NotifyColdStart | backend/notifier.py:307-308 | with no stored records nothing is notified and nothing sent |
| Notifier.NotifyNoDate | backend/notifier.py:311-312 | with no new date nothing is notified and nothing sent, whatever the last date |
| Notifier.NotifyExactlyWhenEarlier | backend/notifier.py:307-354 | notified exactly when there is a record, a new date, and the last date is None or later than the new one; otherwise nothing is sent |
| Notifier.NotifyNoRepeat | backend/notifier.py:313 | the same date seen again is not news |
| Notifier.NotifyActions | backend/notifier.py:313-353 | a notification sends the status email (if any), then the websocket push, then QQ/Telegram for F and J |
| Notifier.NotifyEmailCount | backend/notifier.py:320-336 | on a notification exactly one email is sent when the pair has subscribers, none otherwise |
| Notifier.NotifyWebSocketCount | backend/notifier.py:338-347 | on a notification exactly one websocket push is sent |
| Notifier.NotifyChatsOnlyForFJ | backend/notifier.py:350-351 | a Telegram message is sent exactly for F and J; other types send no QQ message |
| Notifier.NotifyEmailStatuses | backend/notifier.py:320-336 | the email goes to the pair's subscribers with the status title; its new and old status read back as the dates |
| Url.ValuesWithout | backend/notifier.py:106 | removing a key removes all its values and keeps those of the other keys |
| Url.SetValues | backend/notifier.py:106 | after `set(k, v)` key `k` has the single value `v`; other keys keep their values |
| Url.AppendValues | backend/notifier.py:108-110 | `append(k, v)` adds `v` after `k`'s values; other keys keep their values |
| Url.SetFresh | backend/notifier.py:166-168 | `set` on a key not yet present is an `append` |
| Confirmation.Triples | backend/notifier.py:107-110 | the triples part has three parameters per subscription |
| Confirmation.TriplesAt | backend/notifier.py:107-110 | parameters 3i..3i+2 are subscription i's `visa_type`, `code` and `till`, in list order |
| Confirmation.TripleHasNoEmail | backend/notifier.py:107-110 | a triple carries no `email` parameter |
| Confirmation.TriplesHaveNoEmail | backend/notifier.py:107-110 | the triples carry no `email` parameter |
| Confirmation.EmailOnce | backend/notifier.py:105-110 | the subscription link carries `email` exactly once, with the address |
| Confirmation.AppendTriple | backend/notifier.py:108-110 | the three `append` calls add exactly one triple at the end |
| Confirmation.TriplesSnoc | backend/notifier.py:107-110 | one more subscription adds its triple at the end |
| Confirmation.SubscriptionUrl | backend/notifier.py:105-110 | the link is the subscription page with `email`, then one triple per subscription in list order |
| Confirmation.SetTripleOnAddress | backend/notifier.py:165-168 | the three `set` calls on a copy of the address-only link give that link plus one triple |
| Confirmation.UnsubscriptionUrls | backend/notifier.py:159-173 | each per-subscription link carries `email` and exactly its own triple; the unsubscribe-all link carries every triple in order |
| Confirmation.EmbassyName | backend/notifier.py:115 | when some embassy has the code, the name shown is the English name of an embassy with that code |
| Confirmation.EmbassyNameOfRow | backend/notifier.py:115 | a table code is shown as its embassy's English name |
| Confirmation.EmbassyNameUnknown | backend/notifier.py:115 | a code not in the table is shown as "None" |
| Confirmation.StrftimeIsNotForever | backend/notifier.py:116 | a formatted date is never the text "FOREVER" |
| Confirmation.SubscriptionTill | backend/notifier.py:116 | the subscription line's end date: "FOREVER" for `datetime.max`, else `%Y/%m/%d`; proved in SubscriptionTillForever |
| Confirmation.UnsubscriptionTill | backend/notifier.py:180 | the unsubscription line's end date: `%Y/%m/%d` before year 9999, else "FOREVER"; proved in UnsubscriptionTillForever |
| Confirmation.SubscriptionTillForever | backend/notifier.py:116 | subscription lines say FOREVER exactly for `datetime.max`, else a date that reads back as the day |
| Confirmation.UnsubscriptionTillForever | backend/notifier.py:180 | unsubscription lines say FOREVER exactly for year 9999, else a date that reads back as the day |
| Confirmation.TillTextsDisagree | backend/notifier.py:116 | the two templates render 9999-12-31 00:00 differently: as a date in one and as FOREVER in the other |
| Confirmation.User | backend/notifier.py:121 | the greeting name is a prefix of the address without "@", ending at its first "@" if there is one |
| Confirmation.UserOfAddress | backend/notifier.py:121 | the salutation is the part of the address before the first "@" |
| Confirmation.SubscriptionForm | backend/notifier.py:112-132 | the subscription form goes to the address alone, under the confirmation title, and its link carries `email` exactly once, with the address |
| Confirmation.UnsubscriptionForm | backend/notifier.py:144-190 | the form goes to the address; no subscriptions selects the empty-subscription title and body, otherwise the confirmation title |
| Confirmation.SendSubscriptionConfirmation | backend/notifier.py:103-138 | posts the subscription form to the address at most ten times, stopping at the first success; false exactly when all ten fail, and then after exactly ten attempts |
| Confirmation.SendUnsubscriptionConfirmation | backend/notifier.py:141-204 | the same ten-attempt loop for the unsubscription form, on both the empty and the non-empty path; a failure means exactly ten attempts |
| Selectors.EmbassyBySys | frontend/src/redux/selectors.js:13-18 | "all" gives every code in list order; otherwise exactly the codes of that system, in list order |
| Selectors.Leaves | frontend/src/redux/selectors.js:37-39 | the leaves are the codes in both the country list and the by-system list, in embassy-list order, titled by `t` |
| Selectors.LeavesExact | frontend/src/redux/selectors.js:37-39 | a code is a leaf exactly when it is in the country list, in the by-system list and in the embassy list |
| Selectors.LeavesInListOrder | frontend/src/redux/selectors.js:37-39 | the leaves follow the embassy list's order, not the country list's |
| Selectors.CountryNodesExact | frontend/src/redux/selectors.js:33-41 | no country node is empty; every country with a leaf is kept; country order follows the tree |
| Selectors.RegionNodesExact | frontend/src/redux/selectors.js:28-43 | no region node is empty; every region with a non-empty country is kept; region order follows the tree |
| Selectors.EmbassyTreeSelector | frontend/src/redux/selectors.js:23-44 | `makeEmbassyTreeSelector(sys, t)`: the region nodes over the codes of that system; soundness and completeness are TreeLeafSound and TreeLeafComplete |
| Selectors.TreeLeafSound | frontend/src/redux/selectors.js:23-44 | every leaf is a listed embassy of the system, filed under that region and country in the tree; no node on the path is empty |
| Selectors.TreeLeafComplete | frontend/src/redux/selectors.js:23-44 | every embassy of the system filed under a region and country appears there in the output |
| Selectors.OverviewDetail | frontend/src/redux/selectors.js:54-67 | one row per filter code, in filter order, each with that code |
| Selectors.OverviewDetailRow | frontend/src/redux/selectors.js:58-66 | a row is the first overview with that code, or the "/" placeholder when none has it |
| Misc.ToUpper | frontend/src/utils/misc.js:1 | a lowercase ASCII letter becomes uppercase; any other character is kept |
| Misc.SnakeToCamel | frontend/src/utils/misc.js:1 | never longer than its input; a string without "_" is unchanged; a trailing "_" is kept |
| Misc.SnakeRoundTrip | frontend/src/utils/misc.js:1 | on a snake_case key the result has no "_" and converts back to the key |
| Misc.SnakeToCamelInjective | frontend/src/utils/misc.js:1 | distinct snake_case keys get distinct camelCase names |
| Misc.PutKeys | frontend/src/utils/misc.js:12 | `fromEntries` puts a new key at the end and keeps a known key in its place |
| Misc.PutFresh | frontend/src/utils/misc.js:12 | a new key is appended |
| Misc.PutMembers | frontend/src/utils/misc.js:12 | on distinct keys, the members after a put are the new entry and exactly the old members with other keys |
| Misc.FromEntriesKeys | frontend/src/utils/misc.js:12 | `fromEntries` keeps every key once, and no other |
| Misc.FromEntriesDistinct | frontend/src/utils/misc.js:12 | with distinct keys `fromEntries` keeps the entries as they are |
| Misc.FromEntriesSound | frontend/src/utils/misc.js:12 | every member of the result is the last entry with its key |
| Misc.FromEntriesComplete | frontend/src/utils/misc.js:12 | the last entry with each key is in the result |
| Misc.RenameObjectKeys | frontend/src/utils/misc.js:3-13 | non-objects and null are unchanged; arrays stay arrays of the same length; objects stay objects |
| Misc.RenamedMembers | frontend/src/utils/misc.js:12 | renaming keeps the number of entries |
| Misc.RenameObjectKeysOfObject | frontend/src/utils/misc.js:12 | the renamed object has distinct keys, and every renamed key is among them |
| Misc.RenameObjectMemberSource | frontend/src/utils/misc.js:12 | each member of the result is an input entry, renamed and recursively converted, with no later entry renamed to the same key |
| Misc.CamelKeysDistinct | frontend/src/utils/misc.js:12 | distinct snake_case keys stay distinct after renaming |
| Misc.RenameRoundTrip | frontend/src/utils/misc.js:3-13 | on JSON whose keys are distinct snake_case names, converting the keys back gives the input |
| Misc.DateFromIsoStringPrefix | frontend/src/utils/misc.js:20 | the date parts, joined by "-", are the text before the first "T" |
| Misc.DateFromIsoString | frontend/src/utils/misc.js:20 | `getDateFromISOString`: the text before the first "T" split at "-"; proved in DateFromIsoStringPrefix and DateOfIsoFormat |
| Misc.TimeFromIsoString | frontend/src/utils/misc.js:21-25 | fails exactly when there is no "T"; no part keeps a "." |
| Misc.CutFractions | frontend/src/utils/misc.js:25 | one part per input, none containing "." |
| Misc.ParseIntNumeral | frontend/src/utils/misc.js:28-29 | `parseInt` of a decimal numeral is its value |
| Misc.ParseInt | frontend/src/utils/misc.js:28-29 | `parseInt(e, 10)`: leading JS white space and one sign skipped, the longest digit prefix read, NaN (None) without digits; ParseIntNumeral gives its value on numerals |
| Misc.FullYear | frontend/src/utils/misc.js:30 | `Date.UTC` maps years 0..99 to 1900..1999 and keeps the others |
| Misc.DateUtc | frontend/src/utils/misc.js:30 | `Date.UTC` never throws; a time value lies within ±8.64e15 ms |
| Misc.ReadFirstThree | frontend/src/utils/misc.js:28-29 | a successful read of the first three fields yields three numbers |
| Misc.ReadThreeNumerals | frontend/src/utils/misc.js:28-29 | three numerals read as their values |
| Misc.UtcFromIsoString | frontend/src/utils/misc.js:27-31 | throws exactly when the text has no "T" |
| Misc.UtcOfReads | frontend/src/utils/misc.js:27-31 | `Date.UTC` on whatever the fields read as never throws |
| Misc.DateOfIsoFormat | frontend/src/utils/misc.js:20 | the date parts of an ISO timestamp are its zero-padded year, month and day |
| Misc.ClockParts | frontend/src/utils/misc.js:21-25 | the time parts of "hh:mm:ss[.fff]" are hh, mm and ss |
| Misc.TimeOfIsoFormat | frontend/src/utils/misc.js:21-25 | the time parts of an ISO timestamp are its zero-padded hour, minute and second |
| Misc.UtcFromReads | frontend/src/utils/misc.js:27-31 | `getUTCFromISOString` reads the date and time fields and passes them on |
| Misc.UtcOfReadsSome | frontend/src/utils/misc.js:30 | the month goes to `Date.UTC` as `mm - 1` |
| Misc.ReadPaddedThree | frontend/src/utils/misc.js:28-29 | zero-padded fields read back as their numbers |
| Misc.DateUtcOfDay | frontend/src/utils/misc.js:30 | for a calendar day and a clock time, `Date.UTC` is the day number times 86400000 plus the clock in ms |
| Misc.MakeDayOfMonth | frontend/src/utils/misc.js:30 | `MakeDay` with a zero-based month is the day number of the civil date |
| Misc.MakeDay | frontend/src/utils/misc.js:30 | ECMAScript MakeDay with the month index carried into the year; MakeDayOfMonth ties it to the civil day number |
| Misc.UtcOfIsoFormat | frontend/src/utils/misc.js:27-31 | for any ISO timestamp, the result is its milliseconds since the epoch (two-digit years as 19xx), fractions dropped |
| Misc.UtcOfPadded | frontend/src/utils/misc.js:27-31 | zero-padded fields reach `Date.UTC` as their numbers, with the month one less |
| Misc.DateUtcOfStamp | frontend/src/utils/misc.js:30 | `Date.UTC` of a timestamp's fields is its milliseconds since the epoch |
| Calendar.NextDay | visa2/view/index.php:92 | the next day is a valid date after the given one |
| Calendar.PrevDay | visa2/view/index.php:89 | the previous day is a valid date before the given one |
| Calendar.PrevOfNext | visa2/view/index.php:88-93 | stepping forward then back returns to the day |
| Calendar.NextOfPrev | visa2/view/index.php:88-93 | stepping back then forward returns to the day |
| Calendar.AddDays | visa2/view/index.php:88-93 | `modify("±n day")` gives a valid date |
| Calendar.EpochIsDayZero | frontend/src/utils/misc.js:30 | 1970-01-01 is day 0 |
| Calendar.YearLength | frontend/src/utils/misc.js:30 | a year has 366 days exactly when it is a Gregorian leap year |
| Calendar.DayNumberNext | visa2/view/index.php:92 | the next day's number is one more |
| Calendar.DayNumberPrev | visa2/view/index.php:89 | the previous day's number is one less |
| Calendar.DayNumberAddDays | visa2/view/index.php:88-93 | moving by n days changes the day number by exactly n |
| Calendar.AddDaysAdd | visa2/view/index.php:89-92 | moving by a then b days is moving by a + b, so "-1 day" then "+2 day" is one day after |
| Calendar.FormatYmdReads | visa2/view/index.php:28 | `Y/m/d` text reads back as the date's year, month and day |
| Calendar.LessIrreflexive | backend/notifier.py:313 | no datetime is earlier than itself |
| Calendar.LessTransitive | backend/notifier.py:313 | "earlier than" is transitive |
| Calendar.LessTrichotomy | backend/notifier.py:313 | of two datetimes exactly one holds: equal, earlier or later |
| Calendar.MaxIsGreatest | backend/notifier.py:116 | every valid datetime is `datetime.max` or earlier |
| DailyChart.NumeralIsNumeric | visa2/view/index.php:25 | a decimal numeral passes PHP's `is_numeric` |
| DailyChart.IsNumeric | visa2/view/index.php:25 | PHP `is_numeric`: optional leading white space, a sign, digits with an optional fraction and exponent, optional trailing white space, and false for a missing parameter; NumeralIsNumeric shows every numeral passes |
| DailyChart.ShownDate | visa2/view/index.php:22-28 | "y/m/d" when all three parameters are numeric, otherwise today's `Y/m/d` |
| DailyChart.ShownDateReads | visa2/view/index.php:22-28 | numeral parameters read back as given; a missing parameter shows today |
| DailyChart.RawOfKeys | visa2/view/index.php:33-43 | a timestamp has an entry exactly when it is the non-empty first token of some line |
| DailyChart.RawOfLast | visa2/view/index.php:37-39 | for a repeated timestamp the last line's value wins |
| DailyChart.RawOf | visa2/view/index.php:36-41 | the raw map of one city; its keys are RawOfKeys, its values RawOfLast |
| DailyChart.AxisOf | visa2/view/index.php:36-41 | the timestamps in first-seen order; its members are AxisOfMembers |
| DailyChart.AxisOfMembers | visa2/view/index.php:40 | the axis holds each non-empty timestamp of the logs exactly once |
| DailyChart.ReadCity | visa2/view/index.php:36-42 | one city's loop fills its raw map and extends the axis by the new timestamps |
| DailyChart.ReadLogs | visa2/view/index.php:33-43 | every city gets the raw map of its lines; the axis collects the timestamps of all cities in first-seen order |
| DailyChart.StrLtTotal | visa2/view/index.php:44 | any two distinct strings are ordered one way |
| DailyChart.StrLtTransitive | visa2/view/index.php:44 | the string order is transitive |
| DailyChart.SortInPlace | visa2/view/index.php:44 | `sort($x)` leaves the array sorted and a permutation of its old contents |
| DailyChart.SortedAxis | visa2/view/index.php:44 | a sorted permutation of a duplicate-free axis is strictly increasing, with the same members |
| DailyChart.SortAxis | visa2/view/index.php:44 | the sorted axis is strictly increasing, duplicate-free and has the same timestamps |
| DailyChart.IsNull | visa2/view/index.php:51 | `$j == null` on a string or null: true for null and "" only |
| DailyChart.OneStepFill | visa2/view/index.php:45-55 | one series entry per axis entry |
| DailyChart.FillSeries | visa2/view/index.php:45-55 | the source's forward copy then backward loop compute the one-step fill |
| DailyChart.OneStepFillAt | visa2/view/index.php:49-54 | a present value (neither missing nor "", the two values PHP's `$j == null` holds for; "0" is present) is kept; slot 0 is its raw value; a missing slot takes the raw value of the slot before |
| DailyChart.OneStepLeavesGap | visa2/view/index.php:49-54 | with two gaps in a row, the second stays empty under the one-step fill but not under carrying forward |
| DailyChart.LastPresent | visa2/view/index.php:45-55 | the latest slot at or before `i` whose value is present (not null and not "", so "0" counts as present), or 0 |
| DailyChart.CarryForward | visa2/view/index.php:45-55 | one series entry per axis entry |
| DailyChart.CarryForwardAt | visa2/view/index.php:45-55 | each slot holds the value of the latest present slot at or before it |
| DailyChart.FillForward | visa2/view/index.php:45-55 | the corrected forward loop computes the carried-forward series |
| DailyChart.ChartAxis | visa2/view/index.php:29-44 | every city's raw map in order, and the axis: every non-empty log timestamp once, sorted strictly increasing |
| DailyChart.BuildChart | visa2/view/index.php:29-55 | the page as written: the sorted axis and, for each city, one entry per timestamp filled by the one-step fill of lines 46-54 |
| DailyChart.BuildChartCarried | visa2/view/index.php:29-55 | the page with the corrected fill: the same axis, each city's gaps carried forward from the last present value |
| DailyChart.PrevDayYear | visa2/view/index.php:89 | "-1 day" is the previous day |
| DailyChart.AddDaysYear | visa2/view/index.php:92 | "+1 day" is the next day |
| DailyChart.NeighbourLinks | visa2/view/index.php:88-93 | the exploded `Y/m/d` of "-1 day" and then "+2 day"; NeighbourLinksAreAdjacent shows they are the previous and the next day |
| DailyChart.NeighbourLinksAreAdjacent | visa2/view/index.php:88-93 | the links carry the padded fields of the previous and the next day, whose day numbers are one less and one more |

## Left out

- Network I/O: the HTTP posts, the websocket connection, the process pool and the QQ/Telegram requests. They are returned as actions, or answered by an oracle parameter `server(form, k)`. Request failures and exceptions are not modelled; the websocket error is swallowed in the source as well.
- The subscription database: `get_email_list` and `get_subscriptions_by_email` are parameters (the e-mail dictionary and the entry list).
- The `url` module is not part of this model. Its query is modelled as an ordered list of key/value pairs. `set` removes every pair with the key and appends one; `append` appends. The rendering of the URL text is left out.
- The clock: `datetime.now()` (the send time, and the current year in `converter`) and `time()` on the chart page are parameters. Timezone offsets (`timezone(timedelta(hours=utcoffset))`, float offsets such as 5.5) are carried in the table but not applied.
- `getTimeFromUTC` reads local time. It depends on the host's timezone and is not modelled.
- The HTML templates: email bodies are structured values (lines, links, addresses), not rendered text. The ECharts page output is not modelled.
- The secrets file, `ADDITIONAL_INFO`/`CANCEL_DATE` file reads and the lock in `global_var.py`. The store is sequential, and each `assign`/`value` is one atomic step.
- Catalog.Regions: `get_region_mapping` iterates a Python set, whose order is unspecified. The model takes the order of first appearance, so the order of `GetRegionMapping` is one the source may produce, not the one it must; the tree's region order (a dict, insertion-ordered) is exact.
- Catalog.AisLocation: `AIS_LOCATION` is `list(set(...))`, whose order is unspecified. The model takes the order of first appearance; only membership and distinctness are claimed.
- The other selectors (`makeQqTgInfoSelector`, `makeFilterSelectorByVisaType`, `makeDetailSelectorByVisaType`, `makeNewestVisaStatusSelector`) and `createSelector` memoisation. The first four are single property reads.
- `renameObjectKeys` on non-JSON objects (Date, Map, prototypes) and JavaScript's ordering of integer-like keys first in `Object.entries` are not modelled. Objects are ordered entry lists.
- Misc.ToUpper: `toUpperCase` is modelled for ASCII letters only. Other characters are kept as they are.
- Misc.DateUtc: `Date.UTC` is modelled in exact integer arithmetic. Double rounding of components beyond 2^53 and `NaN` from non-numeric fields (read as missing values) are not distinguished beyond the "no value" case.
- File reads on the chart page: `file_get_contents` is given as each city's contents. A missing file reads as empty content, as PHP's `false` does after string conversion.
- PHP's loose comparisons: `in_array` and `sort` compare numeric-looking strings as numbers. The model compares timestamps as strings by code point, which agrees on the site's `HH:MM` tokens.
- DailyChart.NeighbourLinks: the links are stated for a valid date from year 1 on. PHP's parsing of any other `$date` is not modelled. An in-range overflow such as "2020/2/31" rolls over to 2020/03/02. A month above 12 or a day above 31 makes `new Datetime` at visa2/view/index.php:88 throw, so neither link is printed. `?y=2020&m=13&d=45` passes the `is_numeric` test of line 25 and builds exactly such a date, "2020/13/45".
- Calendar.FormatYmd: the year is always zero-padded to four digits. For years below 1000, the C library behind CPython's `%Y` may print it without padding; that case is not modelled.
- DailyChart.ShownDate: requires a valid "today" from year 0 on (the clock's own date); the parameters themselves are unconstrained.

## Findings

| source | as written | input that shows it | evidently intended | confidence | as-written member | corrected member |
|---|---|---|---|---|---|---|
| visa2/view/index.php:49-54 | the backward loop fills a missing point from the raw value of the previous timestamp, read before that slot is filled, so only the first gap of a run is filled | one city with a value only at the first of three timestamps: the series is [a, a, missing] | each missing point carries the last present value forward: [a, a, a] | not executed; medium | DailyChart.OneStepFill, DailyChart.FillSeries, DailyChart.BuildChart, DailyChart.OneStepLeavesGap | DailyChart.CarryForward, DailyChart.FillForward, DailyChart.CarryForwardAt, DailyChart.BuildChartCarried |
