# Armored Warfare statistics scraper, modelled in Dafny

The library fetches the statistics pages of the game's web site and reads records out of them:

- a player's statistics;
- a battalion's member roster;
- the results of a battalion name search.

This project models the library's extraction layer and proves what it promises. The layer has three parts:

- **Page classification.** The site reports soft errors only through the text of a notice. These are: not logged in, no such player, statistics hidden, and no such battalion.
- **Text processing.** Fields are turned into values with `clean_html`, whitespace and line splitting, `replace`, fixed offsets, and "empty means zero" defaults.
- **Result shaping.** This covers the records and their hand-written equality, the older dictionary-returning API, and the client's dispatch on the search response.

The modules follow the package:

| module | models |
|---|---|
| `Common` | `Option`, `Result` and the error kinds of `aw_api/exceptions.py`. It also holds the serialised values of the legacy dictionaries and a first-failure map over a sequence. |
| `Text` | The Python string operations the code relies on: `replace`, `split(c)`, `split()`, `strip`, `int()`, `str(int)`, and the decimal form read by `float()`. |
| `Html` | `Helper.clean_html`, written as a left-to-right scan for the shortest `<…>` on one line. |
| `Tiers` | `Helper.extract_battles_per_level` and `Helper.calculate_level_sum`. Both are methods with loops, proved against specification functions. |
| `Player` | `PlayerStatistics`, with its `__getitem__` and its `__eq__` and their None guards. |
| `Battalion` | `BattalionMemberEntry` and `BattalionSearchResultEntry`, with their `__eq__` and `__repr__`. |
| `Parser` | `Parser.parse_player_statistics` and `Parser.parse_battalion_players`. |
| `Api` | The legacy `API` class: the cookie fold, the request URLs, the five-key statistics dictionary and the role-less roster. |
| `Client` | The `Client` class and `GameMode`: mode normalisation, the statistics request, roster entries and the battalion search. |

**Page inputs.** HTML parsing is done by BeautifulSoup, which is not part of this model. A page is therefore given as what the code's lookups return:

- the `<p>` and `<div>` lists;
- the serialised `div.name`, `div.total` and `span.yellow`;
- the children of `div.clan`;
- the `div.list_pad` list;
- the kill-block divs;
- the tier breakdown;
- the `div.cont` list.

A missing lookup is `None`, and its `str()` is the text `"None"`.

**Errors.** A Python exception raised by a page of unexpected shape is the error `Malformed(part)`. Examples are an index out of range, a failed `int()` or `float()`, and the attribute of a missing element. When several could be raised, the model returns the first one in the code's evaluation order.

**HTTP.** An HTTP exchange is a parameter: a function from the requested URL to the status and the page, or the decoded search response itself.

## Model

| member | source | states |
|---|---|---|
| Html.TagEnd | aw_api/parser.py:41-44 | The end of the shortest `<.*?>` match: the first `>` before any line break. None exactly when every `>` comes after a line break. |
| Html.CleanHtmlRemovesLineTags | aw_api/parser.py:41-44 | After `clean_html` no `<` is followed by a `>` on the same line: every tag within one line is gone. |
| Html.CleanHtmlNoLineTag | aw_api/parser.py:41-44 | A text with no tag within a line comes back unchanged. |
| Html.CleanHtmlKeepsNoTagEnd | aw_api/parser.py:41-44 | A text whose first `>` follows a line break keeps that property once cleaned. |
| Html.CleanHtmlIdempotent | aw_api/parser.py:41-44 | Cleaning twice equals cleaning once. |
| Html.CleanHtmlTag | aw_api/parser.py:41-44 | A leading `<body>` with no `>` and no line break in its body is deleted and the rest is cleaned. |
| Html.TagEndAt | aw_api/parser.py:41-44 | The match ends at the first `>` when no line break comes before it. |
| Html.CleanHtmlShortens | aw_api/parser.py:41-44 | The output is never longer than the input. |
| Html.CleanHtmlText | aw_api/parser.py:41-44 | Text without `<` in front of the rest is copied through unchanged. |
| Tiers.WithoutNewlinesKeeps | aw_api/parser.py:145 | The comprehension over the breakdown keeps exactly the nodes that are not a bare line break, in a list no longer than its input. |
| Tiers.WithoutNewlinesConcat | aw_api/parser.py:145 | The comprehension keeps order and multiplicity, which the 1-indexed tier weights depend on. It distributes over concatenation, drops a single bare line break and keeps any other single node. |
| Tiers.TierCount | aw_api/parser.py:50-51 | A failure (fewer than two children, or a child that is not an integer) is the tier block error. |
| Tiers.TierCountOf | aw_api/parser.py:50-51 | An entry whose second-to-last child cleans to the text of `n` counts `n` battles. |
| Tiers.ExtractBattlesPerLevel | aw_api/parser.py:47-52 | The loop returns one count per entry, in order. It returns the first failing entry's error if any entry fails. |
| Common.MapAllStep | aw_api/parser.py:49-52 | One pass of an append-or-raise loop: a success extends the values, and a failure is the outcome of the whole sequence. |
| Common.MapAllFailsWithin | aw_api/parser.py:49-52 | An element that fails after a prefix that succeeds decides the outcome, whatever follows. |
| Tiers.CalculateLevelSum | aw_api/parser.py:55-59 | The loop's total is Σ i·xs[i-1] for i from 1. That sum equals both the sum read from the back and the sum read from the front. |
| Tiers.LevelSumSnoc | aw_api/parser.py:55-59 | Appending x to a list of length n adds (n+1)·x. |
| Tiers.LevelSumCons | aw_api/parser.py:55-59 | Prepending x gives x weight 1 and raises every other weight by one. |
| Tiers.WeightedSumIsLevelSum | aw_api/parser.py:55-59 | Enumerating from w adds (w-1) times the plain sum to the 1-indexed weighted sum. |
| Tiers.LevelSumBounds | aw_api/parser.py:55-59 | With non-negative counts, each battle weighs at least 1 and at most the number of tiers. |
| Parser.ClassifyPlayer | aw_api/parser.py:86-105 | Each outcome holds exactly when its own check matches the first notification. The checks come in order: not logged in (either variant), then no such player (with the requested nickname), then statistics hidden (with the requested nickname). A page that matches none is read. No notification at all is a malformed page. |
| Parser.NicknameFrom | aw_api/parser.py:108 | The nickname is one line: the second line of the cleaned name block. The read fails exactly when the cleaned name block has fewer than two lines, and the failure is the name block error. |
| Parser.NicknameFromSecondLine | aw_api/parser.py:108 | A cleaned name block `first\nnick\nrest` gives `nick`. |
| Parser.Unbracket | aw_api/parser.py:111-113 | The cleaned tag and the cleaned full name have no `[` and no `]`. |
| Parser.ClanFrom | aw_api/parser.py:109-117 | The tag and the full name are either both absent or both present. A present tag is not empty. The read fails exactly when `div.clan` is missing, has fewer than four children, or its fourth child has fewer than two tokens. The failure is the clan block error. |
| Parser.ClanFromSpan | aw_api/parser.py:109-117 | The child `<span>[TAG] NAME</span>` gives `TAG` and `NAME`. The child `<span>[] NAME</span>` gives neither. |
| Parser.BattlesFrom | aw_api/parser.py:119-121 | A failure is the total block error. |
| Parser.BattlesFromCount | aw_api/parser.py:119-121 | A count followed by "сыграно" as the last word reads back as that count. |
| Parser.BattlesFromNone | aw_api/parser.py:119-121 | The word "сыграно" alone reads as 0 battles. |
| Parser.DamageAndSpotting | aw_api/parser.py:123-131 | A failure is either the damage block error or the spotting value error. |
| Parser.DamageAndSpottingOf | aw_api/parser.py:123-131 | For a block whose line 6 has the third word `d` + "разведданным": the damage text is line 4, stripped, from its fourth character on. The spotting total is 0.0 when `d` is empty and `float(d)` otherwise; a `d` that is not a number is the spotting value error. |
| Parser.KillsFrom | aw_api/parser.py:133-137 | A failure is the kills block error. |
| Parser.KillsFromWord | aw_api/parser.py:133-137 | When the last word of the kills block is a three-character prefix followed by `d`, the average kills are 0.0 for an empty `d` and `float(d)` otherwise. A `d` that is not a number is the kills block error. |
| Parser.LevelsFrom | aw_api/parser.py:142-146 | A breakdown is read only from `div.diag_pad`, as the first-failure map of `TierCount` over its non-newline children. It is absent exactly when `div.game_stats3` is absent. A failure is the tier block error. |
| Parser.WinrateFrom | aw_api/parser.py:139-151 | A failure is the winrate error. |
| Parser.WinrateFromPercent | aw_api/parser.py:139-151 | A cleaned `span.yellow` of `d` + `%` gives `float(d)`. A `d` that is not a number is the winrate error. |
| Parser.DamageFrom | aw_api/parser.py:151-152 | A failure is the damage value error. |
| Parser.DamageFromDecimal | aw_api/parser.py:151-152 | A damage text `a.ds` converts to `a` plus the digits `ds` read as a decimal fraction. |
| Parser.AverageSpotting | aw_api/parser.py:154 | Without battles the spotting average is 0.0. With battles, the average times the battle count is the spotting total. |
| Parser.AverageLevel | aw_api/parser.py:142-149 | The average tier is absent exactly without a breakdown or without battles. Otherwise it times the battle count is the weighted tier total. |
| Parser.AverageLevelWithinTiers | aw_api/parser.py:142-149 | When the tier counts add up to the battle count, the average tier lies between 1 and the number of tiers. |
| Parser.ReadStatistics | aw_api/parser.py:108-157 | On success the nickname is the one from the name block. Tag and full name are absent together. The average tier is absent exactly without a breakdown or without battles. |
| Parser.ReadStatisticsFirstFailure | aw_api/parser.py:108-157 | A read fails exactly when one of its readers fails. The error is that of the first failing reader in the code's order, so a malformed part is reported only when every part read before it is well formed. |
| Parser.ParsePlayerStatistics | aw_api/parser.py:75-157 | A classified page gives its error and no field is read. An unclassified page gives the field read. On success the two "absent together" invariants hold. |
| Parser.ParsedAverages | aw_api/parser.py:142-157 | A successful parse stores the battle count read from the total block. Without battles, spotting is 0.0 and the tier average is absent. With battles, each average times the battle count is its total. |
| Parser.ParseIgnoresNickname | aw_api/parser.py:75-157 | The nickname argument only labels errors: a successful parse gives the same record for any argument. |
| Parser.ClassificationDecides | aw_api/parser.py:86-105 | Two pages with the same notifications that are classified as errors give the same error. Nothing else on the page matters. |
| Parser.MemberLinesMembers | aw_api/parser.py:193-197 | The member lines are exactly the lines that start with the member-link prefix. |
| Parser.MemberLinesConcat | aw_api/parser.py:193-197 | Filtering member lines distributes over concatenation, so line order is kept. |
| Parser.DecomposeRow | aw_api/parser.py:197-214 | A line fails exactly when it does not split into four tokens or its id is not an integer, and the failure is the roster line error. Otherwise the id is the second token's integer and the nickname the third token. |
| Parser.RosterCheck | aw_api/parser.py:171-193 | The redirect sentinel is checked first and gives "battalion not found". Otherwise fewer than two notifications is malformed, and a second notification that is the battalion not-logged-in notice gives NotAuth. After those, a missing `div.cont` is the roster block error. Passing all checks holds exactly when none of these applies. |
| Parser.RosterOf | aw_api/parser.py:159-217 | A failing check, such as the sentinel or the not-logged-in notice, is the parse's error. After the checks, the parse succeeds when every member line decomposes. A failure is then the error of some member line. On success there is one row per member line of the first `div.cont`, in order, each the decomposition of its line. |
| Parser.ParseBattalionPlayers | aw_api/parser.py:159-217 | The loop that appends a row per member line returns `RosterOf` of the page. |
| Parser.MemberLinesSnoc | aw_api/parser.py:193-197 | One more line joins the member lines exactly when it starts with the prefix. |
| Parser.MemberLinesStep | aw_api/parser.py:193-214 | One pass of the loop: a line that is not a member line changes nothing, a member line that is read adds its row, and one that fails decides the outcome of the whole roster. |
| Parser.MemberLineFails | aw_api/parser.py:205-207 | A member line that fails to decompose decides the outcome of the whole roster. |
| Parser.RowRoundTrip | aw_api/parser.py:195-214 | The member line the site renders for (id, nickname, role) decomposes back into exactly that row. |
| Parser.RosterOfRenderedRows | aw_api/parser.py:159-217 | A page whose member lines are rendered rows gives exactly those rows, in order. |
| Api.PrepareCookie | aw_api/api.py:75-85 | The loop builds `CookieMap` of the items. |
| Api.CookieMapKeys | aw_api/api.py:75-85 | The keys of the cookie map are exactly the items' names. |
| Api.CookieMapLastWins | aw_api/api.py:75-85 | Each name is mapped to the value of the last item that carries it. |
| Api.InitialCookie | aw_api/api.py:64-65 | The cookie is unset exactly for an empty list. Otherwise it is the prepared cookie map: its keys are exactly the items' names, and each name maps to the value of the last item that carries it. |
| Api.PlayerStatsUrl | aw_api/api.py:114 | Split on `&`, the URL is the base followed by the name, mode, data, type, day and ajax parameters, in that order. This holds for any nickname without `&`. |
| Api.BattalionPageUrl | aw_api/api.py:213 | Split on `&`, the URL is the base followed by `data=<id>`. |
| Api.SplitQuery | aw_api/api.py:114 | Joining parameters without `&` onto a base and splitting again gives them back. |
| Api.LegacyTag | aw_api/api.py:151-155 | A present tag is not empty and has no `[` or `]`. The read fails exactly when the child or the token is missing, and the failure is the clan block error. |
| Api.LegacyDamageText | aw_api/api.py:161-165 | A failure is the damage block error. |
| Api.LegacyDamageTextOf | aw_api/api.py:161-165 | The damage text is line 4 of the cleaned block, stripped, from its fourth character on. A block of fewer than five lines is the damage block error. |
| Api.ReadLegacy | aw_api/api.py:150-171 | On success the dictionary has exactly the keys winrate, battles, damage, clantag and nickname. The nickname comes from the name block, and clantag is None exactly for an empty tag. |
| Api.LegacyStatistics | aw_api/api.py:118-171 | A classified page gives its error, and its nickname-carrying errors carry no nickname. An unclassified page is read. A successful result has the five keys. |
| Api.LegacyClassification | aw_api/api.py:132-148 | The legacy classification is the newer one with the nickname dropped from the errors. |
| Api.LegacyTagAgrees | aw_api/api.py:151-155 | Where the newer parser reads a tag, the legacy parser reads the same tag. |
| Api.LegacyDamageAgrees | aw_api/api.py:161-165 | Where the newer parser reads the damage text, the legacy parser reads the same text. |
| Api.LegacyIsProjection | aw_api/api.py:150-171 | Where the newer field read succeeds, the legacy read succeeds too. Each of its five values is the newer record's value under that key. |
| Api.LegacyRow | aw_api/api.py:196-200 | A failure is the roster line error. |
| Api.WithoutRoles | aw_api/api.py:200-201 | One `{id, nickname}` row per roster row, in the same order, with the same id and nickname. |
| Api.LegacyRowsDropRoles | aw_api/api.py:194-201 | Reading lines the legacy way is reading them the newer way and dropping the roles. |
| Api.LegacyRosterDropsRoles | aw_api/api.py:173-203 | The legacy roster fails exactly when the newer roster parse fails, with the same error. On success it is that parse's rows without their roles. |
| Api.ParseBattalionPageForNicknames | aw_api/api.py:173-203 | The loop that appends an `{id, nickname}` row per member line returns `LegacyRosterOf` of the page: the checks, then the legacy row of each member line, stopping at the first failure. |
| Client.ModeOf | aw_api/enums.py:4-10 | `GameMode(v)` names a member exactly for 0 ≤ v ≤ 4. |
| Client.ModeValueRoundTrip | aw_api/enums.py:4-10 | Each member has its own value in 0..4, and that value names the member back. |
| Client.NormaliseMode | aw_api/client.py:155-156 | A member becomes the value that names it. A number passes through unchanged. |
| Client.ModeMemberAsNumber | aw_api/client.py:155-156 | Passing a member is the same as passing its value. `RB` is the same as 4. |
| Client.ClientStatsUrl | aw_api/client.py:110 | Split on `&`, the URL is the base followed by name, mode, data, type, maintype, day and ajax, in that order. This holds for any nickname without `&`. |
| Client.GetPage | aw_api/client.py:80-93 | The page is returned exactly for status 200. Any other status gives the bad-status error carrying that status. |
| Client.GetStatisticByNickname | aw_api/client.py:138-162 | The URL is fetched with the normalised mode and maintype and ajax at 0. A non-200 status gives the bad-status error. Status 200 gives the parse of the page labelled with the requested nickname. |
| Client.EntriesOf | aw_api/client.py:127-136 | One entry per row, same length and order. Each entry copies the nickname, id and role and carries the queried battalion id. |
| Client.GetBattalionPlayers | aw_api/client.py:114-136 | A non-200 status gives the bad-status error. A failed roster parse gives its error. Otherwise the result is the entries of the parsed rows. |
| Client.EntriesCompareByRow | aw_api/client.py:127-136 | Two entries from one roster request are equal exactly when their rows agree on id and role. |
| Client.SearchEntryOf | aw_api/client.py:190-191 | A data item gives an entry exactly when its key is an integer. The entry carries the name and the key as its id. |
| Client.SearchResults | aw_api/client.py:184-192 | The search succeeds exactly for status 200, error 0 and integer keys. It returns one entry per key, in key order. |
| Client.SearchErrors | aw_api/client.py:194-203 | Error 1 gives "query too short" with the query's length. Error 2 gives "not found" with the query. A non-200 status, or status 200 with another error code, gives the bad-status error with that status. A non-integer key is a malformed key. |
| Client.SearchBattalion | aw_api/client.py:164-203 | The loop over the response returns `SearchOutcome` of it. |
| Player.GetItem | aw_api/dataobjects/player.py:41-42 | A lookup succeeds for each of the nine field names. Other attribute names are not modelled: the model returns None for them. |
| Player.GuardedEq | aw_api/dataobjects/player.py:49-62 | The None guard: absent equals only absent, and present values compare by value. |
| Player.Equals | aw_api/dataobjects/player.py:44-74 | Equal exactly to another `PlayerStatistics` with the same nine fields. |
| Player.EqualsEquivalence | aw_api/dataobjects/player.py:44-74 | Equality is reflexive and symmetric, and false against any other class. |
| Player.EqualsByKeys | aw_api/dataobjects/player.py:41-74 | Two records are equal exactly when every field name looks up the same value in both. |
| Player.OptTextInjective | aw_api/dataobjects/player.py:41-42 | An optional text is recovered from its looked-up value. |
| Player.OptNumInjective | aw_api/dataobjects/player.py:41-42 | An optional number is recovered from its looked-up value. |
| Battalion.MemberEquals | aw_api/battalion.py:53-67 | Equal exactly to another member entry that matches in everything except possibly the nickname. |
| Battalion.MemberEqualsEquivalence | aw_api/battalion.py:64-67 | Member equality is reflexive, symmetric and transitive. It ignores the nickname and is false against any other class. |
| Battalion.MemberReprInjective | aw_api/battalion.py:69-70 | For nicknames without `(`, the repr determines the nickname, the id and the battalion id. |
| Battalion.SearchEquals | aw_api/battalion.py:92-103 | Equal exactly to a search entry with the same full name and id. |
| Battalion.SearchReprInjective | aw_api/battalion.py:89-90 | For names without `"`, the repr determines the search entry. |
| Battalion.ListEqualsIff | test_module/test_aw_api.py:89-103 | Lists of search entries are equal exactly when they have the same length and equal entries position by position. |
| Text.ParseShowInt | aw_api/parser.py:121 | `int(str(n))` is `n`, for every integer. |
| Text.ShowIntInjective | aw_api/parser.py:121 | Different integers have different texts. |
| Text.ParseDecimalOfInt | aw_api/parser.py:131 | `float` of an integer text is that integer. |
| Text.ParseDecimalPoint | aw_api/parser.py:131 | `float` of `str(a)` + `.` + digits is `a` plus the digits read as a decimal fraction. |

## Left out

- HTTP and sessions are parameters of the model. This covers `requests.Session`, `__get_page` and the search `POST`. The exchange is a function from the URL to a status and a page, or the decoded search response.
- The search response's JSON decoding is not modelled. A body that is not JSON, or that lacks the `error` or `data` field, is outside the model.
- BeautifulSoup is not part of this model. Its lookups are inputs, as described above.
- `aw_api/async_client.py` is not part of this model. It repeats the client's roster mapping and cookie preparation over an asynchronous session.
- Logging calls are left out: they have no effect on results.
- `Client.__prepare_cookie` (aw_api/client.py:67-78) is the same loop as `Api.PrepareCookie`, which stands for both.
- The cookie given as a dictionary is left out: only the list of `{name, value}` items that the loop reads is modelled.
- The legacy `API.get_battalion_players` and `API.get_statistic_by_nickname` (aw_api/api.py:205-230) are not modelled as separate members. They only compose the page fetch with `Api.BattalionPageUrl`/`Api.PlayerStatsUrl` and the two legacy parsers, which are modelled.
- Parser.DecomposeRow: does not prove the worked example in the comment at aw_api/parser.py:195-203 by evaluating its literal line. `Parser.RowRoundTrip` covers every line of that shape whose nickname and role avoid space, `"`, `<`, `>`, `=` and `?`, and the example's nickname and role do.
- Client.ClientStatsUrl: the nickname goes into the URL unescaped, as in aw_api/client.py:110. The parameter split is stated only for nicknames without `&`, because a nickname with `&` adds extra pieces.
- Player.GetItem: only the nine fields are modelled. `getattr` also finds the record's methods and its inherited attributes, such as `__class__` or `__eq__`, but the model returns None for them.
- Text.ParseDecimal: Python's `float()` is modelled only on optionally signed decimal literals with at most one point. Exponents, `inf`, `nan` and underscores are not modelled, and neither is rounding to binary floating point: values are exact `real`s.
- Text.ParseInt: digit-group underscores and non-ASCII digits, which Python's `int()` also accepts, are not modelled.
- Parser.AverageSpotting: the average is stated by what it divides, not as a float-exact result.
- Parser.AverageLevel: the average is stated by what it divides, not as a float-exact result.
- The battles check at aw_api/parser.py:147 and :154 tests the count's truth value, so a count other than zero divides. The model follows this code: a negative count, which the site does not produce, would also divide.
- The two battalion search errors imported by aw_api/client.py are not defined in aw_api/exceptions.py. They are modelled as error kinds carrying the query length and the query.
