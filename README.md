# Chart bot: song matching and rank changes

The chart bot follows a configured list of songs (the *targets*) on the
melon Hot 100 and the genie Top 200. Each run does the following:

- it looks every target up on the charts of the platforms it lists, with
  a loose text normaliser and two-way substring matching;
- it compares the rank found with the rank stored by the previous run;
- it classifies the movement as new entry, re-entry, up, down, unchanged
  or off the chart;
- it saves the ranks for the next run.

A second entry point, the notifier, formats one platform's results as a
Slack message with one row per song. A third helper reads YouTube video
ids out of the targets.

This project models that engine in Dafny, module by module:

- `Text`: `str.lower` (ASCII letters), `str.strip` (Python's whitespace set), `in` on strings
- `Decimal`: `str(int)`
- `UrlEncode`: `urllib.parse.quote_plus` and `urlencode`
- `Folding`, `Common`: `norm` (src/common.py) and its inline copies; `any_match`
- `Matcher`: the `find_rank_*` functions of the melon and genie crawlers
- `Genie`: `build_genie_url`, and the concatenate / de-duplicate / sort step of `get_genie_top200_items`
- `History`: the history key `_result_key`, the `-1` sentinel, the history file and the movement emoji
- `Targets`: a configured target
- `Run`: `change_emoji` and the per-target loop of `main` (src/main.py)
- `Notifier`: `_delta_emoji`, `_build_row_text`, `_build_blocks` and `notify_platform_ranks`
- `Youtube`: `extract_video_id`, `_chunks` and `collect_video_ids_from_targets`
- `Seqs`: the shared loop shapes: append per element, filter-append, extend, and dict assignment

Where the source updates state in a loop, the model is a method with a
loop. Examples are the two loops of `notify_platform_ranks`, `_build_blocks`,
the target loop of `main`, the genie de-duplication, `_chunks` and the
YouTube collection. Each method's `ensures` gives its result in terms of
its inputs, either through a specification function whose properties are
proved as lemmas or as the properties themselves. Code that only computes
is modelled as functions and lemmas.

Two behaviours of the code are easy to miss:

- `norm` is not idempotent, because it trims before it folds separators
  into spaces: `norm("(a") == " a"` but `norm(" a") == "a"`.
  `Common.NormNotIdempotent` proves the counterexample. `Common.NormTwice`
  proves what does hold: normalising twice equals stripping the
  once-normalised string.
- A title that is blank after normalising, such as `" "`, is not treated
  as missing. The alias matcher's `if t` filter keeps it, because it is
  non-empty. Its normal form `""` is contained in every chart title, so
  with no artist both matchers return the first row of the chart.
  `Matcher.BlankTitleHitsFirst` proves this.

## Model

| member | source | states |
|---|---|---|
| `Common.Norm` | src/common.py:7-12 | the output has no bracket, dash or slash; its only whitespace is the plain space, never twice in a row; `norm("") == ""` |
| `Common.NormTwice` | src/common.py:9-11 | normalising twice equals stripping the once-normalised string |
| `Common.NormNotIdempotent` | src/common.py:9-11 | `norm("(a")` is `" a"` but `norm(" a")` is `"a"`, so `norm` is not idempotent |
| `Common.NormOfFolded` | src/common.py:9-11 | on a lower-case string that is already folded, `norm` only strips |
| `Common.AnyMatch` | src/common.py:22-30 | no candidates never match, and a match means some candidate's normal form and `norm(q)` contain one another; `Common.AnyMatchSome` gives the converse |
| `Common.AnyMatchSome` | src/common.py:22-30 | `any_match(q, cs)` holds exactly when some candidate's normal form contains, or is contained in, `norm(q)` |
| `Common.AnyMatchSymmetric` | src/common.py:28 | `any_match(q, [c]) == any_match(c, [q])` |
| `Folding.NormWith` | src/crawler_melon.py:159-164 | the inline normaliser copies, parameterised by their separator class, never lengthen the text; `Folding.NormWithFolded` gives the shape of the result |
| `Folding.FoldRunsFolded` | src/common.py:10 | after the separator substitution, every run of separators is a single space |
| `Folding.FoldRunsKeeps` | src/common.py:10 | the substitution keeps every non-separator character, in order |
| `Folding.FoldRunsIsSqueezedMask` | src/common.py:10 | the substitution equals a character-by-character reference: turn every separator into a space, then shorten every run of spaces to one space; so each maximal separator run becomes exactly one space and every other character stays in place |
| `Folding.FoldRunsExample` | src/common.py:10 | with the full separator class, `"a -/(b"` becomes `"a b"` |
| `Folding.FoldRunsOfFolded` | src/common.py:11 | the whitespace substitution leaves a folded string unchanged |
| `Folding.NormWithFolded` | src/crawler_melon.py:159-164 | every copy of the normaliser yields a folded, lower-case string, and `""` for `""` |
| `Folding.NormWithoutSlashes` | src/crawler_melon.py:233-237 | on text without `/` or `\`, the slash-less copy agrees with `norm` |
| `Folding.SlashExample` | src/crawler_melon.py:235 | the slash-less copy keeps `a/b` while `norm` turns it into `a b` |
| `Matcher.FindRankByTitleArtist` | src/crawler_melon.py:150-184 | a rank returned is the rank of some chart row; `Matcher.FindRankByTitleArtistFirst` pins it to the first hit |
| `Matcher.AliasQuery` | src/crawler_melon.py:207-211 | the candidates use the full separator class and include at most the title and each title alias; the title candidates are exactly the normal forms of the non-empty strings among the title and its aliases, and the artist candidates exactly those of the non-empty strings among the given artist and its aliases; there are no title candidates exactly when the title and all its aliases are empty; the artist filter is off exactly when the artist is missing or empty and every artist alias is empty |
| `Matcher.FindRankWithAlias` | src/crawler_melon.py:187-225 | a rank returned is the rank of some chart row; `Matcher.ScanFirstHit` on the alias query pins it to the first hit |
| `Matcher.FindRankByTitle` | src/crawler_melon.py:228-244 | a rank returned is the rank of some chart row; `Matcher.ByTitleWithoutSlashes` and `Matcher.ByTitleKeepsSlash` relate it to the other matcher |
| `Matcher.ScanFirstHit` | src/crawler_melon.py:169-184 | the scan returns nothing exactly when no row is a hit; otherwise it returns the rank of the first hit in list order |
| `Matcher.ScanIsFirstHit` | src/crawler_genie.py:198-210 | when row `i` is the first hit, the scan returns row `i`'s rank |
| `Matcher.FirstHitUnique` | src/crawler_melon.py:181-182 | at most one row is the first hit |
| `Matcher.ArtistFilter` | src/crawler_melon.py:167 | the artist filter is on exactly for an artist that is non-empty and whose normal form is non-empty |
| `Matcher.FindRankByTitleArtistFirst` | src/crawler_melon.py:150-184 | `find_rank_by_title_artist` returns nothing exactly when no row matches on title and artist; otherwise it returns the first matching row's rank |
| `Matcher.ArtistFilterOff` | src/crawler_genie.py:159-169 | with no effective artist, a row is a hit exactly when the titles contain each other one way or the other |
| `Matcher.TitleOnlyHit` | src/crawler_melon.py:174-179 | without an artist filter, a hit is the two-way title containment |
| `Matcher.ArtistHitIsAnyMatch` | src/crawler_melon.py:176-179 | for an artist that is non-empty after normalising, the artist test is `any_match` of the artist against the row's artists |
| `Matcher.NonEmpty` | src/crawler_melon.py:210-211 | the candidates kept are the non-empty raw strings |
| `Matcher.EmptyChart` | src/crawler_genie.py:161-173 | every matcher returns nothing on an empty chart |
| `Matcher.AliasEmptyTitle` | src/crawler_melon.py:207-217 | an empty title with no title aliases never matches |
| `Matcher.EmptyCandidateHitsAll` | src/crawler_melon.py:217 | a title candidate that normalises to `""` is a title hit for every row |
| `Matcher.NoArtistsNoHit` | src/crawler_melon.py:219-221 | with artist candidates, a row with no artists is never a hit |
| `Matcher.AliasNoArtistCandidates` | src/crawler_genie.py:193-206 | with no artist and no artist aliases, the alias matcher filters on title only |
| `Matcher.AliasAgreesWithPlain` | src/crawler_melon.py:207-224 | with no aliases, a non-empty title, and an artist that is missing, empty, or non-empty after normalising, the alias matcher agrees with `find_rank_by_title_artist` |
| `Matcher.EmptyTitleDiverges` | src/crawler_melon.py:166-217 | for an empty title, the plain matcher returns the first row while the alias matcher returns nothing |
| `Matcher.BlankTitleHitsFirst` | src/crawler_melon.py:207-224 | a non-empty title that is blank after normalising, with no artist and no aliases, makes both matchers return the first row |
| `Matcher.BlankTitleExample` | src/crawler_melon.py:210 | `" "` is such a title: non-empty, with `norm(" ") == ""` |
| `Matcher.ByTitleWithoutSlashes` | src/crawler_melon.py:228-244 | on titles without slashes, `find_rank_by_title` agrees with the title-only matcher |
| `Matcher.ByTitleKeepsSlash` | src/crawler_melon.py:228-244 | for the chart title `a/b` and the query `a b`, `find_rank_by_title_artist` finds the row but `find_rank_by_title` does not |
| `Genie.BuildGenieUrl` | src/crawler_genie.py:57-66 | the URL starts with the chart's base URL and `?`; `Genie.GenieUrlFields` gives the fields after it |
| `Genie.GenieUrlFields` | src/crawler_genie.py:57-66 | the URL is the base URL, then `?`, then exactly five fields in order: `ditc=D`, the escaped `ymd`, `hh`, `rtm=Y`, `pg` |
| `Genie.DedupIsLast` | src/crawler_genie.py:143 | the dict has one key per rank that occurs, holding the last row with that rank |
| `Genie.ByIncreasingRank` | src/crawler_genie.py:144 | the rows come out by strictly increasing rank, one per key, each the row stored under its rank |
| `Genie.GenieTop200Items` | src/crawler_genie.py:136-144 | the result is strictly increasing in rank and has exactly the ranks of the concatenated pages; each row is the last one with its rank |
| `UrlEncode.QuotePlus` | src/crawler_genie.py:66 | the escaped text holds only safe characters, `+` and `%`, so it never holds `&` or `=` |
| `UrlEncode.QuotePlusRoundTrip` | src/crawler_genie.py:66 | unescaping undoes `quote_plus` on ASCII text |
| `UrlEncode.UrlencodeSplit` | src/crawler_genie.py:66 | splitting `urlencode(pairs)` on `&` gives back one escaped field per pair |
| `Decimal.NatToStringValue` | src/crawler_genie.py:62-64 | `str(n)` is made of digits and reads back as `n` |
| `Decimal.IntToStringInjective` | src/main.py:155 | different integers have different decimal strings |
| `History.ResultKey` | src/main.py:25-26 | the key is at most as long as title, artist and the two-character separator together; its shape, case and separator are `History.ResultKeyShape`, `History.ResultKeyIgnoresCase` and `History.ResultKeyHasSeparator` |
| `History.EncodeRank` | src/main.py:128 | a missing rank is stored as `-1`, and any other rank as itself |
| `History.DecodePrev` | src/main.py:143-148 | a missing value and a stored `-1` both read as no previous rank; any other value reads as itself |
| `History.ResultKeyShape` | src/main.py:25-26 | a history key is lower-case and has no whitespace at either end |
| `History.ResultKeyIgnoresCase` | src/notifier.py:71-73 | the key does not depend on the case of ASCII letters |
| `History.ResultKeyHasSeparator` | src/main.py:26 | the key always contains the `@@` separator |
| `History.SentinelRoundTrip` | src/main.py:128 | a rank other than `-1` reads back as itself once stored, and a missing rank stored as `-1` reads back as missing |
| `History.PrevRank` | src/main.py:143-148 | the previous rank is present exactly when the key is stored with a value other than `-1` |
| `History.EmojiInjective` | src/main.py:60-75 | each movement has its own emoji |
| `History.CorruptFile` | src/main.py:29-37 | a corrupt file gives an empty map yet counts as an existing file; a missing file counts as none |
| `Run.ChangeEmoji` | src/main.py:49-75 | off the chart whenever there is no current rank; otherwise a re-entry or a new entry without a previous rank, depending on the history-file flag; otherwise up, down or unchanged, each exactly by comparing the ranks |
| `Run.LabelInjective` | src/main.py:61-75 | each movement has its own label |
| `Run.ChangeEmojiVsDeltaEmoji` | src/notifier.py:50-68 | the two movement tables agree unless the song is off the chart (`change_emoji` says off, `_delta_emoji` unchanged) or re-entering (re-entry against new) |
| `Run.PlatformRank` | src/main.py:118-140 | a target that does not list the platform has no rank there; otherwise its rank is the alias matcher's answer for the target's title, artist and aliases |
| `Run.PlatformRankOnChart` | src/main.py:119-128 | a rank found belongs to a row of that platform's chart, and the target lists the platform |
| `Run.StatusOf` | src/main.py:142-156 | a target is off a platform's chart exactly when it has no rank there, and always when it does not list the platform; a stored `-1` never shows as a previous rank |
| `Run.SentinelClassified` | src/main.py:145-152 | a stored `-1` counts as no previous rank, so a song back on the chart is a re-entry when the file existed |
| `Run.CurrMapKeys` | src/main.py:119-140 | a platform's current map has a key for each target that lists it, and no other key |
| `Run.CurrMapEmpty` | src/main.py:180-183 | when no target lists a platform, its current map is empty |
| `Run.CurrMapLast` | src/main.py:128 | a key holds what the last listing target with that key wrote: its rank, or `-1` |
| `Run.CurrMapValues` | src/main.py:128 | every stored value is `-1` or a rank on that platform's chart |
| `Run.NextRunPrev` | src/main.py:143-148 | after saving, the next run reads back this run's rank for that key |
| `Run.ListingEmpty` | src/main.py:89-90 | the platform's target list is empty exactly when no target lists the platform |
| `Run.TargetLoop` | src/main.py:109-177 | the loop yields one report per target in order, and the two current maps |
| `Run.RunMain` | src/main.py:81-183 | a chart is fetched exactly when some target lists it; every target is reported; a platform's map is saved exactly when its chart was fetched, and the saved map is the current map |
| `Run.RunReportsOut` | src/main.py:155-156 | each report carries its target's title and artist; a platform the target does not list shows as off the chart with `미진입` |
| `Notifier.DeltaEmoji` | src/notifier.py:50-68 | new exactly when there is no previous rank and there is a current one; up, down or unchanged by comparing the ranks; unchanged when there is no current rank |
| `Notifier.BuildRowText` | src/notifier.py:96-100 | the row text has at least two characters and no whitespace at either end, as `strip()` leaves it |
| `Notifier.BuildRowTextIsStripped` | src/notifier.py:96-100 | the row text is the formatted line after `strip()`; the `(prev N)` part appears only with a previous rank |
| `Notifier.Capitalize` | src/notifier.py:126 | capitalising keeps the length, upper-cases the first character and lower-cases every later one, so no upper-case letter follows the first character |
| `Notifier.CapitalizePlatforms` | src/notifier.py:126 | the platforms appear as `Melon` and `Genie` |
| `Notifier.PlatformLink` | src/notifier.py:26-29 | melon and genie get their chart pages, any other platform the fallback link |
| `Notifier.Buttons` | src/notifier.py:124-137 | the first button opens the platform's chart; a second, the tweet link, is present exactly for a non-empty preset |
| `Notifier.BlocksShape` | src/notifier.py:110-140 | the message has the header first, row `i`'s section at `i + 1`, and the buttons last |
| `Notifier.BuildBlocks` | src/notifier.py:103-140 | the appending loop builds exactly those blocks |
| `Notifier.ItemArtistChoice` | src/notifier.py:165-166 | the artist is the stripped first entry of `artists` when that list is non-empty, else the stripped `artist` field |
| `Notifier.NotifyCurrMapKeys` | src/notifier.py:163-169 | the current map has a key per result and no other |
| `Notifier.NotifyCurrMapLast` | src/notifier.py:169 | a key holds the rank of the last result with that key, or `-1` |
| `Notifier.CurrentMap` | src/notifier.py:159-169 | the first loop builds that current map |
| `Notifier.DisplayRows` | src/notifier.py:173-182 | the second loop yields one row per result, in order |
| `Notifier.NotifyPlatformRanks` | src/notifier.py:146-199 | the blocks and the fallback text are built from those rows; the map is saved exactly when the post succeeded and `save_history` is set |
| `Notifier.NotifySectionOf` | src/notifier.py:173-193 | section `i + 1` shows result `i`'s stripped title and artist, its rank, and the previous rank stored under its key, with `-1` shown as none |
| `Youtube.SearchFirstMatch` | src/crawler_youtube.py:17 | the search finds the leftmost match of the link pattern, or nothing when there is none |
| `Youtube.ExtractVideoId` | src/crawler_youtube.py:25-34 | nothing for an empty input; any id returned is 11 characters of `[0-9A-Za-z_-]` |
| `Youtube.ExtractOccurs` | src/crawler_youtube.py:29-33 | a returned id is a piece of the stripped input |
| `Youtube.ExtractBareId` | src/crawler_youtube.py:18 | an input that is exactly an id once stripped comes back unchanged |
| `Youtube.ExtractShortLink` | src/crawler_youtube.py:17 | a link `p/ID` yields `ID` when `p` has no `/` or `=` and no leading whitespace |
| `Youtube.Chunks` | src/crawler_youtube.py:173-175 | the chunks concatenate back to the input; all have `n` elements except the last, which has 1 to `n`; an empty input gives no chunks; `n == 0` is an error and a negative `n` gives no chunks |
| `Youtube.VideoRowOf` | src/crawler_youtube.py:129-139 | a target gives a row exactly when it has a `youtube` field whose reference yields a video id; the row carries that id, the stripped title and artist, and the history key of the stripped pair |
| `Youtube.CollectVideoIds` | src/crawler_youtube.py:121-140 | the loop yields the rows of the targets that have an extractable id |
| `Youtube.VideoRowsFromTargets` | src/crawler_youtube.py:127-139 | each row comes from some target with a `youtube` field: its id is what extraction gives on that field's reference, and its key is the history key of the stripped title and artist |
| `Youtube.VideoRowsCover` | src/crawler_youtube.py:128-139 | conversely, every target whose `youtube` reference yields a video id has a row with that id and its history key among the collected rows |
| `Youtube.VideoRowsInOrder` | src/crawler_youtube.py:127-140 | the rows follow the order of the targets |
| `Youtube.IdShadowsUrl` | src/crawler_youtube.py:132 | a non-empty `id` is the only reference tried |

## Left out

- HTTP sessions, retries, fetches and HTML parsing are not modelled. The crawlers' chart rows are input to the model.
- The YouTube statistics API calls and `get_youtube_views_for_targets` are not modelled, because they are network calls.
- `_safe_int` is not modelled. It depends on Python's `int()` coercion of arbitrary objects.
- Slack delivery (`slack_post`) is not modelled. `Notifier.NotifyPlatformRanks` takes its outcome as a `posted` flag instead.
- Reading and writing the JSON history files and loading the song configuration are not modelled. A history file is one of three values: missing, corrupt, or stored with a map. A save is the map the run returns.
- The clock, console printing and the `__main__` blocks are left out. The date and hour of the genie URL are parameters.
- In `main`, the Slack message assembly (section texts, tweet lines, buttons and fallback text) is left out. The values it formats are modelled: each target's rank, previous rank, movement and rank text.
- `urllib.parse.quote` for the tweet link is a function parameter, because its percent-encoding is not modelled.
- `Text.Lower`: `str.lower` is modelled for ASCII letters only. Other letters are left unchanged.
- `Notifier.Capitalize`: `str.capitalize` is modelled for ASCII letters only. It upper-cases the first character and lower-cases the rest only when they are ASCII letters. Python also title-cases other scripts, and special-cases characters such as `ß`.
- `Youtube.ExtractVideoId`: `\w` is modelled as ASCII letters, digits and `_`. A non-ASCII letter right after an id would end a match here, but Python treats it as part of the word.
- `Youtube.ExtractShortLink` covers only links with no `/` or `=` before the last slash. For other links, the leftmost match is given by `Youtube.SearchFirstMatch`.
- `Matcher.FindRankWithAlias`: a rank is an integer in the model. Python's `item.get("rank")` could be `None` for a row without one, but the parsers always set it.
- `Youtube.Chunks`: `_chunks` is a generator, so Python raises the zero-step error when iteration starts. The model returns the error at once.
- `any_match` imports `norm` through a relative import, which would fail when `common` is a top-level module. The model calls `Norm` directly.
