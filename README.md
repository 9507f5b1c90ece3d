# ELI5 mentions pipeline — a Dafny model

This project models the core of a bot that answers "explain it like I'm 5"
requests. It covers six programs of the repository:

- `src/app.py` is the explanation service. It looks up settings in the YAML configuration and
  the environment, and loads a CSV of example explanations. Its chain asks the remote model,
  then the local model, and otherwise apologises. It then formats the reply (the `#ELI5`
  marker and the length limit) and validates `POST /explain` requests.
- `src/ratelimit.py` holds the rate-limit helpers. They read the `x-rate-limit-*` headers and
  work out the wait after a 429 error. They also decide when to wait, sleep in chunks, and look
  up an endpoint in the rate-limit status document.
- `src/main2.py` is the mentions collector. It keeps the cursor file, validates its
  configuration and checks the mentions endpoint's rate limit. It fetches mentions and looks
  up usernames in batches of 100. It appends new mentions to the CSV log, skipping ids already
  logged, and then advances the cursor.
- `src/twitter_stream.py` is the polling bot. It keeps its cursor file and extracts a subject
  from each mention. It answers the mentions oldest first and moves the cursor after each one.
  One poll then sleeps: the poll interval, the cool-down after a 429, or the pause after an
  error.
- `src/get_discord_mentions.py` is the Discord listener. It loads its configuration, decides
  whether a message qualifies (a mention of the bot or of the target, plus the `#eli5` tag)
  and extracts the keyword. It writes qualifying messages to the CSV once each, both live and
  during the periodic history scan, and prunes its id set.
- `src/post_replies.py` is the reply poster. It picks the ten oldest mentions from the CSV
  (a stable sort by timestamp) and extracts each topic. It asks the ELI5 service for an
  explanation and posts it to a Discord webhook. Posted rows leave the CSV.

Each module is one Dafny module: `App`, `RateLimit`, `MentionsBot`, `TwitterStream`,
`DiscordMentions` and `PostReplies`. Three helper modules support them:

- `Common`: option and result types, sums.
- `Text`: Python string operations such as `strip`, `lstrip(chars)`, `lower`, `split`,
  `int()` and `str()`, and removing an `@handle` mention.
- `Json`: configuration documents and status documents, with lookup along a path.

Objects whose fields change become classes:

- `App.DatasetLoader`, `App.LLMClient`;
- `MentionsBot.LastSeenIdManager`, `MentionsBot.MentionsLogger`, `MentionsBot.Bot`;
- `TwitterStream.LastSeenFile`;
- `DiscordMentions.MentionsWriter`, `DiscordMentions.DiscordListener`;
- `PostReplies.MentionsReader`.

Files are fields holding their lines or their content. Loops become methods with
invariants, proved against specification functions, and the lemmas beside those functions
state what the code promises.

The outside world enters as parameters:

- Wall clock: `now` or `stamp` (and `fetchNow`, the clock read again after `fetch_mentions` has waited out a reported limit).
- The result of each remote call: the `Outcome`, `ApiResponse`, `MentionsResponse` or
  `MentionsCall` values, and lookup functions indexed by batch or by row.
- Whether a file can be opened: `writable` and `readable`.
- Random draws: `draws`.

Sleeps become the list of durations slept, returned as an out-parameter.

Some behaviours of the code are worth knowing before reading the model:

- The last tier of the reply chain is an apology that is not length-formatted
  (`App.LLMClient.ApologyUnbounded`).
- Once the limit is at least 6, the formatter at src/app.py:257-274 can exceed it by up to
  6 characters (a smaller limit, which only the YAML `api.max_response_length` can set,
  overruns further), and the
  chain calls it as written (`App.LLMClient.ChainExceedsLimit`; see Findings). The corrected
  chain is modelled beside it as `App.LLMClient.IntendedEli5Response`.
- `twitter_stream.extract_keyword` cuts the text at the first `#`, so
  `"@bot explain #eli5 black holes"` yields `explain`.
- After a pass of `process_mentions`, every row whose `tweet_id` was posted in that pass
  leaves the mentions CSV, including other rows sharing that id; the removal happens once,
  after the whole batch (src/post_replies.py:187-189). A failed post leaves its row for the
  next run.

## Model

| member | source | states |
|---|---|---|
| `App.GetConfig` | src/app.py:91-102 | The value is the one found by following the dot-separated path through nested dictionaries; if any step is missing or is not a dictionary, the result is the default. |
| `App.EmptyConfigDefaults` | src/app.py:91-102 | With an empty configuration, every lookup returns its default. |
| `App.LoadSettingsDefaults` | src/app.py:58-89 | With no configuration file and no environment, the settings are no API key, local fallback on, 3 examples and a limit of 280 characters. |
| `App.SettingsPrecedence` | src/app.py:58-89 | A YAML value present at a setting's key decides it whatever the environment holds; without one, the environment variable decides (for the fallback flag and the number of examples), else the built-in default. The API key comes from the environment alone. Loading raises exactly when the number of examples or the maximum length does not convert with `int()`. The settings are defined by `App.LoadSettings`. |
| `App.BadNumExamplesRaises` | src/app.py:72-73 | A `NUM_EXAMPLES` that `int()` rejects, with no YAML value to override it, makes loading raise a ValueError. |
| `App.DefaultFallbackOn` | src/app.py:66-67 | An unset `USE_LOCAL_MODEL_FALLBACK` means the fallback is on: `'true'.lower() == 'true'`. |
| `App.DefaultThreeExamples` | src/app.py:72-73 | An unset `NUM_EXAMPLES` gives `int('3') == 3`. |
| `App.UsableExamplesFromRows` | src/app.py:112-124 | Every loaded example comes from a CSV row whose header has both a `term` and an `explanation` column, with those cells (None for a cell a short row lacks). The examples are defined by `App.UsableExamples`. |
| `App.TermOnlyRowKept` | src/app.py:116-122 | A row that fills `term` but not `explanation` is still kept, with an explanation of None. |
| `App.DatasetLoader.constructor` | src/app.py:106-110 | The examples are exactly the usable rows of the file; a file that cannot be read leaves none. |
| `App.DatasetLoader.LoadDataset` | src/app.py:112-124 | The usable rows are appended in order; a read failure changes nothing. |
| `App.DatasetLoader.GetRandomExamples` | src/app.py:126-133 | No examples gives `[]`. A negative count with examples raises. Otherwise the result has min(n, size) entries drawn without repetition from the examples (a sub-multiset). |
| `App.FormatAsWrittenMarked` | src/app.py:257-274 | The formatted reply always contains `#ELI5`. `format_response` as written is defined by `App.FormatResponseAsWritten`. |
| `App.FormatAsWrittenAppends` | src/app.py:262-268 | An explanation without the marker gets ` #ELI5` at its end and fits the limit, once the limit leaves room for the suffix. |
| `App.FormatAsWrittenKeeps` | src/app.py:262-274 | A marked explanation that fits is returned unchanged. |
| `App.FormatAsWrittenTruncates` | src/app.py:270-272 | A marked explanation that is too long is cut to `limit - 3` characters and ends with the 9-character suffix as written, so it can reach `limit + 6`. |
| `App.FormatAsWrittenBound` | src/app.py:257-274 | Once the limit leaves room for ` #ELI5`, the reply is at most 6 characters over it. |
| `App.FormatAsWrittenExceedsLimit` | src/app.py:271-272 | A counterexample for the code as written: a 55-character marked text formatted to 50 comes out 56 characters long. |
| `App.FormatMarked` | src/app.py:257-274 | The corrected formatter also always carries the marker. The corrected formatter is defined by `App.FormatResponse`. |
| `App.FormatWithinLimit` | src/app.py:257-274 | The corrected formatter never exceeds a limit of at least 7 characters. |
| `App.FormatAgreesBeforeTruncation` | src/app.py:262-272 | The corrected and as-written formatters agree unless the final truncation is reached. |
| `App.ApologyMarked` | src/app.py:190 | The apology carries the marker. |
| `App.LLMClient.constructor` | src/app.py:137-160 | The key counts only when it is a non-empty string. The fallback stays on only if it is configured and the local model loads. The dataset is loaded. |
| `App.LLMClient.ReplyAlwaysMarked` | src/app.py:166-201 | Whatever the remote and local models do, the reply contains `#ELI5`: the chain never fails. The chain as written is defined by `App.LLMClient.GenerateEli5Response`. |
| `App.LLMClient.RemoteWins` | src/app.py:184-186 | With a key, a produced remote answer is the reply, whatever the local model would do: the stripped text formatted as written to the limit in force, so at most 6 characters over that limit. |
| `App.LLMClient.ChainExceedsLimit` | src/app.py:184-186 | The overrun reaches a reply: with a key, the remote text `#ELI5` followed by 50 letters and `max_length` 50 gives 56 characters. |
| `App.LLMClient.IntendedWithinLimit` | src/app.py:257-274 | With the corrected formatter, every formatted reply of the chain fits the limit in force and carries the marker. The corrected chain is defined by `App.LLMClient.IntendedEli5Response`. |
| `App.LLMClient.RemoteFailureWithoutFallback` | src/app.py:187-190 | With a key, a remote failure and the fallback off, the reply is the apology. |
| `App.LLMClient.NothingAvailable` | src/app.py:200-201 | With neither a key nor the fallback, the reply is the apology. |
| `App.LLMClient.LocalFallback` | src/app.py:192-195 | With the fallback on and no key or a failed remote call, the reply is the local answer formatted as written to the effective limit. |
| `App.LLMClient.ApologyUnbounded` | src/app.py:184-201 | Whenever neither generator produced a usable text (in any of the three apology branches), the reply is the apology, which is not length-formatted: a subject longer than the limit gives a reply over the limit. |
| `App.LLMClient.Explain` | src/app.py:338-358 | An invalid request (subject outside 1..200 characters, `max_length` outside 50..500) is a 422. A blank subject is a 500, because the 400 is caught by the broad except. Otherwise the answer echoes the subject with the chain's reply for it. |
| `App.LLMClient.BlankSubjectNeverGenerates` | src/app.py:342-343 | A blank subject is rejected without consulting either model. |
| `App.LLMClient.ExplainedMarked` | src/app.py:346-355 | Every successful answer carries the marker. |
| `RateLimit.HeaderInt` | src/ratelimit.py:42-74 | A header yields a number exactly when it is present, non-empty and parses as an integer; a failed parse leaves `None`. |
| `RateLimit.ExtractRateLimitInfo` | src/ratelimit.py:20-76 | Each field comes from its own header. The seconds left are present exactly when the reset is, and equal `max(reset - now, 0)`. |
| `RateLimit.ExtractFromIntHeaders` | src/ratelimit.py:20-76 | Headers written from integers are read back as those integers, with the time left to the reset never negative. |
| `RateLimit.ExtractFieldsIndependent` | src/ratelimit.py:20-76 | Changing or removing one header leaves the fields read from the other headers unchanged. |
| `RateLimit.GetRateLimitFromException` | src/ratelimit.py:79-104 | An error with a response reads its headers. Without one, the result is remaining 0 and a reset in 900 seconds. |
| `RateLimit.GetWaitTimeFromException` | src/ratelimit.py:216-234 | Without a response the wait is 930 seconds. A response without a usable reset raises a TypeError. Otherwise the wait is the time to the reset plus 30 when positive, else 0. |
| `RateLimit.WaitWithoutResponse` | src/ratelimit.py:216-234 | No response at all means a wait of 930 seconds. |
| `RateLimit.WaitAfterReset` | src/ratelimit.py:226-234 | A reset already in the past means no wait. |
| `RateLimit.ShouldWait` | src/ratelimit.py:169-180 | Wait exactly when no more than `threshold` requests remain. |
| `RateLimit.LastRequestWaits` | src/ratelimit.py:169-180 | With the default threshold, one remaining request already waits and two do not. |
| `RateLimit.WaitForReset` | src/ratelimit.py:183-200 | It sleeps in chunks of at most 30 seconds, all positive, that add up to exactly `seconds_left + buffer`; nothing when that total is not positive. |
| `RateLimit.HandleRateLimitException` | src/ratelimit.py:236-252 | The wait returned is the one from the exception. It sleeps that wait plus 60 seconds in chunks only when asked to wait and the wait was computed. |
| `RateLimit.CheckEndpointLimit` | src/ratelimit.py:126-166 | A failed status call gives (0, 0, 0). Otherwise the endpoint's path (stripped of `/` and split on `/`) is followed through the document. Its limit, remaining and reset are read, each 0 when absent. The seconds until reset are never negative. |
| `RateLimit.LimitEntry` | src/ratelimit.py:153-162 | The seconds until reset read from an endpoint entry are never negative. |
| `RateLimit.LimitEntryFields` | src/ratelimit.py:153-162 | An entry holding the three integers reports them, with the reset as `max(reset - now, 0)`. |
| `RateLimit.LookupMissingPrefix` | src/ratelimit.py:141-150 | Once a prefix of the endpoint path is missing, the whole path is missing. |
| `MentionsBot.ValidateConfig` | src/main2.py:316-325 | The configuration is accepted exactly when the user id and the four credentials are set and non-empty; otherwise a ValueError. |
| `MentionsBot.BasenameSpec` | src/main2.py:196 | The base name holds no `/` and ends the configured path. |
| `MentionsBot.CursorPathInData` | src/main2.py:196 | The cursor file always sits directly inside `data/`, whatever directories the configured name contains. |
| `MentionsBot.CursorRoundTrip` | src/main2.py:200-219 | The id written by `set_last_seen_id` is the id read back by `get_last_seen_id`. |
| `MentionsBot.LastSeenIdManager.constructor` | src/main2.py:193-198 | The cursor path is `data/` plus the base name of the configured file. |
| `MentionsBot.LastSeenIdManager.SetLastSeenId` | src/main2.py:212-219 | A successful write stores `str(n)`, which then reads back as `n`. A failed write is swallowed and changes nothing. |
| `MentionsBot.SanitizeSpec` | src/main2.py:286 | The logged text holds no newline and no carriage return. Every other character is kept, and a text without line breaks is logged unchanged. The logged text is defined by `MentionsBot.Sanitize`. |
| `MentionsBot.ReplaceNewlinesSpec` | src/main2.py:286 | `replace('\n', ' ')` leaves no newline, keeps every other character and changes nothing in a text without newlines. |
| `MentionsBot.DropReturnsSpec` | src/main2.py:286 | `replace('\r', '')` leaves no carriage return and keeps every other character. |
| `MentionsBot.LoggedCount` | src/main2.py:274-291 | The seen set grows by exactly the number of lines written: repeats within the batch or from before are skipped. The seen set and the lines written are defined by `MentionsBot.SeenAfter` and `MentionsBot.LinesAfter`. |
| `MentionsBot.SeenAfterMembers` | src/main2.py:274-291 | After logging, an id is seen exactly when it was seen before or is the id of one of the tweets. |
| `MentionsBot.ColumnTwoMembers` | src/main2.py:240-242 | The ids loaded are exactly the second cells of the rows that have at least two cells. The ids loaded are defined by `MentionsBot.ColumnTwo`. |
| `MentionsBot.MentionsLogger.constructor` | src/main2.py:223-229 | The seen set is the second column of the existing file below its header, or empty when the file is missing or unreadable. |
| `MentionsBot.MentionsLogger.LoadExistingIds` | src/main2.py:233-245 | The second cells of the data rows are added to the seen set. A missing or unreadable file adds nothing. The file is not touched. |
| `MentionsBot.MentionsLogger.LogMentions` | src/main2.py:247-300 | No mentions, or a file that cannot be opened, change nothing and return 0. Otherwise the header is written first if the file is new. One sanitised line is appended per tweet whose id is not yet seen, those ids join the seen set, and the count of lines is returned. |
| `MentionsBot.LogNew` | src/main2.py:274-291 | The loop of `log_mentions` computes the seen set, the appended lines and their count as `MentionsBot.SeenAfter` and `MentionsBot.LinesAfter` define them. |
| `MentionsBot.MentionsReport` | src/main2.py:144-161 | A report names the endpoint, never has negative seconds, and is limited only when nothing remains and the reset is still ahead. |
| `MentionsBot.FirstMentions` | src/main2.py:141-161 | A report from the `users` endpoints never has negative seconds, and is limited only when its remaining count is at most 0 and the reset is ahead. |
| `MentionsBot.FirstMentionsNone` | src/main2.py:141-143 | With no `users` endpoint named like `mentions`, the first tier decides nothing. |
| `MentionsBot.EndpointsLimited` | src/main2.py:165-180 | A found endpoint is reported limited, with remaining 0 and its reset ahead. |
| `MentionsBot.EndpointsLimitedFound` | src/main2.py:165-180 | A found endpoint is an entry of the input: the first exhausted one (remaining, default 1, at most 0 and the reset ahead), reported with that entry's limit and reset; every entry before it was read without error and was not exhausted. |
| `MentionsBot.EndpointsLimitedFirst` | src/main2.py:165-180 | Conversely, the first exhausted entry is found, provided the entries before it read without error. |
| `MentionsBot.EndpointsLimitedNone` | src/main2.py:165-180 | With every entry readable and none exhausted, nothing is found. |
| `MentionsBot.EndpointsLimitedConcat` | src/main2.py:164-166 | Scanning two lists of endpoints in a row is scanning the first, then the second if the first found nothing. |
| `MentionsBot.ResourcesLimited` | src/main2.py:164-180 | An endpoint found in any resource is reported limited, with remaining 0 and its reset ahead. |
| `MentionsBot.ResourcesFlatten` | src/main2.py:164-180 | Over dict resources, the search is one scan of all their endpoints in order, so the found endpoint is the first exhausted one of any resource. |
| `MentionsBot.SecondTierDecides` | src/main2.py:133-189 | Without a mentions entry, the second tier decides: its report when it finds an endpoint, not limited when it finds none or raises. |
| `MentionsBot.CheckRateLimitExhausted` | src/main2.py:163-180 | Without a mentions entry, the first exhausted endpoint of any resource makes the status limited, reported with that endpoint's name, limit and reset. |
| `MentionsBot.CheckRateLimitFailure` | src/main2.py:187-189 | A failed `rate_limit_status()` call, or an answer that is not a dict, reads as not limited. |
| `MentionsBot.CheckRateLimitClear` | src/main2.py:182-185 | Without a mentions entry and with no exhausted endpoint anywhere, the status is not limited. |
| `MentionsBot.CheckRateLimit` | src/main2.py:133-189 | Every report has non-negative seconds until reset. A limited report has nothing remaining and its reset still ahead. |
| `MentionsBot.FirstMentionsDecides` | src/main2.py:141-161 | The first endpoint named like `mentions` decides the report, whatever follows it. |
| `MentionsBot.MentionsEntryDecides` | src/main2.py:133-189 | For a status document whose first mentions endpoint holds limit, remaining and reset, the report states them, limited exactly when remaining is at most 0 and the reset is ahead. |
| `MentionsBot.WellFormedReport` | src/main2.py:144-161 | An entry holding the three integers gives a report with those values. |
| `MentionsBot.BatchesSpec` | src/main2.py:95-100 | The batches cover the author ids in order; each holds 1 to 100 ids, and all but the last exactly 100. The batches are defined by `MentionsBot.Batches`. |
| `MentionsBot.AddUsersKeys` | src/main2.py:98-100 | After recording a `get_users` answer, the known users are those known before plus every user of the answer. |
| `MentionsBot.Decorated` | src/main2.py:105-120 | A mention keeps the tweet's id and author, and its text (empty when the tweet has none). It has a username exactly when the author's name was found, and then it is that name. |
| `MentionsBot.DecoratedAll` | src/main2.py:105-120 | Every tweet is decorated, in order. The mentions returned are defined by `MentionsBot.Mentions`. |
| `Common.SinceParam` | src/main2.py:75-77 | `since_id` is sent only for a truthy cursor, so a stored 0 counts as none; `src/twitter_stream.py:115-116` applies the same test. |
| `MentionsBot.FetchUsernames` | src/main2.py:89-103 | The names are those the batches return, in order. When a lookup raises, the batches tried so far are a prefix of all batches and the remaining batches are skipped. |
| `MentionsBot.RecordUsers` | src/main2.py:98-100 | The users of one answer are added to the name map, later entries winning. |
| `MentionsBot.GetMentions` | src/main2.py:73-131 | A 429 error re-raises, or raises a TypeError when no reset can be read. Any other error gives `[]`. Data gives the decorated mentions, in order. |
| `MentionsBot.MaxId` | src/main2.py:383 | The result is an upper bound of every mention's id and is the id of one of them. |
| `MentionsBot.WaitIfLimited` | src/main2.py:349-363 | When the mentions endpoint is limited, it sleeps the reported reset plus 30 seconds in chunks of at most 30; otherwise it does not sleep. |
| `MentionsBot.Bot.constructor` | src/main2.py:304-314 | The bot owns the cursor manager and the logger given to it. |
| `MentionsBot.Bot.FetchMentions` | src/main2.py:327-402 | It first waits if the endpoint is limited, as the status reads at `now`. A 429 during the fetch waits the time computed at `fetchNow`, the later clock reading, plus 30. Fetched mentions are logged when the CSV opens: the seen set and the file become those `log_mentions` gives (a header first for a new file, then one line per unseen id); when it does not open, neither changes. The cursor becomes the largest id fetched when its file can be written. With nothing fetched, neither the log nor the cursor changes. |
| `TwitterStream.GetSecondsUntilReset` | src/twitter_stream.py:34-47 | The wait is never negative. |
| `TwitterStream.SecondsUntilResetAgrees` | src/twitter_stream.py:34-47 | With a parsable reset header the wait is `max(reset - now, 0)`; otherwise it is the 20-minute default. |
| `TwitterStream.SecondsUntilWrittenReset` | src/twitter_stream.py:37-43 | A reset header written from an integer gives the seconds to that reset, or 0 once it has passed. |
| `TwitterStream.SleepUntilReset` | src/twitter_stream.py:187-192 | Every sleep lasts 10 seconds. Their total is the first multiple of 10 that reaches `seconds_left + 60`, and there are none when that is not positive. |
| `TwitterStream.ReadLastSeen` | src/twitter_stream.py:74-80 | A missing file means no cursor. Content that is not an integer raises a ValueError; otherwise the result is that integer. |
| `TwitterStream.LastSeenRoundTrip` | src/twitter_stream.py:74-85 | The id written is the id read back. |
| `TwitterStream.EmptyCursorRaises` | src/twitter_stream.py:76-80 | An empty cursor file raises rather than meaning "no cursor". |
| `TwitterStream.LastSeenFile.constructor` | src/twitter_stream.py:32 | The cursor file starts with the content found on disk. |
| `TwitterStream.LastSeenFile.SetLastSeenId` | src/twitter_stream.py:82-85 | The file holds `str(id)` afterwards, and it reads back as `id`. |
| `TwitterStream.BeforeTagSpec` | src/twitter_stream.py:98 | The first piece of `re.split(r'[@#]', s)` is a prefix of `s` without `@` or `#`, and is all of `s` when `s` has neither. The first piece is defined by `TwitterStream.BeforeTag`. |
| `TwitterStream.ExtractKeyword` | src/twitter_stream.py:87-99 | A subject, when there is one, is not empty. |
| `TwitterStream.ExtractKeywordClean` | src/twitter_stream.py:87-99 | The subject has no `@` or `#`, no whitespace at either end, and is a piece of the text once the handle is removed. |
| `TwitterStream.ExtractKeywordOfMention` | src/twitter_stream.py:87-99 | `"@handle topic"` yields exactly `topic` for a plain topic: no tag, no surrounding spaces, no leading punctuation. |
| `TwitterStream.CutIsPiece` | src/twitter_stream.py:96-98 | What stripping and cutting leave is a piece of the text they started from. |
| `TwitterStream.CutHasNoTag` | src/twitter_stream.py:98 | The cut, once stripped, holds no `@` or `#`. |
| `TwitterStream.GenerateEli5Response` | src/twitter_stream.py:101-106 | The placeholder answer names the subject. |
| `TwitterStream.ResponsesBound` | src/twitter_stream.py:123-150 | At most one answer per tweet. The answers and cursor writes are defined by `TwitterStream.Responses` and `TwitterStream.Ids`. |
| `TwitterStream.CursorEndsOnFirst` | src/twitter_stream.py:123-151 | Because the tweets are visited in reverse, the cursor is written last for the first tweet returned. |
| `TwitterStream.ProcessMentions` | src/twitter_stream.py:108-151 | An unreadable cursor raises before any call. A 429 or another error raises with nothing written. Data is answered oldest first, with the cursor written after each tweet, so it ends on the first tweet returned. |
| `TwitterStream.ProcessTweets` | src/twitter_stream.py:120-151 | No tweets changes nothing. Otherwise the answers and cursor writes follow the tweets in reverse order. |
| `TwitterStream.VisitAll` | src/twitter_stream.py:123-151 | The loop produces one answer per tweet with a subject and one cursor write per tweet, in visiting order. |
| `TwitterStream.PollOnce` | src/twitter_stream.py:173-197 | After a good poll it sleeps 1200 seconds. After a 429 it sleeps in 10-second steps until the reset plus 60 seconds. After any other error it sleeps 60 seconds. The cursor file then holds the id of the first tweet of a non-empty answer; otherwise it is unchanged. |
| `Text.RemoveMentionsNoAt` | src/twitter_stream.py:93-94 | Removing `@handle` from a text without `@` changes nothing. |
| `Text.RemoveMentions` | src/twitter_stream.py:93-94 | Removing `@handle` mentions never lengthens the text. |
| `Text.RemoveMentionsChars` | src/twitter_stream.py:93-94 | Every character left was in the text. |
| `Text.ParseInt` | src/twitter_stream.py:78 | A parsed integer comes from a text that is not blank once stripped; a negative one has a leading `-`, and one without a sign is all digits. |
| `Text.ParseIntRoundTrip` | src/main2.py:204 | `int(str(n)) == n` for every integer, the property the cursor files rely on. |
| `DiscordMentions.LoadConfig` | src/get_discord_mentions.py:31-48 | The configuration loads exactly when the bot token is set and non-empty and the three ids parse and are non-zero, holding those values; otherwise it is a ValueError. |
| `DiscordMentions.UnsetIdRejected` | src/get_discord_mentions.py:36-48 | An unset id defaults to `0` and is refused. |
| `DiscordMentions.MentionsWriter.constructor` | src/get_discord_mentions.py:52-54 | A missing CSV is created holding only the header; an existing one is kept as found. |
| `DiscordMentions.MentionsWriter.EnsureCsvExists` | src/get_discord_mentions.py:56-62 | A missing file is created with the header; an existing one is left alone. |
| `DiscordMentions.MentionsWriter.AddMention` | src/get_discord_mentions.py:64-73 | One five-cell line is appended when the file opens; otherwise nothing changes. |
| `DiscordMentions.TagAnyCase` | src/get_discord_mentions.py:107 | The tag is recognised in any case: `#ELI5`, `#Eli5` and so on. |
| `DiscordMentions.MentionedAndTaggedAccepted` | src/get_discord_mentions.py:91-117 | A message that mentions the target and carries the tag in any case qualifies. `was_target_mentioned` is defined by `DiscordMentions.WasTargetMentioned`. |
| `DiscordMentions.TokenCountsAsMention` | src/get_discord_mentions.py:99-104 | The raw token `<@id>` anywhere in the text counts as a mention of the target. |
| `DiscordMentions.TokenEnd` | src/get_discord_mentions.py:129-135 | A matched token is consumed, so its rest is strictly shorter than the text. |
| `DiscordMentions.ExtractKeywordTrimmed` | src/get_discord_mentions.py:119-137 | The keyword never starts or ends with whitespace. `extract_keyword` is defined by `DiscordMentions.ExtractKeyword`. |
| `DiscordMentions.RemoveTokens` | src/get_discord_mentions.py:129-135 | Removing the mention tokens never lengthens the text. |
| `DiscordMentions.RemoveTokensNoToken` | src/get_discord_mentions.py:129-135 | A text without `<@` has nothing to remove. |
| `DiscordMentions.ExtractKeywordNoToken` | src/get_discord_mentions.py:119-137 | Without a mention token, the keyword is the stripped content. |
| `DiscordMentions.ExtractKeywordLeadingMention` | src/get_discord_mentions.py:119-137 | `<@target>` followed by a text is reduced to that text, stripped. |
| `DiscordMentions.ScanIdsMembers` | src/get_discord_mentions.py:232-243 | After a scan, an id is recorded exactly when it was recorded before or some qualifying message has that id. The scan is defined by `DiscordMentions.ScanIds` and `DiscordMentions.ScanLines`. |
| `DiscordMentions.QualifyingRecorded` | src/get_discord_mentions.py:232-243 | Every qualifying message's id is recorded by the scan. |
| `DiscordMentions.RecordedQualifies` | src/get_discord_mentions.py:232-243 | Every id the scan adds belongs to a qualifying message. |
| `DiscordMentions.ScanIdsGrow` | src/get_discord_mentions.py:232-243 | The scan never forgets an id. |
| `DiscordMentions.ScanLinesFresh` | src/get_discord_mentions.py:232-243 | Each line the scan writes has five cells. Its id was not recorded before and is recorded after, and no two lines share an id: no message is written twice. |
| `DiscordMentions.KeepSome` | src/get_discord_mentions.py:245-246 | Pruning keeps a subset of exactly the requested size. |
| `DiscordMentions.DiscordListener.constructor` | src/get_discord_mentions.py:77-89 | The listener starts with no processed ids and the current time as its last check. |
| `DiscordMentions.DiscordListener.Record` | src/get_discord_mentions.py:193-203 | A qualifying message with a new id is written once and its id recorded; anything else changes nothing. |
| `DiscordMentions.DiscordListener.ScanHistory` | src/get_discord_mentions.py:232-243 | After the loop over the history batch, the ids and the file are those the scan specification gives. |
| `DiscordMentions.DiscordListener.OnMessage` | src/get_discord_mentions.py:183-203 | Messages from other channels are ignored. Messages in the channel are recorded as in `Record`. |
| `DiscordMentions.DiscordListener.CheckForMentions` | src/get_discord_mentions.py:205-249 | A missing server or channel changes nothing. Otherwise the history after the previous check minus 5 minutes is scanned and the check time is updated. More than 1000 ids are pruned to 500. |
| `PostReplies.RemoveHashtags` | src/post_replies.py:45 | Removing hashtags never lengthens the text. |
| `PostReplies.RemoveHashtagsComplete` | src/post_replies.py:45 | No hashtag survives `re.sub(r'#\w+', '', s)`. |
| `PostReplies.RemoveHashtagsNoHash` | src/post_replies.py:45 | A text without `#` passes through unchanged. |
| `PostReplies.CleanedShape` | src/post_replies.py:43-46 | The cleaned text holds no hashtag and has no whitespace at either end. The cleaned text is defined by `PostReplies.StripHashtags` and `PostReplies.Cleaned`. |
| `PostReplies.ExtractTopicSpec` | src/post_replies.py:42-47 | There is no topic exactly when the cleaned text is all leading punctuation. A topic is non-empty, hashtag-free and does not start with punctuation or whitespace. `extract_topic` is defined by `PostReplies.ExtractTopic`. |
| `PostReplies.TopicOfSpec` | src/post_replies.py:46-47 | The same facts for any hashtag-free text without trailing whitespace. |
| `PostReplies.ExtractTopicPlain` | src/post_replies.py:42-47 | A plain topic is returned as it is. |
| `PostReplies.GenerateExplanation` | src/post_replies.py:54-69 | A 200 response whose JSON body has an `explanation` yields that explanation; every other outcome yields the apology. |
| `PostReplies.SendMessage` | src/post_replies.py:76-99 | Success exactly when the webhook answers 200 or 204; an exception is failure. |
| `PostReplies.InsertPermutes` | src/post_replies.py:124 | Inserting adds exactly that row. |
| `PostReplies.InsertSorted` | src/post_replies.py:124 | Inserting into a sorted list keeps it sorted by timestamp. |
| `PostReplies.InsertStable` | src/post_replies.py:124 | Inserting keeps the order of each timestamp group. |
| `PostReplies.SortSortsAndPermutes` | src/post_replies.py:124 | The sort orders the rows by timestamp and is a permutation of them. The sort is defined by `PostReplies.SortByTimestamp`, an insertion sort by `PostReplies.Insert`. |
| `PostReplies.SortStable` | src/post_replies.py:124 | Rows with equal timestamps keep their file order (Python's sort is stable). |
| `PostReplies.Oldest` | src/post_replies.py:122-127 | It returns the first `n` rows (Python slice semantics for a negative `n`), sorted and drawn from the file. None of the rows left out is older than a row returned. |
| `PostReplies.OldestBound` | src/post_replies.py:124-125 | A prefix of the sorted rows is sorted, drawn from the rows and no later than the rest. |
| `PostReplies.Unlisted` | src/post_replies.py:137-139 | A row is kept exactly when it is not listed; no row is added. |
| `PostReplies.PostedIdsMembers` | src/post_replies.py:156-182 | An id is collected exactly when a selected row with a topic and a successful post carries it. The ids collected are defined by `PostReplies.PostedIds`. |
| `PostReplies.EmbedsTitled` | src/post_replies.py:176-180 | Every post is titled with the topic of some selected row. The posts are defined by `PostReplies.Embeds`. |
| `PostReplies.EmbedsCount` | src/post_replies.py:156-180 | Exactly one post is made per row with a topic. |
| `PostReplies.RemovedOnlyIfPosted` | src/post_replies.py:181-189 | A row leaves the CSV only when a selected row with the same tweet id had a topic and was posted. |
| `PostReplies.TopiclessMentionStays` | src/post_replies.py:159-162 | A selected mention without a topic stays in the CSV, unless another selected row with the same id was posted. |
| `PostReplies.RowWithoutIdStays` | src/post_replies.py:138 | A row lacking the `tweet_id` cell is never removed. |
| `PostReplies.PostSelected` | src/post_replies.py:154-185 | The loop sends the posts and collects the ids that `PostReplies.SentFor` and `PostReplies.ProcessedFor` give. |
| `PostReplies.PostMention` | src/post_replies.py:157-185 | One row: no topic means no post. Otherwise a post is made, and its id is collected when the post succeeds. |
| `PostReplies.MentionsReader.constructor` | src/post_replies.py:103-107 | The reader works on the given CSV. |
| `PostReplies.MentionsReader.ReadMentions` | src/post_replies.py:109-120 | A file that cannot be read gives no rows. |
| `PostReplies.MentionsReader.GetOldestMentions` | src/post_replies.py:122-127 | At most `n` rows of the file, sorted by timestamp and drawn from its rows. |
| `PostReplies.MentionsReader.RemoveMentionsFromCsv` | src/post_replies.py:129-146 | No ids, or an unreadable file, changes nothing. Otherwise the file keeps its header and exactly its unlisted rows, in order. |
| `PostReplies.MentionsReader.ProcessMentions` | src/post_replies.py:148-193 | No rows returns false with nothing sent. Otherwise the ten oldest are posted, the posted ids are removed, and the result says whether rows remain. |

## Left out

- Logging, `print`, and the experiment tracking done by `DatasetLogger` (src/app.py:303-335) have no effect on the modelled state and are not modelled.
- The OpenAI client, the local model and its tokenizer, the ELI5 HTTP service, the Discord webhook, and the Twitter and Discord clients are not modelled. Their results enter as outcome parameters.
- The prompt template and the `_generate_with_openai` and `_generate_with_local_model` call details (src/app.py:203-255) are also left out. Only the produced text, or a failure, is modelled.
- Async scheduling is not modelled: the Discord event loop, `periodic_check_mentions`, `on_ready` and the avatar upload (src/get_discord_mentions.py:139-181, 251-272). Each handler is modelled as one atomic call.
- The `main` loops and `if __name__` blocks run indefinitely. `TwitterStream.PollOnce` models one iteration of src/twitter_stream.py:173-197, and the other programs' `main` functions are not modelled.
- `get_user_id_with_retry` (src/twitter_stream.py:49-72) is not used by the polling loop (line 171 is commented out) and is not modelled.
- `check_rate_limit` in src/twitter_stream.py:153-163 only prints the v1.1 limits and is not modelled.
- `check_rate_limit_status` (src/ratelimit.py:107-124) is modelled as the `Result<Json>` status document passed to `CheckEndpointLimit` and `CheckRateLimit`.
- Clock and sleeping: the wall clock is a parameter, and sleeps are returned as the list of durations rather than performed.
- `MentionsBot.Bot.FetchMentions`: the clock is read at `now` for the status check and at `fetchNow` for everything after the first wait. The source reads it twice for one 429, in `get_mentions` and in `fetch_mentions` (src/main2.py:126 and 389), with only logging in between; the model gives both readings the single instant `fetchNow`.
- `random.sample` is modelled with a sequence of draws; only the size and the sub-multiset property are stated, not the distribution.
- Text: `lower()`, `\w`, `\b` and `re.IGNORECASE` are modelled for ASCII letters and digits only. Python's Unicode case folding and Unicode word characters are not modelled.
- `int()` is modelled on optional surrounding whitespace, an optional sign and ASCII digits. Underscores and non-ASCII digits are not modelled.
- `App.PyInt`: `int(None)`, `int([])` and `int({})` raise a TypeError in Python; the model gives None for them, which loading reports as a ValueError. Only the fact that loading raises is modelled, not the exception type.
- Configuration values are JSON-like without floats: a YAML float setting (where `int(280.5) == 280`) is not modelled.
- `TwitterStream.ExtractKeyword`: the handle is inserted into the pattern unescaped. The model matches it literally, which differs only for handles holding regex metacharacters. A missing `TWITTER_ACCOUNT_HANDLE` (None, which becomes the pattern `@None`) is not modelled separately.
- CSV quoting and parsing are not modelled: files are sequences of cell lists (or header-keyed rows for `csv.DictReader`). A write failing halfway through a file is not modelled: a write either happens completely or not at all. Reads are all-or-nothing too: an exception partway through a file, which in the source keeps the rows already read (`self.examples.append` at src/app.py:117-122, `self.seen_ids.add` at src/main2.py:233-245), is modelled as an unreadable file that adds nothing (`App.DatasetLoader.LoadDataset`, `MentionsBot.MentionsLogger.LoadExistingIds`).
- `TwitterStream.LastSeenFile.SetLastSeenId`: a write failure, which in the source raises out of `process_mentions`, is not modelled.
- `fetch_mentions` converts the user id with `int()` (src/main2.py:337-341). The id is only passed to the client, so the model leaves it out.
- `DiscordMentions.KeepSome`: `set(list(s)[-500:])` depends on the set's iteration order. The model states only that 500 of the ids are kept.
- `App.DatasetLoader.GetRandomExamples`: states the size and the sub-multiset property, not that the draws are uniformly random.
- Short rows of the mentions CSV: `csv.DictReader` gives None for the cells a short row lacks. A None text makes `extract_topic` raise a TypeError inside `process_mentions` (src/post_replies.py:44, reached from 157-159), which ends `main`; a None `tweet_id` would be collected as None. `PostReplies.Row` covers only rows that fill every column.
- `RateLimit.HeaderInt`: header names are matched exactly. The case-insensitive header lookup of `requests` responses is not modelled.
- `/health`, `/` and the FastAPI response model are not modelled; only `POST /explain` is.

## Findings

| source | as written | input that shows it | evidently intended | confidence | as-written member | corrected member |
|---|---|---|---|---|---|---|
| src/app.py:271-272 | A too-long reply is cut to `max_length - 3` characters and `"â€¦ #ELI5"` is appended: 9 characters, three of them a mis-decoded ellipsis. The reply can therefore be up to 6 characters over the limit. | A 55-character explanation containing `#ELI5` with `max_length` 50 gives a 56-character reply. | Cut so that the ellipsis and ` #ELI5` (7 characters) fit within `max_length`. | not executed; high | `App.FormatAsWrittenExceedsLimit` | `App.FormatWithinLimit` |
