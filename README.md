# HolidayBot cache layer in Dafny

HolidayBot is a Telegram bot. Once a day it posts the day's holidays to a chat, read from
calend.ru. It also prefixes the chat's title with an emoji that fits the holiday. This project models
the bot's decision logic and proves properties of it:

- **Extraction** (`extractor.dfy`). The holiday extractor of `holidays.py` is a state machine over
  tag and text events. It enters only the `div_{year}-{month}-{day}` container, tracks nested
  containers and collects the trimmed text of holiday links. It is modelled twice: as a fold of pure
  step functions, and as the `AnchorParser` class whose callbacks update its fields. `Feed` is proved
  equal to the fold.
- **Cache payload** (`payload.dfy`):
  - the persisted record, with its `today`/`tomorrow` day slots and the autopost time, the
    per-chat message ids and the original chat title;
  - the time-of-day normaliser;
  - reading a slot back as a result, and looking a date up in the two slots;
  - the near-midnight choice of the dates a refresh downloads;
  - load-or-initialise with the legacy message-id migration;
  - the holiday picked for an autopost.
- **Module state** (`cache.dfy`). The module-level state of `holidays.py` is the `HolidayCache`
  class. It holds the payload, the last written copy of it (ghost), the in-memory `_cached_result`
  and the autopost event. Its methods are the refresh, the four-tier `get_today_holidays`,
  `ensure_holidays_for_date` and the setters. The calendar site is a function from a date to a
  downloaded page (a token sequence), a timeout or a network error. The clock is a parameter.
- **Emoji table** (`emojis.dfy`). This is `holiday_emojis.py`: the first-match emoji lookup, the
  decoration of a name, and loading the fragment table from its JSON items.
- **One autopost pass** (`autopost.dfy`). This is one iteration of `autopost_loop` in `main.py`:
  - the next-run delay and the wait for the timer or the event;
  - the choice of holiday and emoji, and the post text;
  - reconciling the stored original chat title, and the new title;
  - recording the posted message id.
- **Shared helpers.** `text.dfy` and `calendar.dfy` hold the Python built-ins the code relies on:
  `str.strip`, `str.lower`, substring tests, `split`/`join`, `int`/`str` on integers, and
  `date.isoformat`/`fromisoformat`/`+ timedelta(days=1)`.

In three places the code does something a reader might not expect; the model follows the code:

- The synthetic "no data" result of `get_today_holidays` is kept only in memory. The payload file is
  not touched (`holidays.py:276-284`). `HolidayCache.GetTodayHolidays` states this.
- On a fresh install, `today` is an empty slot dated today. A failing refresh therefore returns that
  slot with the stale notice, not the no-data result. `Payload.FreshInstallFindsEmptyToday` and
  `HolidayCache.GetTodayHolidays` state this.
- The legacy `autopost_message_id` key is dropped only when `autopost_message_ids` is absent
  (`holidays.py:501-515`). If both keys are present, the legacy key stays.

Two consequences of the near-midnight look-ahead (a refresh between 23:45 and 23:59 fetches the next
two days) are stated as lemmas:

- A `get_today_holidays` that refreshes in that window reports the next day's names
  (`Cache.LateRefreshAnswersNextDay`).
- After such a refresh the current day is no longer cached (`Payload.LookaheadDropsCurrentDay`).

## Model

Definitions without a contract of their own are covered by the rows of the members whose contracts use them. These are `Extractor.Step`, `Extractor.Run` and `Extractor.Extract` (the parser fold), `Cache.TodayResult` and `Cache.TodayPayload` (the four tiers of `get_today_holidays`), and `Autopost.PostMessage` (the post text).

| member | source | states |
|---|---|---|
| `Text.Strip` | holidays.py:93 | `str.strip()`: the result has no white space at either end and is never longer; a string already trimmed is returned unchanged |
| `Text.StripRemovesOnlySpace` | holidays.py:93 | what `str.strip()` removes is white space only: the result is the part of the input that follows its leading white space and is followed only by white space |
| `Text.Split` | holidays.py:581 | `str.split(sep)`: one more piece than separators, and no piece contains the separator |
| `Text.SplitJoin` | holidays.py:581 | splitting a join of separator-free pieces gives the pieces back |
| `Text.NatToString` | holidays.py:436 | `str(n)`: at least one digit, all ASCII digits, reads back as n, and no leading zero unless n is 0 |
| `Text.ParseIntToString` | holidays.py:629 | `int(str(i)) == i` for every integer |
| `Text.IntToStringInjective` | holidays.py:624 | distinct chat ids give distinct `str(chat_id)` keys |
| `Calendar.NextDay` | holidays.py:316-322 | `date + timedelta(days=1)` is a valid date strictly after the argument |
| `Calendar.NextDayIsSuccessor` | holidays.py:316-322 | no valid date lies strictly between a date and its successor |
| `Calendar.ParseIsoDate` | holidays.py:459 | `date.fromisoformat` accepts only text naming a valid date |
| `Calendar.IsoDateRoundTrip` | holidays.py:364 | parsing the ISO text of a date gives the date back |
| `Calendar.ParseIsoDateCanonical` | holidays.py:223 | the only text that parses to a date is its ISO text, so slot dates compare like dates |
| `Extractor.AttrGet` | holidays.py:66-67 | `dict(attrs).get(key)` is present exactly when some attribute has that name, and is then the value of the last attribute with that name |
| `Extractor.StepConsistent` | holidays.py:64-102 | each callback keeps the depth positive exactly inside the target, keeps every collected name non-empty and trimmed, and only appends names |
| `Extractor.EndTagConsistent` | holidays.py:86-98 | closing a tag keeps the invariants, and a closed link appends at most its stripped, non-empty text |
| `Extractor.RunConsistent` | holidays.py:51-53 | feeding any event sequence keeps those invariants, and the names collected earlier stay a prefix |
| `Extractor.ExtractedNamesTrimmed` | holidays.py:93-95 | every extracted name is non-empty and trimmed |
| `Extractor.RunAppend` | holidays.py:52 | feeding a + b is feeding a, then b |
| `Extractor.ExtractPrefixMonotone` | holidays.py:95 | names found in a prefix of the page stay, in order, at the front of the result (document order, duplicates kept) |
| `Extractor.OutsideEventsIgnored` | holidays.py:65-77 | outside the target and not capturing, events that do not open the target change nothing |
| `Extractor.ExtractIgnoresPrefix` | holidays.py:76-77 | anchors and containers before the target container contribute nothing |
| `Extractor.AnchorCaptured` | holidays.py:79-98 | inside the target, a holiday link adds its stripped text when that is non-empty and nothing otherwise, ends the capture with an empty buffer, and leaves depth and nesting as they were |
| `Extractor.NestedContainerKeepsTarget` | holidays.py:68-69 | a nested container opened and closed inside the target leaves the parser inside it |
| `Extractor.DivIdWithoutLeadingZeros` | holidays.py:434-436 | container ids carry no leading zeros (`div_2025-12-2`, `div_2025-1-1`) |
| `Extractor.DivIdInjective` | holidays.py:436 | distinct dates have distinct container ids |
| `Extractor.ExamplePageExtraction` | holidays.py:64-102 | on a page with a nested container, one link inside the target and one after it, only the inside link is extracted, trimmed |
| `Extractor.AnchorParser.constructor` | holidays.py:41-48 | a new parser holds the initial state for its target id |
| `Extractor.AnchorParser.HandleStartTag` | holidays.py:64-84 | the fields after the callback are the start-tag step of the fields before |
| `Extractor.AnchorParser.HandleEndTag` | holidays.py:86-98 | the fields after the callback are the end-tag step of the fields before |
| `Extractor.AnchorParser.HandleData` | holidays.py:100-102 | the fields after the callback are the text step of the fields before |
| `Extractor.AnchorParser.Feed` | holidays.py:51-62 | the fields after feeding are the fold of the steps over the events, and the result is the collected names |
| `Extractor.ParseHolidays` | holidays.py:433-451 | the names are what a fresh parser for the date's container collects from the page |
| `Emojis.MatchIndex` | holiday_emojis.py:88-91 | the index of the first fragment found in the lowered name: every earlier fragment is absent, and None exactly when no fragment occurs |
| `Emojis.EmojiForHoliday` | holiday_emojis.py:83-91 | the loop's answer is the first-match lookup; Some exactly when the name is non-empty and some fragment occurs in its lower-cased form |
| `Emojis.MatchIndexIsFirst` | holiday_emojis.py:88-90 | an occurring fragment with no earlier occurring one is the match |
| `Emojis.FirstMatchWins` | holiday_emojis.py:88-90 | a later entry never overrides an earlier matching one |
| `Emojis.EmojiForIgnoresCase` | holiday_emojis.py:87 | a name and its lower-cased form get the same emoji |
| `Emojis.DefaultSecondEntryShadowed` | holiday_emojis.py:19-20 | entry 1 of the default table can never be the match, because entry 0 occurs in it |
| `Emojis.DisplayEmoji` | holiday_emojis.py:96 | never empty; it is the matched emoji when that is non-empty, else the party emoji |
| `Emojis.DecorateHoliday` | holiday_emojis.py:94-97 | the display emoji, one space, then the name unchanged |
| `Emojis.DecorateUnmatched` | holiday_emojis.py:96-97 | a name matching no fragment gets the party emoji |
| `Emojis.NormalizeItemsSound` | holiday_emojis.py:63-69 | a pair is loaded exactly when some item is a list of length at least two or an object with both keys that gives it |
| `Emojis.NormalizeEncode` | holiday_emojis.py:46-69 | reading back the file written from a table gives the table |
| `Emojis.LoadFragments` | holiday_emojis.py:55-76 | the file's well-formed pairs when there is one, else the defaults; never empty; the default file is written exactly when the file is missing |
| `Emojis.ReloadDefault` | holiday_emojis.py:46-73 | loading the default file once written gives the default table |
| `Payload.ClockText` | holidays.py:592 | the zero-padded text `HH:MM` is canonical |
| `Payload.NormalizeTime` | holidays.py:575-592 | an accepted time is canonical `HH:MM`; a rejection carries the format or the range message |
| `Payload.NormalizeParts` | holidays.py:581-592 | the steps after the split: anything but two parts, or a part that is not an integer, is a format error; two integers in range are accepted as their padded text; two integers out of range are a range error |
| `Payload.NormalizedIsClockText` | holidays.py:590-592 | every accepted time is the padded text of an hour below 24 and a minute below 60 |
| `Payload.ClockTextAccepted` | holidays.py:578-592 | a canonical time is accepted unchanged |
| `Payload.NormalizeTimeIdempotent` | holidays.py:575-592 | normalising an accepted time again changes nothing |
| `Payload.NormalizeTimeCases` | holidays.py:578-592 | for any input: after stripping and splitting, a wrong part count or a non-integer part is a format error (`ab:cd`, `7:3x`); two integers in range, signed or blank-padded, are accepted as their padded text; out of range they are a range error |
| `Payload.UnpaddedTimeAccepted` | holidays.py:581-592 | unpadded hours and minutes in range are accepted and padded (`7:5` becomes `07:05`) |
| `Payload.WrongColonCountRejected` | holidays.py:581-583 | a stripped value without exactly one colon is a format error |
| `Payload.OutOfRangeRejected` | holidays.py:590-591 | digits out of range are a range error, not a format error |
| `Payload.DigitPairNormalized` | holidays.py:578-592 | two digit strings around a colon are accepted when in range, else rejected as out of range |
| `Payload.SerializeDay` | holidays.py:362-368 | the slot's date text parses back to the date and the names are kept |
| `Payload.EntryError` | holidays.py:467-474 | no error exactly when there are names; the "none today" notice exactly when there are none and the date is today; for an empty slot of another day, the "none on DD.MM.YYYY" notice for that date |
| `Payload.EntryToResult` | holidays.py:454-481 | None exactly for a missing or non-ISO date; otherwise the slot's date and names; the slot's URL, or the calendar URL when it has none; the slot's fetch moment, or now when it has none; and the error `EntryError` gives for that date and those names |
| `Payload.SerializeDayRoundTrip` | holidays.py:362-368 | a serialised day reads back as the result it was built from |
| `Payload.CachedHolidayResult` | holidays.py:205-234 | a result exactly when some slot holds the date, always for that date, and the `today` slot first |
| `Payload.CachedLookupIgnoresSlotNames` | holidays.py:216-232 | the look-up goes by date: swapping two slots of different dates changes nothing |
| `Payload.RefreshDates` | holidays.py:306-323 | near midnight the pair is (D+1, D+2), otherwise (D, D+1); the second is always the day after the first |
| `Payload.ApplyRefresh` | holidays.py:339-344 | both slots hold the fetched dates and updated_at is set; autopost time, message ids, legacy key and title are unchanged |
| `Payload.RefreshedSlotsFoundByDate` | holidays.py:341-359 | after a refresh both fetched dates are found with their own names |
| `Payload.LookaheadServesMidnight` | holidays.py:294-301 | a refresh between 23:45 and 23:59 serves the next day's names from the cache on that day |
| `Payload.LookaheadDropsCurrentDay` | holidays.py:314-317 | after such a refresh, the current day is no longer in the cache |
| `Payload.DefaultPayload` | holidays.py:524-532 | the given autopost time, updated_at now, an empty id map, no legacy key and no title, and slots for today and tomorrow with no names, fetched now |
| `Payload.MigrateMessageIds` | holidays.py:500-517 | an already present map leaves everything as found; otherwise the map becomes `{str(configured chat): legacy id}` when there is a legacy value and the configuration is readable, else empty, and the legacy key is gone; the other fields are unchanged |
| `Payload.LegacyIdMigrated` | holidays.py:500-517 | after the migration the configured chat reads back the legacy id and every other chat reads none; a null legacy value or an unreadable configuration leaves no id stored |
| `Payload.InitPayload` | holidays.py:484-521 | the autopost time is present (truthy unless the default is empty) and a truthy stored one is kept; a present slot is kept and an absent one becomes an empty slot for the local date or the day after; a present id map is kept, an absent one becomes the migrated map; title and updated_at are as found; the legacy key is kept only beside a present map |
| `Payload.InitPayloadIdempotent` | holidays.py:484-521 | loading what was written gives it back, whatever the clock and configuration then say |
| `Payload.FreshInstallPayload` | holidays.py:485-492 | a missing file, or one whose read fails or whose text is not valid JSON, gives the default payload, for every default time including the empty one |
| `Payload.FreshInstallFindsEmptyToday` | holidays.py:264-274 | on a fresh install the look-up of today finds an empty slot, so a failing refresh returns it with the stale notice |
| `Payload.MessageIdOf` | holidays.py:618-631 | an id exactly when the map is an object with the chat's key, and then the stored one |
| `Payload.WithMessageId` | holidays.py:634-644 | the map becomes an object, and no other field changes |
| `Payload.MessageIdGetAfterSet` | holidays.py:634-644 | reading a chat's id after setting it gives what was set, or None after a removal |
| `Payload.MessageIdOthersUnchanged` | holidays.py:639-643 | setting one chat's id leaves every other chat's id as it was, whatever the map held before |
| `Payload.FirstWithoutRussia` | holidays.py:606-609 | the index of the first name not mentioning Russia, with all earlier ones mentioning it; None exactly when all do |
| `Payload.PickAvoiding` | holidays.py:600-615 | None exactly for no names; a name of the list; the first name not mentioning Russia in the given form when there is one; else the first name |
| `Payload.SelectAutopostHolidayAsWritten` | holidays.py:600-615 | the code as written, with the nominative form: None exactly for no names; a name of the list; the first name that avoids that form; the first name when all mention it |
| `Payload.SelectAutopostHoliday` | holidays.py:600-615 | the intended rule, with the stem: None exactly for no names; a name of the list; the first name without the stem, which has no form of Russia (“Росси”, “росси”, “россия”, “russia”); the first name when all have it |
| `Payload.StemCatchesNominative` | holidays.py:608 | the stem catches every name the nominative form catches |
| `Payload.StemCatchesInflected` | holidays.py:601 | the stem catches the inflected forms the calendar prints, such as “России” |
| `Payload.PickOfPair` | holidays.py:606-615 | of two names, the first is picked unless it mentions Russia and the second does not |
| `Payload.NominativeMissesInflectedName` | holidays.py:606-612 | as written, “День России” is picked before “День хлеба”; the stem picks “День хлеба” |
| `Cache.RefreshedResult` | holidays.py:356-359 | a successful refresh returns a result for its first date, with an error exactly when there are no names |
| `Cache.DirectResult` | holidays.py:174-202 | a direct download gives a result for the date, with its page URL, exactly when the page arrives |
| `Cache.LateRefreshAnswersNextDay` | holidays.py:314-317 | between 23:45 and 23:59 a successful refresh answers with the next day's slot, never the current day's |
| `Cache.HolidayCache.constructor` | holidays.py:112-121 | the payload is the loaded or initialised one and is written; today's slot is remembered as the result; no event is registered |
| `Cache.HolidayCache.RegisterAutopostEvent` | holidays.py:124-126 | an unset event is registered, and nothing else changes |
| `Cache.HolidayCache.AutopostTime` | holidays.py:129-131 | the stored time, or "00:00" when the payload has none |
| `Cache.HolidayCache.AutopostMessageId` | holidays.py:618-630 | an id exactly when the map is an object holding the chat's `str()` key, and then the stored id |
| `Cache.HolidayCache.OriginalChatTitle` | holidays.py:647-650 | the stored original title, None when absent |
| `Cache.HolidayCache.UpdateAutopostTime` | holidays.py:134-142 | the answer is the normalised value, and after an accepted value `get_autopost_time` returns it in canonical form; nothing changes on an error or an equal stored value; otherwise only the time changes and is written, and the event is set if registered |
| `Cache.HolidayCache.StoreAutopostTime` | holidays.py:136-142 | storing a normalised time: nothing changes for an error or an equal stored value; otherwise only the time changes, it is written, and the event is set if registered |
| `Cache.HolidayCache.ClearSignal` | main.py:66 | the event is cleared, and nothing else changes |
| `Cache.HolidayCache.SetAutopostMessageId` | holidays.py:634-644 | the payload is the one with the chat's id set or removed, `get_autopost_message_id` then returns what was set, and it is written |
| `Cache.HolidayCache.SetOriginalChatTitle` | holidays.py:653-660 | only the title changes (None removes it), `get_original_chat_title` then returns what was set, and it is written |
| `Cache.HolidayCache.RefreshHolidayCache` | holidays.py:287-359 | a failed download raises with its message before anything changes; otherwise only the two slots and updated_at change, it is written, and the new today slot is returned and remembered |
| `Cache.HolidayCache.GetTodayHolidays` | holidays.py:237-284 | four tiers in order: a non-empty cached hit unless forced, with no refresh; the refresh's result; the stale cached entry with the notice; the empty no-data result, never written; the answer is always remembered, and message ids and stored title never change |
| `Cache.HolidayCache.EnsureHolidaysForDate` | holidays.py:145-202 | a cached hit as it is; for today or tomorrow a refresh whose error propagates, then a second look-up, with the refreshed today result remembered as `refresh_holiday_cache` does; for other dates a direct download, leaving the payload alone |
| `Autopost.ParseClock` | main.py:47 | a parsed hour and minute are in range (0-23, 0-59) |
| `Autopost.ParseClockCases` | main.py:47 | a time is read exactly when it splits at `:` into two integers with the hour in 0-23 and the minute in 0-59, and then as those two integers |
| `Autopost.ParseClockOfNormalized` | main.py:47 | every time the setter stores reads back as its hour and minute |
| `Autopost.ParseClockText` | main.py:47 | the canonical text of an hour and minute reads back as that hour and minute |
| `Autopost.NextRunDelay` | main.py:49-59 | between 1 second and one day, and it lands on HH:MM:00 |
| `Autopost.NextRunDate` | main.py:54-57 | the run is today exactly when the firing time is still ahead |
| `Autopost.NextRunDelayUnique` | main.py:54-59 | no other delay within a day lands on the firing time, so none is skipped |
| `Autopost.FirstSpecific` | main.py:83-88 | the index of the first holiday whose emoji is present and not the party emoji, all earlier ones having none; None exactly when no holiday has one |
| `Autopost.PostChoice` | main.py:81-93 | the chosen holiday is one of the list and its emoji is non-empty; the first holiday with a specific emoji is chosen, with that emoji; when none has one, the first holiday with its emoji or the party emoji |
| `Autopost.ChoiceEmojiFromTable` | main.py:85-93 | the chosen emoji is the party emoji or the emoji of an entry of the table |
| `Autopost.SelectForPost` | main.py:81-93 | the loop that stops at the first specific emoji, with its fallback, returns exactly `PostChoice` |
| `Autopost.ComposePost` | main.py:74-97 | the error text for no result; the result's error or the fixed notice for no names, keeping the earlier emoji; otherwise `emoji Сегодня name!` for the `PostChoice` holiday and emoji, which becomes the selected one |
| `Autopost.DropLeadingNonWord` | main.py:123 | the longest suffix starting with a word character; every dropped character is not a word character |
| `Autopost.CleanTitle` | main.py:123 | a suffix of the title that is empty or starts with a word character, all dropped characters being non-word |
| `Autopost.ReconcileOriginal` | main.py:127-129 | the stored title is replaced by the cleaned one exactly when none is stored or the cleaned one is non-empty and differs |
| `Autopost.ChatTitle` | main.py:132-134 | a title exactly when an emoji is selected: the emoji and the original, or the emoji alone |
| `Autopost.TitleRoundTrip` | main.py:117-134 | cleaning the bot's own title gives the original back, so the next pass keeps the stored title |
| `Autopost.CleanOwnTitle` | main.py:123 | cleaning a word-free prefix ending in a blank, followed by a title that starts with a word character, gives the title |
| `Autopost.DefaultEmojisWordFree` | main.py:121-123 | no emoji of the default table, and not the party emoji, contains a word character |
| `Autopost.RecordedPayload` | main.py:106-159 | the stored title is the reconciled one; this chat's id is the sent one, or unchanged when sending failed; every other chat's id, the map itself when nothing was sent, the slots, the time, updated_at and the legacy key are unchanged |
| `Autopost.PostedTitleCleansBack` | main.py:81-134 | with a table of word-free emojis, the title the pass sets from the chosen emoji and a clean original cleans back to that original, so the next pass keeps it |
| `Autopost.DefaultTableTitleKept` | main.py:81-134 | with the default table the stored original title survives the bot's own retitling |
| `Autopost.AutopostCycle` | main.py:44-165 | a bad stored time pauses and changes nothing; an already set event, or one set during the wait, is cleared and reschedules with nothing else changed; a wait that times out posts, as `PostMade` states, with the delay to the stored time |
| `Autopost.WaitThenPost` | main.py:62-71 | the event, set before or during the wait, is cleared and reschedules with the payload, its persisted copy and the remembered result unchanged; a timeout leads to the post `PostMade` states |
| `Autopost.Post` | main.py:73-159 | after the timer, `PostMade`: today's result as `get_today_holidays` gives it and remembers it; text and emoji as `PostMessage` gives them; the previous non-zero id unpinned; the title from the emoji and the reconciled original; the payload as refreshed, then `RecordedPayload`; it is persisted when refreshed, reconciled or a message id is stored |
| `Autopost.FetchAndCompose` | main.py:74-97 | the result, payload, persisted copy and remembered result are those of `get_today_holidays` at postNow, and text and emoji are `PostMessage` of that result |
| `Autopost.RecordPost` | main.py:106-159 | the message to unpin is the stored non-zero id; the payload becomes `RecordedPayload`; the new title comes from the emoji and the reconciled original; it is persisted exactly when the title is reconciled or an id is stored; the remembered result and the event are unchanged |

## Left out

- `Payload.FreshInstallPayload`: a cache file that is not valid UTF-8 makes `read_text` raise `UnicodeDecodeError`, which `holidays.py:486-490` does not catch, so start-up fails. The model has no such outcome: `FileCorrupt` stands only for a read error (`OSError`) or text that is not valid JSON.
- The download (`_download_html`, the aiohttp session, headers and timeout). It is the function
  `fetch` from a date to a page, a timeout or a network error, and the two errors carry the source's
  messages.
- The HTML tokenizer and character references. A page is the event sequence `HTMLParser` would
  report, and incremental feeding is not modelled.
- JSON encoding and decoding, and file I/O:
  - a write is an assignment to a ghost copy, and failed writes (logged and ignored) are not
    modelled;
  - a file whose top-level value is not an object is not modelled either (`payload.get` would raise);
  - slot fields of other JSON types (a non-string date, a non-list of names) are not modelled.
- `_parse_datetime` and `_format_datetime`. A fetch moment is stored as a `Moment`, not as text.
- The clock and the time zone. `now` (Moscow time) and `localToday` (`date.today()`) are
  parameters. Each operation reads the clock once, where the source re-reads it inside
  `_payload_entry_to_result`.
- Dates are limited to years 1 to 9999. A refresh needs a clock in a year before 9999, because it
  looks two days ahead.
- `date.fromisoformat` accepts only the strict `YYYY-MM-DD` form.
- `asyncio.Lock`: the refresh runs sequentially. `asyncio.Event` is a boolean, and the sharing of
  one event between several chats' loops is not modelled.
- The configuration import in the migration. Its outcome is the parameter `configChatId`.
- Unicode is simplified:
  - `str.lower` is limited to ASCII and the basic Cyrillic letters;
  - `\w` is limited to ASCII letters, digits, `_` and Cyrillic letters;
  - `int()` takes surrounding white space, an optional sign and ASCII digits, without underscores or
    other digits;
  - `str.isspace` is modelled in full.
- Seconds are whole numbers. Microseconds and the float `total_seconds` are not modelled.
- The aiogram calls are inputs and outputs of `Autopost.AutopostCycle`:
  - the current title is an input, and the sent message id is an input that is None when sending
    fails;
  - the message to unpin and the new title are outputs;
  - failures of unpin, pin, get_chat and set_chat_title are not modelled.
- Not modelled: `_ensure_payload`'s lazy load and its "not initialised" error. The object exists
  only once constructed.
- Not modelled: logging, `cmd_today_handler`, `main()`, environment parsing and `inline_handlers.py`.
- `_write_default_json` is only the flag `writeDefault` of `Emojis.LoadFragments`. The module
  global `FRAGMENTS` is a parameter.
- The emoji literals of `holiday_emojis.py` are stored decoded from their UTF-8 bytes.
- `Emojis.LoadFragments` takes list items and object fields as already passed through `str()`. The
  text `str()` gives for nested arrays or objects is not modelled.
- `Payload.MessageIdOf` does not model `int()` on a stored id that is not an integer, because stored
  ids are modelled as integers.
- `Autopost.ParseClock` does not state its converse (that every parsable time is a normalised
  one). Stored times need not come from the setter. Which times it reads, and as what, is stated by
  `Autopost.ParseClockCases`.
- Strip: its own contract states trimmed ends and the identity on trimmed text. That only white
  space is removed is stated by `Text.StripRemovesOnlySpace`, as a lemma, so that the many callers
  of `Strip` do not carry that quantified statement.

## Findings

| source | as written | input that shows it | evidently intended | confidence | as-written member | corrected member |
|---|---|---|---|---|---|---|
| holidays.py:606-609 | a name is skipped only when its lower-cased form contains the nominative “россия” or “russia” | `["День России", "День хлеба"]` picks “День России” | names mentioning Russia in any inflected form (“России”, “Россией”, “Российской”) are passed over | not executed; medium | `Payload.NominativeMissesInflectedName` | `Payload.SelectAutopostHoliday` |
