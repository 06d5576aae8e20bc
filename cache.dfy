/**
 * The module state of holidays.py as one object: the payload dictionary
 * every accessor updates in place, its last persisted copy, the last
 * result handed out (`_cached_result`) and the registered autopost event.
 * The calendar site is a function from a date to what downloading its page
 * yields; the clock is a parameter.
 */
module Cache {
  import opened Wrappers
  import opened Calendar
  import opened Extractor
  import opened Payload
  import Text

  /** Downloading the page of one date: its events, a timeout, or a network error. */
  datatype FetchOutcome = Page(tokens: seq<Token>) | TimedOut | NetworkFailed

  const TimeoutMessage := "Превышено время ожидания ответа calend.ru"
  const NetworkMessage := "Ошибка сети при обращении к calend.ru"

  /** The message of the RuntimeError `_download_html` raises. */
  function FetchError(o: FetchOutcome): string
    requires !o.Page?
  {
    if o.TimedOut? then TimeoutMessage else NetworkMessage
  }

  /** A refresh returns the result of the new `today` slot, or raises with a message. */
  datatype RefreshOutcome = Refreshed(result: Option<HolidayResult>) | RefreshFailed(message: string)

  /** `ensure_holidays_for_date` returns a result or None, or lets the refresh's error through. */
  datatype EnsureOutcome = Answered(result: Option<HolidayResult>) | EnsureFailed(message: string)

  /** Both pages a refresh at now downloads are delivered. */
  predicate FetchesSucceed(fetch: Date -> FetchOutcome, now: Moment)
    requires ClockInRange(now)
  {
    fetch(RefreshDates(now).0).Page? && fetch(RefreshDates(now).1).Page?
  }

  /** The message of the first of the two downloads that fails. */
  function RefreshError(fetch: Date -> FetchOutcome, now: Moment): string
    requires ClockInRange(now) && !FetchesSucceed(fetch, now)
  {
    var (d1, d2) := RefreshDates(now);
    if !fetch(d1).Page? then FetchError(fetch(d1)) else FetchError(fetch(d2))
  }

  /** The payload a successful refresh at now leaves. */
  function RefreshedPayload(p: Payload, fetch: Date -> FetchOutcome, now: Moment): Payload
    requires ClockInRange(now) && FetchesSucceed(fetch, now)
  {
    var (d1, d2) := RefreshDates(now);
    ApplyRefresh(p, d1, Extract(fetch(d1).tokens, d1), d2, Extract(fetch(d2).tokens, d2), now)
  }

  /** The result a successful refresh at now returns: the names of its first date. */
  function RefreshedResult(fetch: Date -> FetchOutcome, now: Moment): (r: HolidayResult)
    requires ClockInRange(now) && FetchesSucceed(fetch, now)
    ensures r.date == RefreshDates(now).0 && (r.error.None? <==> r.holidays != [])
  {
    var d1 := RefreshDates(now).0;
    var h := Extract(fetch(d1).tokens, d1);
    HolidayResult(d1, h, CalendUrl, now, EntryError(d1, h, now))
  }

  /**
   * Between 23:45 and 23:59 a refresh answers with the next day's slot, so
   * a `get_today_holidays` that refreshes then reports the next day's names.
   */
  lemma LateRefreshAnswersNextDay(fetch: Date -> FetchOutcome, now: Moment)
    requires ClockInRange(now) && NearMidnight(now) && FetchesSucceed(fetch, now)
    ensures RefreshedResult(fetch, now).date == NextDay(now.date) != now.date
  {
  }

  /** The result of fetching one date directly, or None when the download fails. */
  function DirectResult(fetch: Date -> FetchOutcome, target: Date, now: Moment): (r: Option<HolidayResult>)
    requires ValidDate(target)
    ensures r.Some? <==> fetch(target).Page?
    ensures r.Some? ==> r.value.date == target && r.value.sourceUrl == CalendUrl + IsoDate(target) + "/"
  {
    if fetch(target).Page? then
      var h := Extract(fetch(target).tokens, target);
      Some(HolidayResult(target, h, CalendUrl + IsoDate(target) + "/", now, EntryError(target, h, now)))
    else None
  }

  /** The cached hit that `get_today_holidays` returns without refreshing. */
  predicate FreshHit(cached: Option<HolidayResult>, forceRefresh: bool) {
    !forceRefresh && cached.Some? && cached.value.holidays != []
  }

  /** `get_today_holidays` refreshes and the refresh succeeds: no cached hit answered first. */
  predicate RefreshesForToday(p: Payload, now: Moment, forceRefresh: bool, fetch: Date -> FetchOutcome)
    requires ClockInRange(now)
  {
    !FreshHit(CachedHolidayResult(p, now.date, now), forceRefresh) && FetchesSucceed(fetch, now)
  }

  /** The result `get_today_holidays` hands out, tier by tier. */
  function TodayResult(p: Payload, now: Moment, forceRefresh: bool, fetch: Date -> FetchOutcome): HolidayResult
    requires ClockInRange(now)
  {
    var cached := CachedHolidayResult(p, now.date, now);
    if FreshHit(cached, forceRefresh) then cached.value
    else if FetchesSucceed(fetch, now) then RefreshedResult(fetch, now)
    else if cached.Some? then cached.value.(error := Some(StaleNotice))
    else HolidayResult(now.date, [], CalendUrl, now, Some(NoDataNotice))
  }

  /** The payload `get_today_holidays` leaves: the refreshed one when it refreshed, else as it was. */
  function TodayPayload(p: Payload, now: Moment, forceRefresh: bool, fetch: Date -> FetchOutcome): Payload
    requires ClockInRange(now)
  {
    if RefreshesForToday(p, now, forceRefresh, fetch) then RefreshedPayload(p, fetch, now) else p
  }

  class HolidayCache {
    var payload: Payload
    /** What the cache file holds after the last write. */
    ghost var persisted: Payload
    var cachedResult: Option<HolidayResult>
    var eventRegistered: bool
    var autopostSignal: bool

    /** `initialize_holiday_cache`: load or initialise the payload, then remember today's slot as a result. */
    constructor (file: CacheFile, defaultTime: string, now: Moment, localToday: Date, configChatId: Option<int>)
      requires HasNextDay(now.date) && HasNextDay(localToday)
      ensures payload == InitPayload(file, defaultTime, now, localToday, configChatId) && persisted == payload
      ensures cachedResult == EntryToResult(payload.today.value, now)
      ensures !eventRegistered && !autopostSignal
    {
      var p := InitPayload(file, defaultTime, now, localToday, configChatId);
      payload := p;
      persisted := p;
      cachedResult := EntryToResult(p.today.value, now);
      eventRegistered := false;
      autopostSignal := false;
    }

    /** `register_autopost_event`, with the fresh, unset event the bot creates. */
    method RegisterAutopostEvent()
      modifies this
      ensures eventRegistered && !autopostSignal
      ensures payload == old(payload) && persisted == old(persisted) && cachedResult == old(cachedResult)
    {
      eventRegistered := true;
      autopostSignal := false;
    }

    /** `get_autopost_time`: the stored time, or "00:00" when the key is absent. */
    function AutopostTime(): (r: string)
      reads this
      ensures payload.autopostTime.Some? ==> r == payload.autopostTime.value
      ensures payload.autopostTime.None? ==> r == FallbackAutopostTime
    {
      if payload.autopostTime.Some? then payload.autopostTime.value else FallbackAutopostTime
    }

    /**
     * `update_autopost_time`: the normalised value; the payload is written
     * and the event set only when it differs from the stored one.
     */
    method UpdateAutopostTime(value: string) returns (r: Result<string, string>)
      modifies this
      ensures r == NormalizeTime(value)
      ensures r.Ok? ==> payload.autopostTime == Some(r.value) && AutopostTime() == r.value
      ensures r.Err? || old(payload.autopostTime) == Some(r.value) ==> unchanged(this)
      ensures r.Ok? && old(payload.autopostTime) != Some(r.value) ==>
        && payload == old(payload).(autopostTime := Some(r.value)) && persisted == payload
        && autopostSignal == (old(autopostSignal) || eventRegistered)
        && cachedResult == old(cachedResult) && eventRegistered == old(eventRegistered)
    {
      r := NormalizeTime(value);
      StoreAutopostTime(r);
    }

    /** The part of `update_autopost_time` after the normalisation (lines 136-141). */
    method StoreAutopostTime(r: Result<string, string>)
      modifies this
      ensures r.Ok? ==> payload.autopostTime == Some(r.value)
      ensures r.Err? || old(payload.autopostTime) == Some(r.value) ==> unchanged(this)
      ensures r.Ok? && old(payload.autopostTime) != Some(r.value) ==>
        && payload == old(payload).(autopostTime := Some(r.value)) && persisted == payload
        && autopostSignal == (old(autopostSignal) || eventRegistered)
        && cachedResult == old(cachedResult) && eventRegistered == old(eventRegistered)
    {
      if r.Err? || payload.autopostTime == Some(r.value) {
        return;
      }
      payload := payload.(autopostTime := Some(r.value));
      persisted := payload;
      if eventRegistered {
        autopostSignal := true;
      }
    }

    /** The loop's `event.clear()`. */
    method ClearSignal()
      modifies this
      ensures !autopostSignal
      ensures payload == old(payload) && persisted == old(persisted)
      ensures cachedResult == old(cachedResult) && eventRegistered == old(eventRegistered)
    {
      autopostSignal := false;
    }

    /** `get_autopost_message_id`: None when the map is not an object or lacks the chat's key. */
    function AutopostMessageId(chatId: int): (r: Option<int>)
      reads this
      ensures r.Some? <==> payload.messageIds.Ids? && Text.IntToString(chatId) in payload.messageIds.ids
      ensures r.Some? ==> r.value == payload.messageIds.ids[Text.IntToString(chatId)]
    {
      MessageIdOf(payload, chatId)
    }

    /** `set_autopost_message_id`, then the write. */
    method SetAutopostMessageId(chatId: int, messageId: Option<int>)
      modifies this
      ensures payload == WithMessageId(old(payload), chatId, messageId) && persisted == payload
      ensures AutopostMessageId(chatId) == messageId
      ensures cachedResult == old(cachedResult) && eventRegistered == old(eventRegistered)
      ensures autopostSignal == old(autopostSignal)
    {
      MessageIdGetAfterSet(payload, chatId, messageId);
      payload := WithMessageId(payload, chatId, messageId);
      persisted := payload;
    }

    /** `get_original_chat_title`: the stored title, None when the key is absent. */
    function OriginalChatTitle(): (r: Option<string>)
      reads this
      ensures r == payload.originalChatTitle
    {
      payload.originalChatTitle
    }

    /** `set_original_chat_title`: None deletes the key; then the write. */
    method SetOriginalChatTitle(title: Option<string>)
      modifies this
      ensures payload == old(payload).(originalChatTitle := title) && persisted == payload
      ensures OriginalChatTitle() == title
      ensures cachedResult == old(cachedResult) && eventRegistered == old(eventRegistered)
      ensures autopostSignal == old(autopostSignal)
    {
      payload := payload.(originalChatTitle := title);
      persisted := payload;
    }

    /**
     * `refresh_holiday_cache`: download both pages of the date pair, then
     * rewrite the two slots and updated_at, write, and return (and remember)
     * the result of the new `today` slot. A failed download raises before
     * anything changes.
     */
    method RefreshHolidayCache(now: Moment, fetch: Date -> FetchOutcome) returns (outcome: RefreshOutcome)
      requires ClockInRange(now)
      modifies this
      ensures !FetchesSucceed(fetch, now) ==> outcome == RefreshFailed(RefreshError(fetch, now)) && unchanged(this)
      ensures FetchesSucceed(fetch, now) ==>
        && payload == RefreshedPayload(old(payload), fetch, now) && persisted == payload
        && outcome == Refreshed(Some(RefreshedResult(fetch, now)))
        && cachedResult == Some(RefreshedResult(fetch, now))
      ensures eventRegistered == old(eventRegistered) && autopostSignal == old(autopostSignal)
    {
      var (d1, d2) := RefreshDates(now);
      var page1 := fetch(d1);
      if !page1.Page? {
        return RefreshFailed(FetchError(page1));
      }
      var page2 := fetch(d2);
      if !page2.Page? {
        return RefreshFailed(FetchError(page2));
      }
      var h1 := ParseHolidays(page1.tokens, d1);
      var h2 := ParseHolidays(page2.tokens, d2);
      payload := ApplyRefresh(payload, d1, h1, d2, h2, now);
      persisted := payload;
      SerializeDayRoundTrip(d1, h1, now, now);
      var result := EntryToResult(payload.today.value, now);
      if result.Some? {
        cachedResult := result;
      }
      return Refreshed(result);
    }

    /**
     * `get_today_holidays`, in four tiers: a non-empty cached hit unless
     * forced; else the refresh's result; else, when the refresh raised, the
     * cached entry with the stale notice; else an empty result with the
     * no-data notice, kept in memory only.
     */
    method GetTodayHolidays(now: Moment, forceRefresh: bool, fetch: Date -> FetchOutcome) returns (r: HolidayResult)
      requires ClockInRange(now)
      modifies this
      ensures var cached := CachedHolidayResult(old(payload), now.date, now);
        && (FreshHit(cached, forceRefresh) ==>
              r == cached.value && payload == old(payload) && persisted == old(persisted))
        && (!FreshHit(cached, forceRefresh) && FetchesSucceed(fetch, now) ==>
              r == RefreshedResult(fetch, now) && payload == RefreshedPayload(old(payload), fetch, now) && persisted == payload)
        && (!FreshHit(cached, forceRefresh) && !FetchesSucceed(fetch, now) && cached.Some? ==>
              r == cached.value.(error := Some(StaleNotice)) && payload == old(payload) && persisted == old(persisted))
        && (!FreshHit(cached, forceRefresh) && !FetchesSucceed(fetch, now) && cached.None? ==>
              r == HolidayResult(now.date, [], CalendUrl, now, Some(NoDataNotice))
              && payload == old(payload) && persisted == old(persisted))
      ensures payload.messageIds == old(payload.messageIds)
      ensures payload.originalChatTitle == old(payload.originalChatTitle)
      ensures cachedResult == Some(r)
      ensures eventRegistered == old(eventRegistered) && autopostSignal == old(autopostSignal)
    {
      var target := now.date;
      if !forceRefresh {
        var cached := CachedHolidayResult(payload, target, now);
        if cached.Some? && cached.value.holidays != [] {
          cachedResult := cached;
          return cached.value;
        }
      }
      var outcome := RefreshHolidayCache(now, fetch);
      if outcome.Refreshed? && outcome.result.Some? {
        return outcome.result.value;
      }
      var cached := CachedHolidayResult(payload, target, now);
      if cached.Some? {
        r := cached.value.(error := Some(StaleNotice));
        cachedResult := Some(r);
        return r;
      }
      r := HolidayResult(target, [], CalendUrl, now, Some(NoDataNotice));
      cachedResult := Some(r);
    }

    /**
     * `ensure_holidays_for_date`: a cached hit as it is; for today or
     * tomorrow a refresh (whose error is not caught) and a second look-up;
     * for any other date a direct download, None when it fails.
     */
    method EnsureHolidaysForDate(target: Date, now: Moment, fetch: Date -> FetchOutcome) returns (outcome: EnsureOutcome)
      requires ClockInRange(now) && ValidDate(target)
      modifies this
      ensures var cached := CachedHolidayResult(old(payload), target, now);
        var inRange := target == now.date || target == NextDay(now.date);
        && (cached.Some? ==> outcome == Answered(cached) && unchanged(this))
        && (cached.None? && inRange && FetchesSucceed(fetch, now) ==>
              && payload == RefreshedPayload(old(payload), fetch, now) && persisted == payload
              && cachedResult == Some(RefreshedResult(fetch, now))
              && outcome == Answered(CachedHolidayResult(payload, target, now)))
        && (cached.None? && inRange && !FetchesSucceed(fetch, now) ==>
              outcome == EnsureFailed(RefreshError(fetch, now)) && unchanged(this))
        && (cached.None? && !inRange ==> outcome == Answered(DirectResult(fetch, target, now)) && unchanged(this))
      ensures eventRegistered == old(eventRegistered) && autopostSignal == old(autopostSignal)
    {
      var cached := CachedHolidayResult(payload, target, now);
      if cached.Some? {
        return Answered(cached);
      }
      var today := now.date;
      if target == today || target == NextDay(today) {
        var refreshed := RefreshHolidayCache(now, fetch);
        if refreshed.RefreshFailed? {
          return EnsureFailed(refreshed.message);
        }
        return Answered(CachedHolidayResult(payload, target, now));
      }
      var page := fetch(target);
      if !page.Page? {
        return Answered(None);
      }
      var holidays := ParseHolidays(page.tokens, target);
      var error := EntryError(target, holidays, now);
      return Answered(Some(HolidayResult(target, holidays, CalendUrl + IsoDate(target) + "/", now, error)));
    }
  }
}
