/**
 * The persisted cache record of holidays.py and the pure rules over it:
 * the time-of-day normaliser, the serialised day slots and their reading
 * back as results, the look-up of a date in the two slots, the choice of
 * the dates a refresh fetches, the load-or-initialise step with the legacy
 * message-id migration, the per-chat message ids and the holiday picked for
 * an autopost.
 */
module Payload {
  import opened Wrappers
  import opened Text
  import opened Calendar

  const CalendUrl := "https://www.calend.ru/day/"
  const NoHolidaysToday := "Не найдено праздников на сегодня."
  const StaleNotice := "Не удалось обновить данные о праздниках, показаны сохранённые ранее."
  const NoDataNotice := "Не удалось получить данные о праздниках."
  const TimeFormatError := "Время должно быть в формате ЧЧ:ММ"
  const TimeRangeError := "Недопустимое значение часов или минут"
  /** What get_autopost_time reports when the key is absent. */
  const FallbackAutopostTime := "00:00"

  /** "No holidays found for DD.MM.YYYY." */
  function NoHolidaysOn(d: Date): string
    requires ValidDate(d)
  {
    "Не найдено праздников на " + DisplayDate(d) + "."
  }

  // ---------------------------------------------------------------- time of day

  /** The canonical form `HH:MM` with 0 <= HH <= 23 and 0 <= MM <= 59. */
  predicate IsCanonicalTime(t: string) {
    && |t| == 5 && t[2] == ':' && AllDigits(t[..2]) && AllDigits(t[3..])
    && DigitsValue(t[..2]) <= 23 && DigitsValue(t[3..]) <= 59
  }

  /** f"{h:02d}:{m:02d}". */
  function ClockText(h: nat, m: nat): (r: string)
    requires h < 24 && m < 60
    ensures IsCanonicalTime(r)
  {
    var r := Pad2(h) + ":" + Pad2(m);
    assert r[..2] == Pad2(h) && r[3..] == Pad2(m);
    r
  }

  /**
   * `_normalize_time`: Ok with the zero-padded form, or Err with the message
   * of the ValueError the source raises.
   */
  function NormalizeTime(value: string): (r: Result<string, string>)
    ensures r.Ok? ==> IsCanonicalTime(r.value)
    ensures r.Err? ==> r.error == TimeFormatError || r.error == TimeRangeError
  {
    var t := Strip(value);
    if t == "" then Err(TimeFormatError) else NormalizeParts(Split(t, ':'))
  }

  /** The steps after the split: exactly two parts, both integers, both in range. */
  function NormalizeParts(parts: seq<string>): (r: Result<string, string>)
    ensures r.Ok? ==> IsCanonicalTime(r.value)
    ensures r.Err? ==> r.error == TimeFormatError || r.error == TimeRangeError
    ensures |parts| != 2 ==> r == Err(TimeFormatError)
    ensures |parts| == 2 && (ParseInt(parts[0]).None? || ParseInt(parts[1]).None?) ==> r == Err(TimeFormatError)
    ensures |parts| == 2 && ParseInt(parts[0]).Some? && ParseInt(parts[1]).Some? ==>
      var (h, m) := (ParseInt(parts[0]).value, ParseInt(parts[1]).value);
      && (0 <= h <= 23 && 0 <= m <= 59 ==> r == Ok(ClockText(h, m)))
      && (!(0 <= h <= 23 && 0 <= m <= 59) ==> r == Err(TimeRangeError))
  {
    if |parts| != 2 then Err(TimeFormatError)
    else
      match (ParseInt(parts[0]), ParseInt(parts[1]))
      case (Some(h), Some(m)) =>
        if 0 <= h <= 23 && 0 <= m <= 59 then Ok(ClockText(h, m)) else Err(TimeRangeError)
      case _ => Err(TimeFormatError)
  }

  lemma DigitsHaveNoColon(s: string)
    requires AllDigits(s)
    ensures ':' !in s
  {
  }

  /** Two digit strings joined by a colon are trimmed and split back into the two. */
  lemma DigitPairSplits(a: string, b: string)
    requires AllDigits(a) && AllDigits(b) && a != [] && b != []
    ensures IsTrimmed(a + ":" + b)
    ensures Split(a + ":" + b, ':') == [a, b]
  {
    DigitsHaveNoColon(a);
    DigitsHaveNoColon(b);
    var v := a + ":" + b;
    assert v[0] == a[0] && v[|v| - 1] == b[|b| - 1];
    assert Join([a, b], ':') == v;
    SplitJoin([a, b], ':');
  }

  lemma ParseDigits(a: string)
    requires AllDigits(a) && a != []
    ensures ParseInt(a) == Some(DigitsValue(a) as int)
  {
    ParseDigitString(a);
  }

  /** Two digit strings around a colon: accepted when in range, else a range error. */
  lemma DigitPairNormalized(a: string, b: string)
    requires AllDigits(a) && AllDigits(b) && a != [] && b != []
    ensures NormalizeTime(a + ":" + b)
         == if DigitsValue(a) <= 23 && DigitsValue(b) <= 59 then Ok(ClockText(DigitsValue(a), DigitsValue(b)))
            else Err(TimeRangeError)
  {
    var v := a + ":" + b;
    DigitPairSplits(a, b);
    assert Strip(v) == v && v != "";
    assert NormalizeTime(v) == NormalizeParts([a, b]);
    ParseDigits(a);
    ParseDigits(b);
  }

  /** A canonical time is accepted unchanged. */
  lemma ClockTextAccepted(h: nat, m: nat)
    requires h < 24 && m < 60
    ensures NormalizeTime(ClockText(h, m)) == Ok(ClockText(h, m))
  {
    DigitPairNormalized(Pad2(h), Pad2(m));
  }

  /** Every accepted time is the canonical text of its hour and minute. */
  lemma NormalizedIsClockText(value: string)
    requires NormalizeTime(value).Ok?
    ensures exists h: nat, m: nat :: h < 24 && m < 60 && NormalizeTime(value).value == ClockText(h, m)
  {
    var parts := Split(Strip(value), ':');
    var h, m := ParseInt(parts[0]).value, ParseInt(parts[1]).value;
    assert NormalizeTime(value).value == ClockText(h, m);
  }

  /** Normalising twice changes nothing. */
  lemma NormalizeTimeIdempotent(value: string)
    requires NormalizeTime(value).Ok?
    ensures NormalizeTime(NormalizeTime(value).value) == NormalizeTime(value)
  {
    NormalizedIsClockText(value);
    var h: nat, m: nat :| h < 24 && m < 60 && NormalizeTime(value).value == ClockText(h, m);
    ClockTextAccepted(h, m);
  }

  /** Unpadded hours and minutes are accepted and padded: "7:5" becomes "07:05". */
  lemma UnpaddedTimeAccepted(h: nat, m: nat)
    requires h < 24 && m < 60
    ensures NormalizeTime(NatToString(h) + ":" + NatToString(m)) == Ok(ClockText(h, m))
  {
    DigitPairNormalized(NatToString(h), NatToString(m));
  }

  /**
   * How each stripped, split input is answered: a part that is not an
   * integer is a format error ("ab:cd", "7:3x"); two integers are accepted
   * with their padded values when in range, signs and blanks around them
   * included (" 7 : 5 " gives "07:05"), and are a range error otherwise.
   */
  lemma NormalizeTimeCases(value: string)
    ensures var parts := Split(Strip(value), ':');
      && (|parts| != 2 ==> NormalizeTime(value) == Err(TimeFormatError))
      && (|parts| == 2 && (ParseInt(parts[0]).None? || ParseInt(parts[1]).None?) ==> NormalizeTime(value) == Err(TimeFormatError))
      && (|parts| == 2 && ParseInt(parts[0]).Some? && ParseInt(parts[1]).Some? ==>
            var (h, m) := (ParseInt(parts[0]).value, ParseInt(parts[1]).value);
            && (0 <= h <= 23 && 0 <= m <= 59 ==> NormalizeTime(value) == Ok(ClockText(h, m)))
            && (!(0 <= h <= 23 && 0 <= m <= 59) ==> NormalizeTime(value) == Err(TimeRangeError)))
  {
    var t := Strip(value);
    if t == "" {
      assert Split(t, ':') == [""];
    } else {
      assert NormalizeTime(value) == NormalizeParts(Split(t, ':'));
    }
  }

  /** Anything but exactly one colon after stripping is a format error. */
  lemma WrongColonCountRejected(value: string)
    requires CountChar(Strip(value), ':') != 1
    ensures NormalizeTime(value) == Err(TimeFormatError)
  {
  }

  /** Well-formed digits out of range are a range error, not a format error ("24:00", "12:60"). */
  lemma OutOfRangeRejected(a: string, b: string)
    requires AllDigits(a) && AllDigits(b) && a != [] && b != []
    requires DigitsValue(a) > 23 || DigitsValue(b) > 59
    ensures NormalizeTime(a + ":" + b) == Err(TimeRangeError)
  {
    DigitPairNormalized(a, b);
  }

  // ---------------------------------------------------------------- day slots

  /**
   * A saved day slot: the ISO date text ("" when missing), the holiday
   * names, the fetch moment when it parses, the source URL ("" when missing).
   */
  datatype DayEntry = DayEntry(date: string, holidays: seq<string>, fetchedAt: Option<Moment>, sourceUrl: string)

  /** `HolidayResult`. */
  datatype HolidayResult = HolidayResult(
    date: Date,
    holidays: seq<string>,
    sourceUrl: string,
    fetchedAt: Moment,
    error: Option<string>)

  /** `_serialize_day`. */
  function SerializeDay(d: Date, holidays: seq<string>, fetchedAt: Moment): (e: DayEntry)
    requires ValidDate(d)
    ensures ParseIsoDate(e.date) == Some(d) && e.holidays == holidays
  {
    IsoDateRoundTrip(d);
    DayEntry(IsoDate(d), holidays, Some(fetchedAt), CalendUrl)
  }

  /** The error a result carries: none with holidays, else the "none today" or "none on date" notice. */
  function EntryError(d: Date, holidays: seq<string>, now: Moment): (r: Option<string>)
    requires ValidDate(d)
    ensures r.None? <==> holidays != []
    ensures r == Some(NoHolidaysToday) <==> holidays == [] && d == now.date
    ensures holidays == [] && d != now.date ==> r == Some(NoHolidaysOn(d))
  {
    if holidays != [] then None
    else if d == now.date then Some(NoHolidaysToday)
    else
      assert NoHolidaysOn(d) != NoHolidaysToday by {
        assert NoHolidaysOn(d)[|NoHolidaysOn(d)| - 1] == '.' && |NoHolidaysToday| == 33;
        assert NoHolidaysOn(d)[25] != NoHolidaysToday[25];
      }
      Some(NoHolidaysOn(d))
  }

  /**
   * `_payload_entry_to_result`: None for a missing or non-ISO date; otherwise
   * the slot's names, its URL or the calendar URL, its fetch moment or now,
   * and an error exactly when there are no names.
   */
  function EntryToResult(entry: DayEntry, now: Moment): (r: Option<HolidayResult>)
    ensures r.Some? <==> ParseIsoDate(entry.date).Some?
    ensures r.Some? ==> && r.value.date == ParseIsoDate(entry.date).value
                        && r.value.holidays == entry.holidays
                        && (r.value.error.None? <==> entry.holidays != [])
                        && r.value.sourceUrl != ""
                        && (entry.sourceUrl != "" ==> r.value.sourceUrl == entry.sourceUrl)
                        && (entry.sourceUrl == "" ==> r.value.sourceUrl == CalendUrl)
                        && (entry.fetchedAt.Some? ==> r.value.fetchedAt == entry.fetchedAt.value)
                        && (entry.fetchedAt.None? ==> r.value.fetchedAt == now)
                        && r.value.error == EntryError(r.value.date, entry.holidays, now)
  {
    if entry.date == "" then None
    else
      match ParseIsoDate(entry.date)
      case None => None
      case Some(d) =>
        Some(HolidayResult(
          d,
          entry.holidays,
          if entry.sourceUrl != "" then entry.sourceUrl else CalendUrl,
          if entry.fetchedAt.Some? then entry.fetchedAt.value else now,
          EntryError(d, entry.holidays, now)))
  }

  /** A serialised day reads back as the result it was built from. */
  lemma SerializeDayRoundTrip(d: Date, holidays: seq<string>, fetchedAt: Moment, now: Moment)
    requires ValidDate(d)
    ensures EntryToResult(SerializeDay(d, holidays, fetchedAt), now)
         == Some(HolidayResult(d, holidays, CalendUrl, fetchedAt, EntryError(d, holidays, now)))
  {
  }

  /** The slot is present and its date text parses to target. */
  predicate SlotHolds(slot: Option<DayEntry>, target: Date) {
    slot.Some? && ParseIsoDate(slot.value.date) == Some(target)
  }

  // ---------------------------------------------------------------- the payload

  /** autopost_message_ids: absent, present but not an object, or an object. */
  datatype MessageIds = IdsAbsent | IdsMalformed | Ids(ids: map<string, int>)

  /** The legacy autopost_message_id key: absent, null, or a value. */
  datatype LegacyId = LegacyAbsent | LegacyNull | LegacyValue(id: int)

  /**
   * The cache file's object. An absent or empty day slot is None; an absent
   * autopost_time or title is None.
   */
  datatype Payload = Payload(
    autopostTime: Option<string>,
    updatedAt: Option<Moment>,
    today: Option<DayEntry>,
    tomorrow: Option<DayEntry>,
    messageIds: MessageIds,
    legacyId: LegacyId,
    originalChatTitle: Option<string>)

  /** `_get_cached_holiday_result`: the `today` slot if it holds target, else `tomorrow` if it does. */
  function CachedHolidayResult(p: Payload, target: Date, now: Moment): (r: Option<HolidayResult>)
    requires ValidDate(target)
    ensures r.Some? <==> SlotHolds(p.today, target) || SlotHolds(p.tomorrow, target)
    ensures r.Some? ==> r.value.date == target
    ensures SlotHolds(p.today, target) ==> r == EntryToResult(p.today.value, now)
    ensures !SlotHolds(p.today, target) && SlotHolds(p.tomorrow, target) ==> r == EntryToResult(p.tomorrow.value, now)
  {
    if SlotHolds(p.today, target) then EntryToResult(p.today.value, now)
    else if SlotHolds(p.tomorrow, target) then EntryToResult(p.tomorrow.value, now)
    else None
  }

  /** The look-up goes by date, not by slot name: swapping two slots of different dates changes nothing. */
  lemma CachedLookupIgnoresSlotNames(p: Payload, target: Date, now: Moment)
    requires ValidDate(target)
    requires p.today.Some? && p.tomorrow.Some? && p.today.value.date != p.tomorrow.value.date
    ensures CachedHolidayResult(p.(today := p.tomorrow, tomorrow := p.today), target, now)
         == CachedHolidayResult(p, target, now)
  {
    var q := p.(today := p.tomorrow, tomorrow := p.today);
    if SlotHolds(p.today, target) && SlotHolds(p.tomorrow, target) {
      ParseIsoDateCanonical(p.today.value.date, target);
      ParseIsoDateCanonical(p.tomorrow.value.date, target);
    }
  }

  // ---------------------------------------------------------------- refresh

  /** 23:45 to 23:59 in the reference zone. */
  predicate NearMidnight(m: Moment) {
    m.hour == 23 && m.minute >= 45
  }

  /** The (today, tomorrow) dates a refresh at now fetches. */
  function RefreshDates(now: Moment): (r: (Date, Date))
    requires ClockInRange(now)
    ensures HasNextDay(r.0) && r.1 == NextDay(r.0) && ValidDate(r.1)
    ensures NearMidnight(now) ==> r.0 == NextDay(now.date)
    ensures !NearMidnight(now) ==> r.0 == now.date
  {
    var d := now.date;
    if NearMidnight(now) then
      var d1 := NextDay(d);
      assert d1.year <= MaxYear && (d1.year == MaxYear ==> d1.month == 1);
      (d1, NextDay(d1))
    else (d, NextDay(d))
  }

  /** The payload after a refresh: both slots rewritten, updated_at set, every other field as before. */
  function ApplyRefresh(p: Payload, d1: Date, h1: seq<string>, d2: Date, h2: seq<string>, now: Moment): (q: Payload)
    requires ValidDate(d1) && ValidDate(d2)
    ensures SlotHolds(q.today, d1) && SlotHolds(q.tomorrow, d2) && q.updatedAt == Some(now)
    ensures q.autopostTime == p.autopostTime && q.messageIds == p.messageIds
    ensures q.legacyId == p.legacyId && q.originalChatTitle == p.originalChatTitle
  {
    p.(today := Some(SerializeDay(d1, h1, now)), tomorrow := Some(SerializeDay(d2, h2, now)), updatedAt := Some(now))
  }

  /** After a refresh both fetched days are found by date, each with its own names. */
  lemma RefreshedSlotsFoundByDate(p: Payload, now: Moment, h1: seq<string>, h2: seq<string>, later: Moment)
    requires ClockInRange(now)
    ensures var (d1, d2) := RefreshDates(now);
      var q := ApplyRefresh(p, d1, h1, d2, h2, now);
      && CachedHolidayResult(q, d1, later) == Some(HolidayResult(d1, h1, CalendUrl, now, EntryError(d1, h1, later)))
      && CachedHolidayResult(q, d2, later) == Some(HolidayResult(d2, h2, CalendUrl, now, EntryError(d2, h2, later)))
  {
    var (d1, d2) := RefreshDates(now);
    assert d1 != d2;
    SerializeDayRoundTrip(d1, h1, now, later);
    SerializeDayRoundTrip(d2, h2, now, later);
  }

  /**
   * A refresh in the window before midnight prepares the next day: on
   * that day, its names are served from the cache without another fetch.
   */
  lemma LookaheadServesMidnight(p: Payload, now: Moment, h1: seq<string>, h2: seq<string>, later: Moment)
    requires ClockInRange(now) && NearMidnight(now) && later.date == NextDay(now.date)
    ensures var (d1, d2) := RefreshDates(now);
      var r := CachedHolidayResult(ApplyRefresh(p, d1, h1, d2, h2, now), later.date, later);
      r.Some? && r.value.holidays == h1
  {
    RefreshedSlotsFoundByDate(p, now, h1, h2, later);
  }

  /** The same window leaves the current day out of the cache: a look-up of it then finds nothing. */
  lemma LookaheadDropsCurrentDay(p: Payload, now: Moment, h1: seq<string>, h2: seq<string>)
    requires ClockInRange(now) && NearMidnight(now)
    ensures var (d1, d2) := RefreshDates(now);
      CachedHolidayResult(ApplyRefresh(p, d1, h1, d2, h2, now), now.date, now).None?
  {
    var (d1, d2) := RefreshDates(now);
    assert Before(now.date, d1) && Before(d1, d2);
  }

  // ---------------------------------------------------------------- load or initialise

  /** What reading the cache file gives: no file, a read error (`OSError`) or text that is not JSON, or an object. */
  datatype CacheFile = FileMissing | FileCorrupt | FileLoaded(contents: Payload)

  /** `_default_payload`. */
  function DefaultPayload(autopostTime: string, now: Moment): (p: Payload)
    requires HasNextDay(now.date)
    ensures p.autopostTime == Some(autopostTime) && p.messageIds == Ids(map[]) && p.updatedAt == Some(now)
    ensures SlotHolds(p.today, now.date) && SlotHolds(p.tomorrow, NextDay(now.date))
    ensures p.today.value.holidays == [] && p.tomorrow.value.holidays == []
    ensures p.today.value.fetchedAt == Some(now) && p.tomorrow.value.fetchedAt == Some(now)
    ensures p.legacyId == LegacyAbsent && p.originalChatTitle == None
  {
    Payload(
      Some(autopostTime), Some(now),
      Some(SerializeDay(now.date, [], now)), Some(SerializeDay(NextDay(now.date), [], now)),
      Ids(map[]), LegacyAbsent, None)
  }

  /** The object the file holds, or the default one when it is missing or corrupt. */
  function SourcePayload(file: CacheFile, defaultTime: string, now: Moment): Payload
    requires HasNextDay(now.date)
  {
    if file.FileLoaded? then file.contents else DefaultPayload(defaultTime, now)
  }

  predicate Truthy(s: Option<string>) {
    s.Some? && s.value != ""
  }

  /**
   * The legacy migration: when the old single id is present and the
   * per-chat map is not, the map is built (keyed by the configured chat when
   * there is a value and the configuration can be read) and the old key is
   * dropped; then an absent map becomes empty.
   */
  function MigrateMessageIds(p: Payload, configChatId: Option<int>): (q: Payload)
    ensures q.messageIds != IdsAbsent
    ensures p.messageIds != IdsAbsent ==> q == p
    ensures p.messageIds == IdsAbsent ==> q.legacyId == LegacyAbsent
    ensures p.messageIds == IdsAbsent ==>
      q.messageIds == Ids(if p.legacyId.LegacyValue? && configChatId.Some?
                          then map[IntToString(configChatId.value) := p.legacyId.id] else map[])
    ensures q.autopostTime == p.autopostTime && q.updatedAt == p.updatedAt && q.today == p.today
    ensures q.tomorrow == p.tomorrow && q.originalChatTitle == p.originalChatTitle
  {
    if p.messageIds != IdsAbsent then p
    else
      var ids := match p.legacyId
        case LegacyValue(v) =>
          if configChatId.Some? then map[IntToString(configChatId.value) := v] else map[]
        case _ => map[];
      p.(messageIds := Ids(ids), legacyId := LegacyAbsent)
  }

  /**
   * `_load_or_init_payload`: the file's object (or the default), with a
   * falsy autopost_time replaced by the default, an absent slot replaced by
   * an empty one for the local date (or the day after), then the migration.
   */
  function InitPayload(file: CacheFile, defaultTime: string, now: Moment, localToday: Date, configChatId: Option<int>): (p: Payload)
    requires HasNextDay(now.date) && HasNextDay(localToday)
    ensures p.autopostTime.Some? && (defaultTime != "" ==> Truthy(p.autopostTime))
    ensures p.today.Some? && p.tomorrow.Some? && p.messageIds != IdsAbsent
    ensures p.originalChatTitle == SourcePayload(file, defaultTime, now).originalChatTitle
    ensures Truthy(SourcePayload(file, defaultTime, now).autopostTime) ==> p.autopostTime == SourcePayload(file, defaultTime, now).autopostTime
    ensures SourcePayload(file, defaultTime, now).messageIds == IdsAbsent ==> p.legacyId == LegacyAbsent
    ensures SourcePayload(file, defaultTime, now).messageIds != IdsAbsent ==> p.legacyId == SourcePayload(file, defaultTime, now).legacyId
    ensures var src := SourcePayload(file, defaultTime, now);
      && (src.today.Some? ==> p.today == src.today)
      && (src.today.None? ==> p.today == Some(SerializeDay(localToday, [], now)))
      && (src.tomorrow.Some? ==> p.tomorrow == src.tomorrow)
      && (src.tomorrow.None? ==> p.tomorrow == Some(SerializeDay(NextDay(localToday), [], now)))
      && (src.messageIds != IdsAbsent ==> p.messageIds == src.messageIds)
      && (src.messageIds == IdsAbsent ==>
            p.messageIds == Ids(if src.legacyId.LegacyValue? && configChatId.Some?
                                then map[IntToString(configChatId.value) := src.legacyId.id] else map[]))
      && p.updatedAt == src.updatedAt
  {
    var src := SourcePayload(file, defaultTime, now);
    var p1 := if Truthy(src.autopostTime) then src else src.(autopostTime := Some(defaultTime));
    var p2 := if p1.today.Some? then p1 else p1.(today := Some(SerializeDay(localToday, [], now)));
    var p3 := if p2.tomorrow.Some? then p2 else p2.(tomorrow := Some(SerializeDay(NextDay(localToday), [], now)));
    MigrateMessageIds(p3, configChatId)
  }

  /**
   * After the migration the configured chat reads back the legacy id, and a
   * null legacy value or an unreadable configuration leaves no id stored.
   */
  lemma LegacyIdMigrated(p: Payload, configChatId: Option<int>, chatId: int)
    requires p.messageIds == IdsAbsent
    ensures p.legacyId.LegacyValue? && configChatId == Some(chatId) ==>
      MessageIdOf(MigrateMessageIds(p, configChatId), chatId) == Some(p.legacyId.id)
    ensures !(p.legacyId.LegacyValue? && configChatId.Some?) ==> MessageIdOf(MigrateMessageIds(p, configChatId), chatId) == None
    ensures p.legacyId.LegacyValue? && configChatId.Some? && chatId != configChatId.value ==>
      MessageIdOf(MigrateMessageIds(p, configChatId), chatId) == None
  {
    if p.legacyId.LegacyValue? && configChatId.Some? && chatId != configChatId.value {
      if IntToString(chatId) == IntToString(configChatId.value) {
        IntToStringInjective(chatId, configChatId.value);
      }
    }
  }

  /** Loading what was written leaves it as it is, whatever the clock and configuration then say. */
  lemma InitPayloadIdempotent(file: CacheFile, defaultTime: string, now: Moment, localToday: Date, configChatId: Option<int>,
                              now': Moment, localToday': Date, configChatId': Option<int>)
    requires HasNextDay(now.date) && HasNextDay(localToday) && HasNextDay(now'.date) && HasNextDay(localToday')
    ensures var p := InitPayload(file, defaultTime, now, localToday, configChatId);
      InitPayload(FileLoaded(p), defaultTime, now', localToday', configChatId') == p
  {
  }

  /** A missing or corrupt file gives the default payload for now, with nothing to fill in, whatever the default time (even empty). */
  lemma FreshInstallPayload(defaultTime: string, now: Moment, localToday: Date, configChatId: Option<int>)
    requires HasNextDay(now.date) && HasNextDay(localToday)
    ensures InitPayload(FileMissing, defaultTime, now, localToday, configChatId) == DefaultPayload(defaultTime, now)
    ensures InitPayload(FileCorrupt, defaultTime, now, localToday, configChatId) == DefaultPayload(defaultTime, now)
  {
  }

  /**
   * On a fresh install today's slot is present but empty: the cached look-up
   * finds it, so a failing refresh falls back to it with the stale notice,
   * not to the no-data result.
   */
  lemma FreshInstallFindsEmptyToday(defaultTime: string, now: Moment, localToday: Date, configChatId: Option<int>)
    requires HasNextDay(now.date) && HasNextDay(localToday)
    ensures CachedHolidayResult(InitPayload(FileMissing, defaultTime, now, localToday, configChatId), now.date, now)
         == Some(HolidayResult(now.date, [], CalendUrl, now, Some(NoHolidaysToday)))
  {
    SerializeDayRoundTrip(now.date, [], now, now);
  }

  // ---------------------------------------------------------------- per-chat message ids

  /** `get_autopost_message_id`: the id stored under str(chat_id), if the map is an object holding one. */
  function MessageIdOf(p: Payload, chatId: int): (r: Option<int>)
    ensures r.Some? <==> p.messageIds.Ids? && IntToString(chatId) in p.messageIds.ids
    ensures r.Some? ==> r.value == p.messageIds.ids[IntToString(chatId)]
  {
    match p.messageIds
    case Ids(ids) => if IntToString(chatId) in ids then Some(ids[IntToString(chatId)]) else None
    case _ => None
  }

  /** `set_autopost_message_id`: a non-object map is reset to empty; then the chat's key is set or removed. */
  function WithMessageId(p: Payload, chatId: int, messageId: Option<int>): (q: Payload)
    ensures q.messageIds.Ids?
    ensures q == p.(messageIds := q.messageIds)
  {
    var ids := if p.messageIds.Ids? then p.messageIds.ids else map[];
    var key := IntToString(chatId);
    p.(messageIds := Ids(if messageId.Some? then ids[key := messageId.value] else ids - {key}))
  }

  /** Reading a chat's id after setting it gives what was set (None after a removal). */
  lemma MessageIdGetAfterSet(p: Payload, chatId: int, messageId: Option<int>)
    ensures MessageIdOf(WithMessageId(p, chatId, messageId), chatId) == messageId
  {
  }

  /** Setting one chat's id leaves every other chat's id as it was (none when the map was not an object). */
  lemma MessageIdOthersUnchanged(p: Payload, chatId: int, messageId: Option<int>, other: int)
    requires other != chatId
    ensures MessageIdOf(WithMessageId(p, chatId, messageId), other) == MessageIdOf(p, other)
  {
    if IntToString(other) == IntToString(chatId) {
      IntToStringInjective(other, chatId);
    }
  }

  // ---------------------------------------------------------------- the autopost pick

  /** The nominative form the source looks for. */
  const RussiaAsWritten := "россия"
  /** The stem every inflected form of the name shares ("России", "Россией", "Российский"). */
  const RussiaStem := "росси"

  /** The lower-cased name contains the given Cyrillic form of Russia, or "russia". */
  predicate MentionsRussia(h: string, form: string) {
    Contains(Lower(h), form) || Contains(Lower(h), "russia")
  }

  /** The first name that does not mention Russia in that form, if any. */
  function FirstWithoutRussia(hs: seq<string>, form: string): (r: Option<nat>)
    ensures r.Some? ==> r.value < |hs| && !MentionsRussia(hs[r.value], form)
    ensures r.Some? ==> forall j :: 0 <= j < r.value ==> MentionsRussia(hs[j], form)
    ensures r.None? <==> forall j :: 0 <= j < |hs| ==> MentionsRussia(hs[j], form)
    decreases |hs|
  {
    if hs == [] then None
    else if !MentionsRussia(hs[0], form) then Some(0)
    else
      match FirstWithoutRussia(hs[1..], form)
      case None => None
      case Some(k) => Some(k + 1)
  }

  /** None for no names; else the first name not mentioning Russia, or the first name when all do. */
  function PickAvoiding(hs: seq<string>, form: string): (r: Option<string>)
    ensures r.None? <==> hs == []
    ensures r.Some? ==> r.value in hs
    ensures (exists i :: 0 <= i < |hs| && !MentionsRussia(hs[i], form)) ==> r.Some? && !MentionsRussia(r.value, form)
    ensures (forall i :: 0 <= i < |hs| ==> MentionsRussia(hs[i], form)) && hs != [] ==> r == Some(hs[0])
    ensures forall i :: 0 <= i < |hs| && !MentionsRussia(hs[i], form) && (forall j :: 0 <= j < i ==> MentionsRussia(hs[j], form))
                        ==> r == Some(hs[i])
  {
    if hs == [] then None
    else
      match FirstWithoutRussia(hs, form)
      case Some(k) =>
        assert forall i :: 0 <= i < |hs| && !MentionsRussia(hs[i], form) && (forall j :: 0 <= j < i ==> MentionsRussia(hs[j], form))
                           ==> i == k by {
          forall i | 0 <= i < |hs| && !MentionsRussia(hs[i], form) && (forall j :: 0 <= j < i ==> MentionsRussia(hs[j], form))
            ensures i == k
          {
            assert !(k < i) && !(i < k);
          }
        }
        Some(hs[k])
      case None => Some(hs[0])
  }

  /** `select_autopost_holiday` as written: it looks for the nominative "россия". */
  function SelectAutopostHolidayAsWritten(hs: seq<string>): (r: Option<string>)
    ensures r.None? <==> hs == []
    ensures r.Some? ==> r.value in hs
    ensures (exists i :: 0 <= i < |hs| && !MentionsRussia(hs[i], RussiaAsWritten)) ==>
      r.Some? && !MentionsRussia(r.value, RussiaAsWritten)
    ensures forall i :: 0 <= i < |hs| && !MentionsRussia(hs[i], RussiaAsWritten)
                        && (forall j :: 0 <= j < i ==> MentionsRussia(hs[j], RussiaAsWritten))
                        ==> r == Some(hs[i])
    ensures (forall i :: 0 <= i < |hs| ==> MentionsRussia(hs[i], RussiaAsWritten)) && hs != [] ==> r == Some(hs[0])
  {
    PickAvoiding(hs, RussiaAsWritten)
  }

  /**
   * `select_autopost_holiday` as intended: it looks for the stem "росси", so
   * whenever some name avoids Russia, the pick contains no form of it.
   */
  function SelectAutopostHoliday(hs: seq<string>): (r: Option<string>)
    ensures r.None? <==> hs == []
    ensures r.Some? ==> r.value in hs
    ensures (exists i :: 0 <= i < |hs| && !MentionsRussia(hs[i], RussiaStem)) ==>
      && r.Some? && !Contains(r.value, "Росси") && !Contains(r.value, RussiaStem)
      && !MentionsRussia(r.value, RussiaAsWritten)
    ensures forall i :: 0 <= i < |hs| && !MentionsRussia(hs[i], RussiaStem)
                        && (forall j :: 0 <= j < i ==> MentionsRussia(hs[j], RussiaStem))
                        ==> r == Some(hs[i])
    ensures (forall i :: 0 <= i < |hs| ==> MentionsRussia(hs[i], RussiaStem)) && hs != [] ==> r == Some(hs[0])
  {
    var r := PickAvoiding(hs, RussiaStem);
    if r.Some? then AvoidsEveryForm(r.value); r else r
  }

  /** A name without the stem contains no form of Russia the code or the stem looks for. */
  lemma AvoidsEveryForm(h: string)
    ensures !MentionsRussia(h, RussiaStem) ==>
      !Contains(h, "Росси") && !Contains(h, RussiaStem) && !MentionsRussia(h, RussiaAsWritten)
  {
    if !MentionsRussia(h, RussiaStem) {
      if Contains(h, "Росси") {
        StemCatchesInflected(h);
      }
      if Contains(h, RussiaStem) {
        assert Lower(RussiaStem) == RussiaStem;
        LowerKeepsContains(h, RussiaStem);
      }
      if MentionsRussia(h, RussiaAsWritten) {
        StemCatchesNominative(h);
      }
    }
  }

  /** Lower-casing keeps occurrences: if p occurs in s, Lower(p) occurs in Lower(s). */
  lemma LowerKeepsContains(s: string, p: string)
    requires Contains(s, p)
    ensures Contains(Lower(s), Lower(p))
  {
    var i := ContainsIndex(s, p);
    assert Lower(s)[i..i + |p|] == Lower(p);
    ContainsAt(Lower(s), Lower(p), i);
  }

  /** The stem catches every name the nominative form catches. */
  lemma StemCatchesNominative(h: string)
    requires MentionsRussia(h, RussiaAsWritten)
    ensures MentionsRussia(h, RussiaStem)
  {
    if Contains(Lower(h), RussiaAsWritten) {
      assert RussiaAsWritten[..|RussiaStem|] == RussiaStem;
      ContainsAt(RussiaAsWritten, RussiaStem, 0);
      ContainsTransitive(Lower(h), RussiaAsWritten, RussiaStem);
    }
  }

  /** The stem catches the inflected, capitalised forms the calendar prints, such as "России". */
  lemma StemCatchesInflected(h: string)
    requires Contains(h, "Росси")
    ensures MentionsRussia(h, RussiaStem)
  {
    LowerKeepsContains(h, "Росси");
    assert Lower("Росси") == RussiaStem;
  }

  const DayOfRussia := "День России"
  const BreadDay := "День хлеба"

  lemma DayOfRussiaMissed()
    ensures !MentionsRussia(DayOfRussia, RussiaAsWritten)
  {
    var low := Lower(DayOfRussia);
    assert low == "день россии";
    AbsentCharNotContained(low, RussiaAsWritten, 5);
    AbsentCharNotContained(low, "russia", 0);
  }

  lemma DayOfRussiaInflected()
    ensures Contains(DayOfRussia, "Росси")
  {
    assert DayOfRussia[5..10] == "Росси";
    ContainsAt(DayOfRussia, "Росси", 5);
  }

  lemma BreadDayEligible()
    ensures !MentionsRussia(BreadDay, RussiaStem)
  {
    var low := Lower(BreadDay);
    assert low == "день хлеба";
    AbsentCharNotContained(low, RussiaStem, 0);
    AbsentCharNotContained(low, "russia", 0);
  }

  /** Of two names, the first is picked unless it mentions Russia and the second does not. */
  lemma PickOfPair(a: string, b: string, form: string)
    ensures !MentionsRussia(a, form) ==> PickAvoiding([a, b], form) == Some(a)
    ensures MentionsRussia(a, form) && !MentionsRussia(b, form) ==> PickAvoiding([a, b], form) == Some(b)
  {
    var hs := [a, b];
    assert hs[0] == a && hs[1] == b;
  }

  /**
   * As written, "День России" is taken for the post although a name
   * without Russia follows; the stem skips it.
   */
  lemma NominativeMissesInflectedName()
    ensures SelectAutopostHolidayAsWritten([DayOfRussia, BreadDay]) == Some(DayOfRussia)
    ensures SelectAutopostHoliday([DayOfRussia, BreadDay]) == Some(BreadDay)
  {
    DayOfRussiaMissed();
    DayOfRussiaInflected();
    BreadDayEligible();
    StemCatchesInflected(DayOfRussia);
    PickOfPair(DayOfRussia, BreadDay, RussiaAsWritten);
    PickOfPair(DayOfRussia, BreadDay, RussiaStem);
  }
}
