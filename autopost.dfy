/**
 * One pass of `autopost_loop` in main.py: read the autopost time, compute
 * the delay to the next firing, wait for it or for the autopost event,
 * pick the holiday and emoji for the post, reconcile the stored original
 * chat title, derive the new title, and record the posted message's id.
 * The chat platform's calls are inputs and outputs of the pass.
 */
module Autopost {
  import opened Wrappers
  import opened Text
  import opened Calendar
  import opened Payload
  import opened Emojis
  import opened Cache

  const SecondsPerDay := 86400
  const FetchErrorText := "Ошибка при получении праздников."
  const NoHolidaysText := "Праздников не найдено."
  /** The sleep after an error in the pass. */
  const ErrorPauseSeconds := 60

  // ---------------------------------------------------------------- the next run

  /** `[int(x) for x in autopost_time.split(":")]` unpacked into two values, then `time(hour, minute)`. */
  function ParseClock(t: string): (r: Option<(int, int)>)
    ensures r.Some? ==> 0 <= r.value.0 <= 23 && 0 <= r.value.1 <= 59
  {
    var parts := Split(t, ':');
    if |parts| != 2 then None
    else
      match (ParseInt(parts[0]), ParseInt(parts[1]))
      case (Some(h), Some(m)) => if 0 <= h <= 23 && 0 <= m <= 59 then Some((h, m)) else None
      case _ => None
  }

  /**
   * Exactly the times that split at ':' into two integers with an hour of
   * 0-23 and a minute of 0-59 are read, as those two integers.
   */
  lemma ParseClockCases(t: string)
    ensures var parts := Split(t, ':');
      && (ParseClock(t).Some? <==> |parts| == 2 && ParseInt(parts[0]).Some? && ParseInt(parts[1]).Some?
                                   && 0 <= ParseInt(parts[0]).value <= 23 && 0 <= ParseInt(parts[1]).value <= 59)
      && (ParseClock(t).Some? ==> ParseClock(t).value == (ParseInt(parts[0]).value, ParseInt(parts[1]).value))
  {
  }

  /** Every time the setter stores reads back as its hour and minute. */
  lemma ParseClockOfNormalized(value: string)
    requires NormalizeTime(value).Ok?
    ensures exists h: nat, m: nat :: h < 24 && m < 60 && NormalizeTime(value).value == ClockText(h, m)
                                  && ParseClock(ClockText(h, m)) == Some((h, m))
  {
    NormalizedIsClockText(value);
    var h: nat, m: nat :| h < 24 && m < 60 && NormalizeTime(value).value == ClockText(h, m);
    ParseClockText(h, m);
  }

  lemma ParseClockText(h: nat, m: nat)
    requires h < 24 && m < 60
    ensures ParseClock(ClockText(h, m)) == Some((h, m))
  {
    var a, b := Pad2(h), Pad2(m);
    var t := ClockText(h, m);
    assert t == a + ":" + b;
    DigitPairSplits(a, b);
    var parts := Split(t, ':');
    assert parts == [a, b];
    ParseDigits(a);
    ParseDigits(b);
    assert ParseInt(parts[0]) == Some(h) && ParseInt(parts[1]) == Some(m);
  }

  /**
   * Seconds from now to the next firing at h:m:00: today's firing when it
   * is still ahead, else tomorrow's.
   */
  function NextRunDelay(now: Moment, h: int, m: int): (delay: int)
    requires ValidMoment(now) && 0 <= h <= 23 && 0 <= m <= 59
    ensures 0 < delay <= SecondsPerDay
    ensures (SecondOfDay(now) + delay) % SecondsPerDay == h * 3600 + m * 60
  {
    var target := h * 3600 + m * 60;
    var current := SecondOfDay(now);
    if target <= current then target + SecondsPerDay - current else target - current
  }

  /** The date of the next firing: today when the firing time is still ahead, else tomorrow. */
  function NextRunDate(now: Moment, h: int, m: int): (d: Date)
    requires HasNextDay(now.date) && 0 <= h <= 23 && 0 <= m <= 59
    ensures d == now.date <==> h * 3600 + m * 60 > SecondOfDay(now)
  {
    if h * 3600 + m * 60 <= SecondOfDay(now) then NextDay(now.date) else now.date
  }

  /** The delay is the only one within a day that lands on the firing time: no firing is skipped. */
  lemma NextRunDelayUnique(now: Moment, h: int, m: int, delay: int)
    requires ValidMoment(now) && 0 <= h <= 23 && 0 <= m <= 59
    requires 0 < delay <= SecondsPerDay && (SecondOfDay(now) + delay) % SecondsPerDay == h * 3600 + m * 60
    ensures delay == NextRunDelay(now, h, m)
  {
    var d0 := NextRunDelay(now, h, m);
    var s := SecondOfDay(now);
    var q0, q1 := (s + d0) / SecondsPerDay, (s + delay) / SecondsPerDay;
    assert s + d0 == q0 * SecondsPerDay + h * 3600 + m * 60;
    assert s + delay == q1 * SecondsPerDay + h * 3600 + m * 60;
    assert delay - d0 == (q1 - q0) * SecondsPerDay;
  }

  // ---------------------------------------------------------------- the post

  /** The name's emoji is present, non-empty and not the generic one. */
  predicate HasSpecificEmoji(frags: seq<Fragment>, h: string) {
    var e := EmojiFor(frags, h);
    e.Some? && e.value != "" && e.value != PartyEmoji
  }

  /** The first holiday whose emoji is specific, if any. */
  function FirstSpecific(frags: seq<Fragment>, hs: seq<string>): (r: Option<nat>)
    ensures r.Some? ==> r.value < |hs| && HasSpecificEmoji(frags, hs[r.value])
    ensures r.Some? ==> forall j :: 0 <= j < r.value ==> !HasSpecificEmoji(frags, hs[j])
    ensures r.None? <==> forall j :: 0 <= j < |hs| ==> !HasSpecificEmoji(frags, hs[j])
    decreases |hs|
  {
    if hs == [] then None
    else if HasSpecificEmoji(frags, hs[0]) then Some(0)
    else
      match FirstSpecific(frags, hs[1..])
      case None => None
      case Some(k) => Some(k + 1)
  }

  /**
   * Lines 81-93 as a value, (holiday, emoji): the first holiday with a
   * specific emoji, with that emoji; failing that, the first holiday with
   * its emoji or the party emoji.
   */
  function PostChoice(frags: seq<Fragment>, hs: seq<string>): (c: (string, string))
    requires hs != []
    ensures c.0 in hs && c.1 != []
    ensures (exists i :: 0 <= i < |hs| && HasSpecificEmoji(frags, hs[i])) ==>
      HasSpecificEmoji(frags, c.0) && c.1 == EmojiFor(frags, c.0).value
    ensures forall i :: 0 <= i < |hs| && HasSpecificEmoji(frags, hs[i])
                        && (forall j :: 0 <= j < i ==> !HasSpecificEmoji(frags, hs[j]))
                        ==> c == (hs[i], EmojiFor(frags, hs[i]).value)
    ensures (forall i :: 0 <= i < |hs| ==> !HasSpecificEmoji(frags, hs[i])) ==> c == (hs[0], DisplayEmoji(frags, hs[0]))
  {
    match FirstSpecific(frags, hs)
    case Some(k) =>
      assert forall i :: 0 <= i < |hs| && HasSpecificEmoji(frags, hs[i])
                         && (forall j :: 0 <= j < i ==> !HasSpecificEmoji(frags, hs[j]))
                         ==> i == k by {
        forall i | 0 <= i < |hs| && HasSpecificEmoji(frags, hs[i]) && (forall j :: 0 <= j < i ==> !HasSpecificEmoji(frags, hs[j]))
          ensures i == k
        {
          assert !(k < i) && !(i < k);
        }
      }
      (hs[k], EmojiFor(frags, hs[k]).value)
    case None => (hs[0], DisplayEmoji(frags, hs[0]))
  }

  /** The chosen emoji is the party emoji or the emoji of one of the table's entries. */
  lemma ChoiceEmojiFromTable(frags: seq<Fragment>, hs: seq<string>)
    requires hs != []
    ensures PostChoice(frags, hs).1 == PartyEmoji || exists k :: 0 <= k < |frags| && PostChoice(frags, hs).1 == frags[k].emoji
  {
    var (h, em) := PostChoice(frags, hs);
    if em != PartyEmoji {
      assert EmojiFor(frags, h) == Some(em);
      var k := MatchIndex(frags, Lower(h)).value;
      assert em == frags[k].emoji;
    }
  }

  /**
   * Lines 81-93: the loop over the holidays that stops at the first
   * specific emoji, with the fallback after it; it returns PostChoice.
   */
  method SelectForPost(frags: seq<Fragment>, holidays: seq<string>) returns (selected: string, emoji: string)
    requires holidays != []
    ensures (selected, emoji) == PostChoice(frags, holidays)
  {
    var i := 0;
    while i < |holidays|
      invariant 0 <= i <= |holidays|
      invariant forall j :: 0 <= j < i ==> !HasSpecificEmoji(frags, holidays[j])
    {
      var em := EmojiForHoliday(frags, holidays[i]);
      if em.Some? && em.value != "" && em.value != PartyEmoji {
        return holidays[i], em.value;
      }
      i := i + 1;
    }
    selected := holidays[0];
    var em := EmojiForHoliday(frags, selected);
    emoji := if em.Some? && em.value != "" then em.value else PartyEmoji;
  }

  /** The text of the post for a holiday and its emoji. */
  function PostText(emoji: string, holiday: string): string {
    emoji + " Сегодня " + holiday + "!"
  }

  /**
   * Lines 75-97 as a value, (text, selected emoji): the error text with no
   * result, the result's notice with no names, else the post for
   * PostChoice. Without a new choice the emoji of an earlier pass stays.
   */
  function PostMessage(frags: seq<Fragment>, result: Option<HolidayResult>, carried: Option<string>): (string, Option<string>) {
    if result.None? then (FetchErrorText, carried)
    else if result.value.holidays == [] then
      (if Truthy(result.value.error) then result.value.error.value else NoHolidaysText, carried)
    else
      var (h, em) := PostChoice(frags, result.value.holidays);
      (PostText(em, h), Some(em))
  }

  /**
   * Lines 75-97: the post text and the emoji the pass leaves selected. With
   * no holidays the emoji of an earlier pass is still the selected one.
   */
  method ComposePost(frags: seq<Fragment>, result: Option<HolidayResult>, carried: Option<string>)
    returns (text: string, emoji: Option<string>)
    ensures (text, emoji) == PostMessage(frags, result, carried)
    ensures result.None? ==> text == FetchErrorText && emoji == carried
    ensures result.Some? && result.value.holidays == [] ==>
      emoji == carried && text == (if Truthy(result.value.error) then result.value.error.value else NoHolidaysText)
    ensures result.Some? && result.value.holidays != [] ==>
      var (h, em) := PostChoice(frags, result.value.holidays);
      emoji == Some(em) && text == PostText(em, h)
  {
    if result.None? {
      return FetchErrorText, carried;
    }
    var holidays := result.value.holidays;
    if holidays == [] {
      text := if Truthy(result.value.error) then result.value.error.value else NoHolidaysText;
      return text, carried;
    }
    var selected, em := SelectForPost(frags, holidays);
    text := PostText(em, selected);
    emoji := Some(em);
  }

  // ---------------------------------------------------------------- the chat title

  /** What the `\w` class matches here: ASCII letters, digits, `_` and the Cyrillic letters. */
  predicate IsWordChar(c: char) {
    || ('a' <= c <= 'z') || ('A' <= c <= 'Z') || ('0' <= c <= '9') || c == '_'
    || ('\U{400}' <= c <= '\U{481}') || ('\U{48A}' <= c <= '\U{4FF}')
  }

  /** `re.sub(r'^[^\w]+', '', s)`: the longest suffix that starts with a word character, or "". */
  function DropLeadingNonWord(s: string): (r: string)
    ensures |r| <= |s| && r == s[|s| - |r|..]
    ensures r == [] || IsWordChar(r[0])
    ensures forall i :: 0 <= i < |s| - |r| ==> !IsWordChar(s[i])
    decreases |s|
  {
    if s != [] && !IsWordChar(s[0]) then
      var r := DropLeadingNonWord(s[1..]);
      assert forall i :: 1 <= i < |s| - |r| ==> s[i] == s[1..][i - 1];
      r
    else s
  }

  /** Line 123: the title without its leading emoji, punctuation and white space. */
  function CleanTitle(title: string): (r: string)
    ensures |r| <= |title| && r == title[|title| - |r|..]
    ensures r == [] || IsWordChar(r[0])
    ensures forall i :: 0 <= i < |title| - |r| ==> !IsWordChar(title[i])
  {
    var d := DropLeadingNonWord(title);
    assert d == [] || !IsSpace(d[0]);
    assert TrimLeft(d) == d;
    TrimLeft(d)
  }

  /**
   * Lines 127-129: the original title is replaced by the cleaned one when
   * none (or an empty one) is stored, or when the cleaned one is non-empty
   * and differs; write says whether it is stored.
   */
  function ReconcileOriginal(orig: Option<string>, cleaned: string): (r: (string, bool))
    ensures r.1 <==> !Truthy(orig) || (cleaned != "" && orig != Some(cleaned))
    ensures r.1 ==> r.0 == cleaned
    ensures !r.1 ==> Some(r.0) == orig
  {
    if !Truthy(orig) || (cleaned != "" && cleaned != orig.value) then (cleaned, true) else (orig.value, false)
  }

  /** Lines 132-134: a title only when an emoji is selected; the emoji alone when there is no original. */
  function ChatTitle(emoji: Option<string>, orig: string): (r: Option<string>)
    ensures r.Some? <==> Truthy(emoji)
    ensures r.Some? && orig != "" ==> r.value == emoji.value + " " + orig
    ensures r.Some? && orig == "" ==> r.value == emoji.value
  {
    if !Truthy(emoji) then None
    else if orig != "" then Some(emoji.value + " " + orig)
    else Some(emoji.value)
  }

  /** No character of s is a word character. */
  predicate NoWordChars(s: string) {
    forall i :: 0 <= i < |s| ==> !IsWordChar(s[i])
  }

  lemma {:induction false} DropNonWordPrefix(a: string, b: string)
    requires NoWordChars(a)
    ensures DropLeadingNonWord(a + b) == DropLeadingNonWord(b)
    decreases |a|
  {
    if a == [] {
      assert a + b == b;
    } else {
      assert (a + b)[0] == a[0] && (a + b)[1..] == a[1..] + b;
      DropNonWordPrefix(a[1..], b);
    }
  }

  /**
   * The bot's own title is not taken for a manual rename: cleaning the
   * title made from a word-free emoji and a clean original gives the
   * original back, so the next pass keeps it.
   */
  lemma TitleRoundTrip(emoji: string, orig: string)
    requires emoji != [] && NoWordChars(emoji) && orig != [] && IsWordChar(orig[0])
    ensures ChatTitle(Some(emoji), orig) == Some(emoji + " " + orig)
    ensures CleanTitle(emoji + " " + orig) == orig
    ensures ReconcileOriginal(Some(orig), CleanTitle(emoji + " " + orig)) == (orig, false)
  {
    var prefix := emoji + " ";
    assert prefix[..|prefix| - 1] == emoji && prefix[|prefix| - 1] == ' ';
    CleanOwnTitle(prefix, orig);
    assert emoji + " " + orig == prefix + orig;
    assert Truthy(Some(emoji)) && Truthy(Some(orig));
  }

  /** Cleaning a word-free prefix followed by a title that starts with a word character gives the title. */
  lemma CleanOwnTitle(prefix: string, orig: string)
    requires |prefix| >= 1 && prefix[|prefix| - 1] == ' ' && NoWordChars(prefix[..|prefix| - 1])
    requires orig != [] && IsWordChar(orig[0])
    ensures CleanTitle(prefix + orig) == orig
  {
    assert NoWordChars(prefix) by {
      forall i | 0 <= i < |prefix| ensures !IsWordChar(prefix[i]) {
        if i < |prefix| - 1 {
          assert prefix[i] == prefix[..|prefix| - 1][i];
        }
      }
    }
    DropNonWordPrefix(prefix, orig);
    assert DropLeadingNonWord(orig) == orig;
    assert !IsSpace(orig[0]);
    assert TrimLeft(orig) == orig;
  }

  /** The emoji of every default fragment, and the party emoji, hold no word character. */
  lemma DefaultEmojisWordFree()
    ensures NoWordChars(PartyEmoji)
    ensures forall i :: 0 <= i < |DefaultFragments| ==> NoWordChars(DefaultFragments[i].emoji)
  {
  }

  // ---------------------------------------------------------------- one pass

  datatype CycleOutcome =
    /** The stored time does not parse: the pass ends in the error handler, which pauses. */
    | ClockError(pause: int)
    /** The event ended the wait: the schedule is computed again, nothing is posted. */
    | Rescheduled(delay: int)
    /** The post was made: the message to unpin, the title to set, the text sent. */
    | Posted(delay: int, unpin: Option<int>, newTitle: Option<string>, text: string)

  /** Line 107, `if prev_id:`: the previous post is unpinned when its id is present and non-zero. */
  function Unpin(previous: Option<int>): Option<int> {
    if previous.Some? && previous.value != 0 then previous else None
  }

  /** Lines 106-159 write the payload: when the title is reconciled, or when a sent id is stored. */
  predicate Written(p: Payload, cleaned: string, sentId: Option<int>) {
    ReconcileOriginal(p.originalChatTitle, cleaned).1 || sentId.Some?
  }

  /**
   * The payload after lines 106-159, given the cleaned current title: the
   * reconciled original title stored, the sent id recorded for this chat,
   * and nothing else changed.
   */
  function RecordedPayload(p: Payload, chatId: int, cleaned: string, sentId: Option<int>): (q: Payload)
    ensures q.originalChatTitle == Some(ReconcileOriginal(p.originalChatTitle, cleaned).0)
    ensures MessageIdOf(q, chatId) == (if sentId.Some? then sentId else MessageIdOf(p, chatId))
    ensures forall other :: other != chatId ==> MessageIdOf(q, other) == MessageIdOf(p, other)
    ensures sentId.None? ==> q.messageIds == p.messageIds
    ensures q.autopostTime == p.autopostTime && q.updatedAt == p.updatedAt && q.today == p.today
    ensures q.tomorrow == p.tomorrow && q.legacyId == p.legacyId
  {
    var (orig, write) := ReconcileOriginal(p.originalChatTitle, cleaned);
    var p1 := if write then p.(originalChatTitle := Some(orig)) else p;
    if sentId.Some? then
      MessageIdGetAfterSet(p1, chatId, sentId);
      assert forall other :: other != chatId ==> MessageIdOf(WithMessageId(p1, chatId, sentId), other) == MessageIdOf(p1, other) by {
        forall other | other != chatId
          ensures MessageIdOf(WithMessageId(p1, chatId, sentId), other) == MessageIdOf(p1, other)
        {
          MessageIdOthersUnchanged(p1, chatId, sentId, other);
        }
      }
      WithMessageId(p1, chatId, sentId)
    else p1
  }

  /**
   * The title the pass sets is not taken for a manual rename by the next
   * pass: when every emoji of the table is free of word characters, the
   * chosen emoji prefixed to a clean original cleans back to it.
   */
  lemma PostedTitleCleansBack(frags: seq<Fragment>, hs: seq<string>, orig: string)
    requires hs != [] && forall k :: 0 <= k < |frags| ==> NoWordChars(frags[k].emoji)
    requires orig != [] && IsWordChar(orig[0])
    ensures var em := PostChoice(frags, hs).1;
      && ChatTitle(Some(em), orig) == Some(em + " " + orig)
      && ReconcileOriginal(Some(orig), CleanTitle(em + " " + orig)) == (orig, false)
  {
    ChoiceEmojiFromTable(frags, hs);
    DefaultEmojisWordFree();
    TitleRoundTrip(PostChoice(frags, hs).1, orig);
  }

  /** With the default table the stored original title survives the bot's own retitling. */
  lemma DefaultTableTitleKept(hs: seq<string>, orig: string)
    requires hs != [] && orig != [] && IsWordChar(orig[0])
    ensures var em := PostChoice(DefaultFragments, hs).1;
      ReconcileOriginal(Some(orig), CleanTitle(ChatTitle(Some(em), orig).value)) == (orig, false)
  {
    DefaultEmojisWordFree();
    PostedTitleCleansBack(DefaultFragments, hs, orig);
  }

  /** The original title lines 127-129 leave stored, given the cleaned current title. */
  function ReconciledTitle(p: Payload, cleaned: string): string {
    ReconcileOriginal(p.originalChatTitle, cleaned).0
  }

  /**
   * The post a pass makes once the timer has fired on payload p with
   * persisted copy w: today's result r is fetched, the post for r is sent
   * and its emoji selected, the previous post is unpinned, the title is
   * derived from the reconciled original, and the payload p', its
   * persisted copy w' and the remembered result are what they become.
   */
  predicate PostMade(frags: seq<Fragment>, chatId: int, delay: int, postNow: Moment, fetch: Date -> FetchOutcome,
                     carried: Option<string>, currentTitle: string, sentId: Option<int>, p: Payload, w: Payload,
                     outcome: CycleOutcome, emoji: Option<string>, p': Payload, w': Payload, cached': Option<HolidayResult>)
    requires ClockInRange(postNow)
  {
    var r := TodayResult(p, postNow, false, fetch);
    var (text, em) := PostMessage(frags, Some(r), carried);
    var cleaned := CleanTitle(currentTitle);
    && outcome == Posted(delay, Unpin(MessageIdOf(p, chatId)), ChatTitle(em, ReconciledTitle(p, cleaned)), text)
    && emoji == em
    && p' == RecordedPayload(TodayPayload(p, postNow, false, fetch), chatId, cleaned, sentId)
    && cached' == Some(r)
    && w' == (if Written(p, cleaned, sentId) || RefreshesForToday(p, postNow, false, fetch) then p' else w)
  }

  /**
   * One pass of the loop for chatId. now is the clock when the pass starts
   * and postNow the clock when the wait times out; setDuringWait says
   * whether the event is set during the wait; currentTitle is the chat's
   * title and sentId the id of the sent message (None when sending fails).
   * emoji is the selected emoji the next pass starts with.
   */
  method AutopostCycle(cache: HolidayCache, frags: seq<Fragment>, chatId: int, now: Moment, setDuringWait: bool,
                       postNow: Moment, fetch: Date -> FetchOutcome, carried: Option<string>,
                       currentTitle: string, sentId: Option<int>)
    returns (outcome: CycleOutcome, emoji: Option<string>)
    requires ValidMoment(now) && ClockInRange(postNow)
    modifies cache
    ensures var clock := ParseClock(old(cache.AutopostTime()));
      clock.None? ==> outcome == ClockError(ErrorPauseSeconds) && emoji == carried && unchanged(cache)
    ensures var clock := ParseClock(old(cache.AutopostTime()));
      clock.Some? && (old(cache.autopostSignal) || setDuringWait) ==>
      && outcome == Rescheduled(NextRunDelay(now, clock.value.0, clock.value.1))
      && emoji == carried && !cache.autopostSignal
      && cache.payload == old(cache.payload) && cache.persisted == old(cache.persisted)
      && cache.cachedResult == old(cache.cachedResult)
    ensures var clock := ParseClock(old(cache.AutopostTime()));
      clock.Some? && !old(cache.autopostSignal) && !setDuringWait ==>
      && PostMade(frags, chatId, NextRunDelay(now, clock.value.0, clock.value.1), postNow, fetch, carried, currentTitle, sentId,
                  old(cache.payload), old(cache.persisted), outcome, emoji, cache.payload, cache.persisted, cache.cachedResult)
      && cache.autopostSignal == old(cache.autopostSignal)
    ensures cache.eventRegistered == old(cache.eventRegistered)
  {
    var clock := ParseClock(cache.AutopostTime());
    if clock.None? {
      return ClockError(ErrorPauseSeconds), carried;
    }
    var delay := NextRunDelay(now, clock.value.0, clock.value.1);
    outcome, emoji := WaitThenPost(cache, frags, chatId, delay, setDuringWait, postNow, fetch, carried, currentTitle, sentId);
  }

  /**
   * Lines 62-71: the wait returns at once on an already set event, or when
   * the event is set during the delay, and the schedule is computed again;
   * when the delay runs out the post is made.
   */
  method WaitThenPost(cache: HolidayCache, frags: seq<Fragment>, chatId: int, delay: int, setDuringWait: bool,
                      postNow: Moment, fetch: Date -> FetchOutcome, carried: Option<string>,
                      currentTitle: string, sentId: Option<int>)
    returns (outcome: CycleOutcome, emoji: Option<string>)
    requires ClockInRange(postNow)
    modifies cache
    ensures old(cache.autopostSignal) || setDuringWait ==>
      && outcome == Rescheduled(delay) && emoji == carried && !cache.autopostSignal
      && cache.payload == old(cache.payload) && cache.persisted == old(cache.persisted)
      && cache.cachedResult == old(cache.cachedResult)
    ensures !old(cache.autopostSignal) && !setDuringWait ==>
      && PostMade(frags, chatId, delay, postNow, fetch, carried, currentTitle, sentId,
                  old(cache.payload), old(cache.persisted), outcome, emoji, cache.payload, cache.persisted, cache.cachedResult)
      && cache.autopostSignal == old(cache.autopostSignal)
    ensures cache.eventRegistered == old(cache.eventRegistered)
  {
    if cache.autopostSignal || setDuringWait {
      cache.ClearSignal();
      return Rescheduled(delay), carried;
    }
    outcome, emoji := Post(cache, frags, chatId, delay, postNow, fetch, carried, currentTitle, sentId);
  }

  /**
   * Lines 74-159, once the timer has fired: fetch today's result, compose
   * the post, pick the message to unpin, reconcile the stored original
   * title, derive the new title and record the sent message's id.
   */
  method Post(cache: HolidayCache, frags: seq<Fragment>, chatId: int, delay: int, postNow: Moment,
              fetch: Date -> FetchOutcome, carried: Option<string>, currentTitle: string, sentId: Option<int>)
    returns (outcome: CycleOutcome, emoji: Option<string>)
    requires ClockInRange(postNow)
    modifies cache
    ensures PostMade(frags, chatId, delay, postNow, fetch, carried, currentTitle, sentId,
                     old(cache.payload), old(cache.persisted), outcome, emoji, cache.payload, cache.persisted, cache.cachedResult)
    ensures cache.autopostSignal == old(cache.autopostSignal) && cache.eventRegistered == old(cache.eventRegistered)
  {
    var result, text;
    result, text, emoji := FetchAndCompose(cache, frags, postNow, fetch, carried);
    var unpin, newTitle := RecordPost(cache, chatId, emoji, currentTitle, sentId);
    outcome := Posted(delay, unpin, newTitle, text);
  }

  /**
   * Lines 74-97: today's result through `get_today_holidays` and the post
   * composed from it. The message ids and the stored title are untouched.
   */
  method FetchAndCompose(cache: HolidayCache, frags: seq<Fragment>, postNow: Moment,
                         fetch: Date -> FetchOutcome, carried: Option<string>)
    returns (result: HolidayResult, text: string, emoji: Option<string>)
    requires ClockInRange(postNow)
    modifies cache
    ensures result == TodayResult(old(cache.payload), postNow, false, fetch)
    ensures cache.payload == TodayPayload(old(cache.payload), postNow, false, fetch)
    ensures cache.persisted == (if RefreshesForToday(old(cache.payload), postNow, false, fetch) then cache.payload else old(cache.persisted))
    ensures cache.cachedResult == Some(result)
    ensures (text, emoji) == PostMessage(frags, Some(result), carried)
    ensures cache.autopostSignal == old(cache.autopostSignal) && cache.eventRegistered == old(cache.eventRegistered)
  {
    result := cache.GetTodayHolidays(postNow, false, fetch);
    text, emoji := ComposePost(frags, Some(result), carried);
  }

  /**
   * Lines 106-159 on the cache: the previous post to unpin, the stored
   * original title reconciled with the chat's current one, the new title,
   * and the id of the sent message recorded.
   */
  method RecordPost(cache: HolidayCache, chatId: int, emoji: Option<string>, currentTitle: string, sentId: Option<int>)
    returns (unpin: Option<int>, newTitle: Option<string>)
    modifies cache
    ensures unpin == Unpin(old(cache.AutopostMessageId(chatId)))
    ensures cache.payload == RecordedPayload(old(cache.payload), chatId, CleanTitle(currentTitle), sentId)
    ensures newTitle == ChatTitle(emoji, ReconciledTitle(old(cache.payload), CleanTitle(currentTitle)))
    ensures cache.persisted == (if Written(old(cache.payload), CleanTitle(currentTitle), sentId) then cache.payload else old(cache.persisted))
    ensures cache.cachedResult == old(cache.cachedResult)
    ensures cache.autopostSignal == old(cache.autopostSignal) && cache.eventRegistered == old(cache.eventRegistered)
  {
    var previous := cache.AutopostMessageId(chatId);
    unpin := Unpin(previous);
    var cleaned := CleanTitle(currentTitle);
    var (orig, write) := ReconcileOriginal(cache.OriginalChatTitle(), cleaned);
    if write {
      cache.SetOriginalChatTitle(Some(orig));
    }
    newTitle := ChatTitle(emoji, orig);
    if sentId.Some? {
      cache.SetAutopostMessageId(chatId, sentId);
    }
  }
}
