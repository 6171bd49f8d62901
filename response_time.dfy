/**
 * useResponseTime (src/hooks/useRealTimeFeatures.js:159-214): one timer per
 * chat, started and stopped by the agent, and a formatter for durations.
 * `Date.now()` is the parameter `now`.
 */
module ResponseTime {
  import opened JsText

  /**
   * A chat's entry in `responseTimes`. `startTimer` writes only the first two
   * fields; `stopTimer` adds the other two.
   */
  datatype Timer = Timer(startTime: int, isActive: bool, lastResponseTime: Option<int>, averageResponseTime: Option<real>)

  /** A number is truthy unless it is missing or zero. */
  predicate Truthy(v: Option<real>) {
    v.Some? && v.value != 0.0
  }

  /** `startTimer(chatId)`: the entry becomes exactly `{ startTime: now, isActive: true }`. */
  function StartedTimers(timers: map<string, Timer>, chatId: string, now: int): map<string, Timer> {
    timers[chatId := Timer(now, true, None, None)]
  }

  /** The entry `stopTimer` writes for an active timer. */
  function StoppedTimer(timer: Timer, now: int): Timer {
    var responseTime := now - timer.startTime;
    timer.(isActive := false,
           lastResponseTime := Some(responseTime),
           averageResponseTime := Some(if Truthy(timer.averageResponseTime)
                                       then (timer.averageResponseTime.value + responseTime as real) / 2.0
                                       else responseTime as real))
  }

  /** `stopTimer(chatId)`: a missing or inactive timer leaves the map as it is. */
  function StoppedTimers(timers: map<string, Timer>, chatId: string, now: int): map<string, Timer> {
    if chatId !in timers || !timers[chatId].isActive then timers
    else timers[chatId := StoppedTimer(timers[chatId], now)]
  }

  /** `getAverageResponseTime(chatId)`: `timer?.averageResponseTime || 0`. */
  function AverageResponseTime(timers: map<string, Timer>, chatId: string): real {
    if chatId in timers && Truthy(timers[chatId].averageResponseTime) then timers[chatId].averageResponseTime.value else 0.0
  }

  class ResponseTimeTracker {
    var responseTimes: map<string, Timer>

    constructor ()
      ensures responseTimes == map[]
    {
      responseTimes := map[];
    }

    method StartTimer(chatId: string, now: int)
      modifies this
      ensures responseTimes == StartedTimers(old(responseTimes), chatId, now)
    {
      responseTimes := responseTimes[chatId := Timer(now, true, None, None)];
    }

    method StopTimer(chatId: string, now: int)
      modifies this
      ensures responseTimes == StoppedTimers(old(responseTimes), chatId, now)
    {
      if chatId in responseTimes {
        var timer := responseTimes[chatId];
        if timer.isActive {
          var responseTime := now - timer.startTime;
          var average := if Truthy(timer.averageResponseTime)
                         then (timer.averageResponseTime.value + responseTime as real) / 2.0
                         else responseTime as real;
          responseTimes := responseTimes[chatId := timer.(isActive := false,
                                                          lastResponseTime := Some(responseTime),
                                                          averageResponseTime := Some(average))];
        }
      }
    }

    function GetAverageResponseTime(chatId: string): real
      reads this
    {
      AverageResponseTime(responseTimes, chatId)
    }
  }

  // ---------------------------------------------------------------------------
  // Properties of start and stop
  // ---------------------------------------------------------------------------

  /** Stopping changes nothing exactly when the chat has no timer or its timer is not running. */
  lemma StopTimerNoOpIff(timers: map<string, Timer>, chatId: string, now: int)
    ensures StoppedTimers(timers, chatId, now) == timers <==> (chatId !in timers || !timers[chatId].isActive)
  {
    if chatId in timers && timers[chatId].isActive {
      assert !StoppedTimers(timers, chatId, now)[chatId].isActive;
    }
  }

  /** Starting or stopping one chat's timer leaves every other chat's entry as it was. */
  lemma OtherTimersUnchanged(timers: map<string, Timer>, chatId: string, other: string, now: int)
    requires other != chatId
    ensures other in StartedTimers(timers, chatId, now) <==> other in timers
    ensures other in StoppedTimers(timers, chatId, now) <==> other in timers
    ensures other in timers ==> StartedTimers(timers, chatId, now)[other] == timers[other]
    ensures other in timers ==> StoppedTimers(timers, chatId, now)[other] == timers[other]
  {
  }

  /**
   * Stopping a running timer: it stops, records `now - startTime`, and the
   * average becomes the mean of the old average and this duration when the old
   * average is non-zero, else this duration.
   */
  lemma StopRunningTimer(timers: map<string, Timer>, chatId: string, now: int)
    requires chatId in timers && timers[chatId].isActive
    ensures var t := StoppedTimers(timers, chatId, now)[chatId];
            var old_ := timers[chatId];
            && !t.isActive && t.startTime == old_.startTime
            && t.lastResponseTime == Some(now - old_.startTime)
            && (Truthy(old_.averageResponseTime) ==>
                  t.averageResponseTime.value * 2.0 == old_.averageResponseTime.value + (now - old_.startTime) as real)
            && (!Truthy(old_.averageResponseTime) ==> t.averageResponseTime == Some((now - old_.startTime) as real))
  {
  }

  /** The reported average is zero exactly when the chat has no timer or no non-zero average. */
  lemma AverageZeroIff(timers: map<string, Timer>, chatId: string)
    ensures AverageResponseTime(timers, chatId) == 0.0 <==> (chatId !in timers || !Truthy(timers[chatId].averageResponseTime))
  {
  }

  /**
   * The shape of every entry start and stop produce: a running timer has no
   * measurements (start drops them), and a stopped one has an average equal to
   * its last duration.
   */
  ghost predicate OnlyLastIsAveraged(timers: map<string, Timer>) {
    forall id | id in timers ::
      if timers[id].isActive then timers[id].lastResponseTime.None? && timers[id].averageResponseTime.None?
      else timers[id].lastResponseTime.Some? && timers[id].averageResponseTime == Some(timers[id].lastResponseTime.value as real)
  }

  lemma StartKeepsOnlyLastIsAveraged(timers: map<string, Timer>, chatId: string, now: int)
    requires OnlyLastIsAveraged(timers)
    ensures OnlyLastIsAveraged(StartedTimers(timers, chatId, now))
  {
  }

  lemma StopKeepsOnlyLastIsAveraged(timers: map<string, Timer>, chatId: string, now: int)
    requires OnlyLastIsAveraged(timers)
    ensures OnlyLastIsAveraged(StoppedTimers(timers, chatId, now))
  {
    if chatId in timers && timers[chatId].isActive {
      assert !Truthy(timers[chatId].averageResponseTime);
    }
  }

  /**
   * So, from the empty map, `stopTimer` never takes the halving branch: the
   * average it reports is the duration of the latest start-stop cycle alone.
   */
  lemma AverageIsLatestDuration(timers: map<string, Timer>, chatId: string, now: int)
    requires OnlyLastIsAveraged(timers)
    requires chatId in timers && timers[chatId].isActive
    ensures AverageResponseTime(StoppedTimers(timers, chatId, now), chatId) == (now - timers[chatId].startTime) as real
  {
  }

  /** Two cycles of 2000 ms and then 4000 ms: the average reported after the second is 4000, not 3000. */
  lemma TwoCyclesReportLatest()
    ensures var t1 := StoppedTimers(StartedTimers(map[], "c1", 0), "c1", 2000);
            var t2 := StoppedTimers(StartedTimers(t1, "c1", 10000), "c1", 14000);
            AverageResponseTime(t1, "c1") == 2000.0 && AverageResponseTime(t2, "c1") == 4000.0
  {
  }

  // ---------------------------------------------------------------------------
  // formatResponseTime
  // ---------------------------------------------------------------------------

  /** `formatResponseTime(milliseconds)`: whole seconds, as "{m}m {s}s" from one minute on. */
  function FormatResponseTime(milliseconds: real): string {
    FormatSeconds((milliseconds / 1000.0).Floor)
  }

  function FormatSeconds(seconds: int): string {
    var minutes := seconds / 60;
    if minutes > 0 then IntToString(minutes) + "m " + IntToString(seconds % 60) + "s"
    else IntToString(seconds) + "s"
  }

  /**
   * Reads back exactly the texts `formatResponseTime` prints: "{s}s" with
   * s < 60, or "{m}m {s}s" with m > 0 and s < 60, each number written as
   * `${n}` writes it (no sign, no leading zero).
   */
  function ParseResponseTime(text: string): Option<int> {
    if text == [] || text[|text| - 1] != 's' then None else ParseSecondsBody(text[..|text| - 1])
  }

  function ParseSecondsBody(body: string): Option<int> {
    match SplitFirst(body, 'm')
    case None =>
      (match ParseCanonicalNat(body)
       case Some(s) => if s < 60 then Some(s) else None
       case None => None)
    case Some(parts) =>
      if parts.1 == [] || parts.1[0] != ' ' then None
      else match (ParseCanonicalNat(parts.0), ParseCanonicalNat(parts.1[1..]))
        case (Some(m), Some(s)) => if m > 0 && s < 60 then Some(m * 60 + s) else None
        case _ => None
  }

  /** For a non-negative duration the text carries exactly the whole seconds: the fraction is truncated, never rounded. */
  lemma FormatResponseTimeRoundTrip(milliseconds: real)
    requires milliseconds >= 0.0
    ensures ParseResponseTime(FormatResponseTime(milliseconds)) == Some((milliseconds / 1000.0).Floor)
  {
    FormatSecondsRoundTrip((milliseconds / 1000.0).Floor);
  }

  /** Every text the reader accepts is the one `formatResponseTime` prints for its value. */
  lemma ParsedTextIsFormatted(text: string)
    requires ParseResponseTime(text).Some?
    ensures ParseResponseTime(text).value >= 0
    ensures FormatSeconds(ParseResponseTime(text).value) == text
  {
    var body := text[..|text| - 1];
    assert text == body + "s";
    BodyIsFormatted(body);
  }

  lemma BodyIsFormatted(body: string)
    requires ParseSecondsBody(body).Some?
    ensures ParseSecondsBody(body).value >= 0
    ensures FormatSeconds(ParseSecondsBody(body).value) == body + "s"
  {
    if 'm' in body {
      MinutesBodyIsFormatted(body);
    } else {
      SecondsTextIsFormatted(body);
    }
  }

  lemma MinutesBodyIsFormatted(body: string)
    requires 'm' in body && ParseSecondsBody(body).Some?
    ensures ParseSecondsBody(body).value >= 0
    ensures FormatSeconds(ParseSecondsBody(body).value) == body + "s"
  {
    var parts := SplitFirst(body, 'm').value;
    var tail := parts.1[1..];
    var minutes, secs := ParseCanonicalNat(parts.0).value, ParseCanonicalNat(tail).value;
    assert ParseSecondsBody(body) == Some(minutes * 60 + secs);
    MinutesTextIsFormatted(parts.0, tail, minutes, secs);
    RejoinMinutes(parts.0, parts.1);
  }

  lemma RejoinMinutes(m: string, rest: string)
    requires rest != [] && rest[0] == ' '
    ensures m + ['m'] + rest + "s" == m + "m " + rest[1..] + "s"
  {
    assert rest == " " + rest[1..];
  }

  lemma SecondsTextIsFormatted(digits: string)
    requires ParseCanonicalNat(digits).Some? && ParseCanonicalNat(digits).value < 60
    ensures FormatSeconds(ParseCanonicalNat(digits).value) == digits + "s"
  {
    CanonicalNatIsNatToString(digits);
    var minutes, rest := SecondsFields(ParseCanonicalNat(digits).value);
  }

  lemma MinutesTextIsFormatted(m: string, s: string, minutes: nat, secs: nat)
    requires ParseCanonicalNat(m) == Some(minutes) && minutes > 0
    requires ParseCanonicalNat(s) == Some(secs) && secs < 60
    ensures FormatSeconds(minutes * 60 + secs) == m + "m " + s + "s"
  {
    CanonicalNatIsNatToString(m);
    CanonicalNatIsNatToString(s);
    MinutesAndSeconds(minutes, secs);
    var q, r := SecondsFields(minutes * 60 + secs);
  }

  /** The reader accepts a text for `seconds` exactly when it is the text `formatResponseTime` prints. */
  lemma ResponseTextIsUnique(seconds: nat, text: string)
    ensures ParseResponseTime(text) == Some(seconds) <==> text == FormatSeconds(seconds)
  {
    FormatSecondsRoundTrip(seconds);
    if ParseResponseTime(text) == Some(seconds) {
      ParsedTextIsFormatted(text);
    }
  }

  /** A minutes text with no whole minute is refused: under a minute the text is "{s}s". */
  lemma ZeroMinutesRejected()
    ensures ParseResponseTime("0m 59s") == None
  {
    assert "0m 59s"[..5] == "0m 59";
    SplitFirstOfJoin("0", 'm', " 59");
    assert "0" + ['m'] + " 59" == "0m 59";
    assert ParseCanonicalNat("0") == Some(0) by { assert "0"[..0] == []; }
    assert " 59"[1..] == "59";
  }

  /** A minutes text whose seconds run past 59 is refused. */
  lemma MinutesSecondsPast59Rejected()
    ensures ParseResponseTime("1m 75s") == None
  {
    assert "1m 75s"[..5] == "1m 75";
    SplitFirstOfJoin("1", 'm', " 75");
    assert "1" + ['m'] + " 75" == "1m 75";
    assert " 75"[1..] == "75";
    assert ParseNat("75") == Some(75) by { assert "75"[..1] == "7"; assert "7"[..0] == []; }
  }

  /** Seconds texts that are not the printed layout are refused: past 59, or padded. */
  lemma OtherSecondsLayoutsRejected()
    ensures ParseResponseTime("75s") == None
    ensures ParseResponseTime("059s") == None
  {
    assert "75s"[..2] == "75";
    assert SplitFirst("75", 'm') == None;
    assert ParseNat("75") == Some(75) by { assert "75"[..1] == "7"; assert "7"[..0] == []; }
    assert "059s"[..3] == "059";
    assert SplitFirst("059", 'm') == None;
    assert ParseCanonicalNat("059") == None;
  }

  /** The minutes and remaining seconds of `m * 60 + s` are `m` and `s`. */
  lemma MinutesAndSeconds(m: nat, s: nat)
    requires s < 60
    ensures (m * 60 + s) / 60 == m && (m * 60 + s) % 60 == s
  {
  }

  lemma FormatSecondsRoundTrip(seconds: nat)
    ensures ParseResponseTime(FormatSeconds(seconds)) == Some(seconds)
  {
    var minutes, rest := SecondsFields(seconds);
    if minutes > 0 {
      MinutesRoundTrip(minutes, rest);
    } else {
      CanonicalNatOfNatToString(seconds);
      NoLetterInDigits(NatToString(seconds));
      SecondsTextParses(NatToString(seconds), seconds);
    }
  }

  /** The two numbers `formatResponseTime` prints, and how they make up `seconds`. */
  lemma SecondsFields(seconds: nat) returns (minutes: nat, rest: nat)
    ensures minutes == seconds / 60 && rest == seconds % 60 && seconds == minutes * 60 + rest
    ensures FormatSeconds(seconds) == if minutes > 0 then NatToString(minutes) + "m " + NatToString(rest) + "s"
                                      else NatToString(seconds) + "s"
  {
    minutes, rest := seconds / 60, seconds % 60;
  }

  lemma NoLetterInDigits(s: string)
    requires ParseNat(s).Some?
    ensures 'm' !in s
  {
    forall i | 0 <= i < |s| ensures s[i] != 'm' { assert IsDigit(s[i]); }
  }

  lemma SecondsTextParses(s: string, seconds: nat)
    requires ParseCanonicalNat(s) == Some(seconds) && seconds < 60 && 'm' !in s
    ensures ParseResponseTime(s + "s") == Some(seconds)
  {
    var text := s + "s";
    assert text[..|text| - 1] == s;
  }

  lemma MinutesRoundTrip(minutes: nat, rest: nat)
    requires minutes > 0 && rest < 60
    ensures ParseResponseTime(NatToString(minutes) + "m " + NatToString(rest) + "s") == Some(minutes * 60 + rest)
  {
    CanonicalNatOfNatToString(minutes);
    CanonicalNatOfNatToString(rest);
    NoLetterInDigits(NatToString(minutes));
    MinutesTextParses(NatToString(minutes), NatToString(rest), minutes, rest);
  }

  lemma MinutesTextParses(m: string, s: string, minutes: nat, rest: nat)
    requires 'm' !in m && ParseCanonicalNat(m) == Some(minutes) && ParseCanonicalNat(s) == Some(rest)
    requires minutes > 0 && rest < 60
    ensures ParseResponseTime(m + "m " + s + "s") == Some(minutes * 60 + rest)
  {
    var text := m + "m " + s + "s";
    assert text[..|text| - 1] == m + ['m'] + (" " + s);
    MinutesBodyParses(m, s, minutes, rest);
  }

  lemma MinutesBodyParses(m: string, s: string, minutes: nat, rest: nat)
    requires 'm' !in m && ParseCanonicalNat(m) == Some(minutes) && ParseCanonicalNat(s) == Some(rest)
    requires minutes > 0 && rest < 60
    ensures ParseSecondsBody(m + ['m'] + (" " + s)) == Some(minutes * 60 + rest)
  {
    SplitFirstOfJoin(m, 'm', " " + s);
    assert (" " + s)[1..] == s;
  }

  /** 59.999 seconds still reads "59s"; 61.5 seconds reads "1m 1s". */
  lemma FormatResponseTimeTruncates()
    ensures FormatResponseTime(59999.0) == "59s"
    ensures FormatResponseTime(61500.0) == "1m 1s"
  {
    assert (59999.0 / 1000.0).Floor == 59;
    assert (61500.0 / 1000.0).Floor == 61;
  }
}
