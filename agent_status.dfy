/**
 * useAgentStatus.formatDuration (src/hooks/useRealTimeFeatures.js:94-103):
 * the agent's time in the current status as "h:mm:ss", or "m:ss" under an hour.
 */
module AgentStatus {
  import opened JsText

  /** `formatDuration(seconds)` */
  function FormatDuration(seconds: nat): string {
    var hours := seconds / 3600;
    var minutes := (seconds % 3600) / 60;
    var secs := seconds % 60;
    if hours > 0 then NatToString(hours) + ":" + PadStart2(NatToString(minutes)) + ":" + PadStart2(NatToString(secs))
    else NatToString(minutes) + ":" + PadStart2(NatToString(secs))
  }

  /**
   * Reads back exactly the texts `formatDuration` prints: "m:ss" with m < 60,
   * or "h:mm:ss" with h > 0 and mm < 60; the first field is written as `${n}`
   * writes it (no leading zero), and the seconds, below 60, and the minutes
   * after hours are two digits.
   */
  function ParseDuration(text: string): Option<nat> {
    match SplitFirst(text, ':')
    case None => None
    case Some(a) =>
      match SplitFirst(a.1, ':')
      case None =>
        (match ParseCanonicalNat(a.0)
         case None => None
         case Some(m) => ParseFields(0, m, a.1))
      case Some(b) =>
        if |b.0| != 2 then None
        else match (ParseCanonicalNat(a.0), ParseNat(b.0))
          case (Some(h), Some(m)) => if h > 0 then ParseFields(h, m, b.1) else None
          case _ => None
  }

  /** The value of hours, minutes and a two-digit seconds field, both fields below 60. */
  function ParseFields(hours: nat, minutes: nat, secs: string): Option<nat> {
    if |secs| != 2 || minutes >= 60 then None
    else match ParseNat(secs)
      case Some(s) => if s < 60 then Some(hours * 3600 + minutes * 60 + s) else None
      case None => None
  }

  lemma NoColonInNumber(n: nat)
    ensures ':' !in NatToString(n)
  {
    var s := NatToString(n);
    forall i | 0 <= i < |s| ensures s[i] != ':' { assert IsDigit(s[i]); }
  }

  lemma NoColonInPadded(n: nat)
    requires n < 100
    ensures ':' !in PadStart2(NatToString(n))
  {
    PadStart2OfSmall(n);
    var p := PadStart2(NatToString(n));
    assert ParseNat(p).Some?;
    forall i | 0 <= i < |p| ensures p[i] != ':' { assert IsDigit(p[i]); }
  }

  /** The text names the exact number of seconds: nothing is rounded, and every field after the first is two digits. */
  lemma FormatDurationRoundTrip(seconds: nat)
    ensures ParseDuration(FormatDuration(seconds)) == Some(seconds)
  {
    var hours, minutes, secs := DurationFields(seconds);
    if hours > 0 {
      assert FormatDuration(seconds) == NatToString(hours) + ":" + PadStart2(NatToString(minutes)) + ":" + PadStart2(NatToString(secs));
      WithHoursRoundTrip(hours, minutes, secs);
    } else {
      assert FormatDuration(seconds) == NatToString(minutes) + ":" + PadStart2(NatToString(secs));
      assert seconds == minutes * 60 + secs;
      WithoutHoursRoundTrip(minutes, secs);
    }
  }

  /** The three numbers `formatDuration` prints, and how they make up `seconds`. */
  lemma DurationFields(seconds: nat) returns (hours: nat, minutes: nat, secs: nat)
    ensures hours == seconds / 3600 && minutes == (seconds % 3600) / 60 && secs == seconds % 60
    ensures minutes < 60 && secs < 60
    ensures seconds == hours * 3600 + minutes * 60 + secs
  {
    hours, minutes, secs := seconds / 3600, (seconds % 3600) / 60, seconds % 60;
  }

  lemma WithHoursRoundTrip(hours: nat, minutes: nat, secs: nat)
    requires hours > 0 && minutes < 60 && secs < 60
    ensures ParseDuration(NatToString(hours) + ":" + PadStart2(NatToString(minutes)) + ":" + PadStart2(NatToString(secs)))
            == Some(hours * 3600 + minutes * 60 + secs)
  {
    PadStart2OfSmall(minutes);
    PadStart2OfSmall(secs);
    NoColonInPadded(minutes);
    NoColonInPadded(secs);
    CanonicalNatOfNatToString(hours);
    NoColonInNumber(hours);
    HoursTextParses(NatToString(hours), PadStart2(NatToString(minutes)), PadStart2(NatToString(secs)), hours, minutes, secs);
  }

  lemma HoursTextParses(h: string, mm: string, ss: string, hours: nat, minutes: nat, secs: nat)
    requires ':' !in h && ':' !in mm && ':' !in ss && |mm| == 2 && |ss| == 2
    requires ParseCanonicalNat(h) == Some(hours) && ParseNat(mm) == Some(minutes) && ParseNat(ss) == Some(secs)
    requires hours > 0 && minutes < 60 && secs < 60
    ensures ParseDuration(h + ":" + mm + ":" + ss) == Some(hours * 3600 + minutes * 60 + secs)
  {
    HoursFieldsParse(h, mm, ss, hours, minutes);
    FieldsParse(hours, minutes, ss, secs);
  }

  lemma FieldsParse(hours: nat, minutes: nat, ss: string, secs: nat)
    requires |ss| == 2 && ParseNat(ss) == Some(secs) && minutes < 60 && secs < 60
    ensures ParseFields(hours, minutes, ss) == Some(hours * 3600 + minutes * 60 + secs)
  {
  }

  lemma WithoutHoursRoundTrip(minutes: nat, secs: nat)
    requires minutes < 60 && secs < 60
    ensures ParseDuration(NatToString(minutes) + ":" + PadStart2(NatToString(secs))) == Some(minutes * 60 + secs)
  {
    PadStart2OfSmall(secs);
    NoColonInPadded(secs);
    CanonicalNatOfNatToString(minutes);
    NoColonInNumber(minutes);
    MinutesTextParses(NatToString(minutes), PadStart2(NatToString(secs)), minutes, secs);
  }

  lemma MinutesTextParses(m: string, ss: string, minutes: nat, secs: nat)
    requires ':' !in m && ':' !in ss && |ss| == 2
    requires ParseCanonicalNat(m) == Some(minutes) && ParseNat(ss) == Some(secs)
    requires minutes < 60 && secs < 60
    ensures ParseDuration(m + ":" + ss) == Some(minutes * 60 + secs)
  {
    MinutesFieldsParse(m, ss, minutes);
    FieldsParse(0, minutes, ss, secs);
  }

  lemma HoursFieldsParse(h: string, mm: string, ss: string, hours: nat, minutes: nat)
    requires ':' !in h && ':' !in mm && ':' !in ss && |mm| == 2
    requires ParseCanonicalNat(h) == Some(hours) && ParseNat(mm) == Some(minutes) && hours > 0
    ensures ParseDuration(h + ":" + mm + ":" + ss) == ParseFields(hours, minutes, ss)
  {
    var rest := mm + ":" + ss;
    assert h + ":" + mm + ":" + ss == h + [':'] + rest;
    SplitFirstOfJoin(h, ':', rest);
    assert rest == mm + [':'] + ss;
    SplitFirstOfJoin(mm, ':', ss);
  }

  lemma MinutesFieldsParse(m: string, ss: string, minutes: nat)
    requires ':' !in m && ':' !in ss && ParseCanonicalNat(m) == Some(minutes)
    ensures ParseDuration(m + ":" + ss) == ParseFields(0, minutes, ss)
  {
    assert m + ":" + ss == m + [':'] + ss;
    SplitFirstOfJoin(m, ':', ss);
  }

  /** Every text the reader accepts is the one `formatDuration` prints for its value. */
  lemma ParsedDurationIsFormatted(text: string)
    requires ParseDuration(text).Some?
    ensures FormatDuration(ParseDuration(text).value) == text
  {
    var a := SplitFirst(text, ':').value;
    if ':' in a.1 {
      ThreeFieldsAreFormatted(text);
    } else {
      TwoFieldsAreFormatted(text);
    }
  }

  /** The reader accepts a text for `seconds` exactly when it is the text `formatDuration` prints. */
  lemma DurationTextIsUnique(seconds: nat, text: string)
    ensures ParseDuration(text) == Some(seconds) <==> text == FormatDuration(seconds)
  {
    FormatDurationRoundTrip(seconds);
    if ParseDuration(text) == Some(seconds) {
      ParsedDurationIsFormatted(text);
    }
  }

  /** A seconds field past 59 is refused, as in "1:75". */
  lemma SecondsPast59Rejected(m: string, ss: string)
    requires ':' !in m && ':' !in ss
    requires ParseNat(ss).Some? && ParseNat(ss).value >= 60
    ensures ParseDuration(m + ":" + ss) == None
  {
    assert m + ":" + ss == m + [':'] + ss;
    SplitFirstOfJoin(m, ':', ss);
  }

  /** An hours field of zero is refused, as in "0:00:59": under an hour the text is "m:ss". */
  lemma ZeroHoursRejected(h: string, mm: string, ss: string)
    requires ':' !in h && ':' !in mm && ParseCanonicalNat(h) == Some(0)
    ensures ParseDuration(h + ":" + mm + ":" + ss) == None
  {
    var rest := mm + ":" + ss;
    assert h + ":" + mm + ":" + ss == h + [':'] + rest;
    SplitFirstOfJoin(h, ':', rest);
    assert rest == mm + [':'] + ss;
    SplitFirstOfJoin(mm, ':', ss);
  }

  /** A first field with a leading zero is refused, as in "00:59". */
  lemma PaddedFirstFieldRejected(first: string, rest: string)
    requires ':' !in first && |first| >= 2 && first[0] == '0'
    ensures ParseDuration(first + ":" + rest) == None
  {
    assert first + ":" + rest == first + [':'] + rest;
    SplitFirstOfJoin(first, ':', rest);
  }

  lemma TwoFieldsAreFormatted(text: string)
    requires ParseDuration(text).Some? && ':' !in SplitFirst(text, ':').value.1
    ensures FormatDuration(ParseDuration(text).value) == text
  {
    var a := SplitFirst(text, ':').value;
    var minutes, secs := ParseCanonicalNat(a.0).value, ParseNat(a.1).value;
    assert ParseDuration(text) == Some(minutes * 60 + secs);
    MinutesTextIsFormatted(a.0, a.1, minutes, secs);
    Rejoin(text, a.0, a.1);
  }

  lemma ThreeFieldsAreFormatted(text: string)
    requires ParseDuration(text).Some? && ':' in SplitFirst(text, ':').value.1
    ensures FormatDuration(ParseDuration(text).value) == text
  {
    var h, mm, ss, hours, minutes, secs := ThreeFieldsOf(text);
    HoursTextIsFormatted(text, h, mm, ss, hours, minutes, secs, ParseDuration(text).value);
  }

  /** The three fields of an accepted "h:mm:ss" text and their values. */
  lemma ThreeFieldsOf(text: string) returns (h: string, mm: string, ss: string, hours: nat, minutes: nat, secs: nat)
    requires ParseDuration(text).Some? && ':' in SplitFirst(text, ':').value.1
    ensures text == h + ":" + mm + ":" + ss
    ensures ParseDuration(text) == Some(hours * 3600 + minutes * 60 + secs)
    ensures ParseCanonicalNat(h) == Some(hours) && hours > 0
    ensures |mm| == 2 && ParseNat(mm) == Some(minutes) && minutes < 60
    ensures |ss| == 2 && ParseNat(ss) == Some(secs) && secs < 60
  {
    var a := SplitFirst(text, ':').value;
    var b := SplitFirst(a.1, ':').value;
    h, mm, ss := a.0, b.0, b.1;
    hours, minutes, secs := ParseCanonicalNat(a.0).value, ParseNat(b.0).value, ParseNat(b.1).value;
    RejoinThree(text, a.0, a.1, b.0, b.1);
  }

  /** A text split at two colons is the three parts joined by colons. */
  lemma RejoinThree(text: string, first: string, rest: string, second: string, third: string)
    requires text == first + [':'] + rest && rest == second + [':'] + third
    ensures text == first + ":" + second + ":" + third
  {
  }

  /** A text split at a colon is the two parts joined by that colon. */
  lemma Rejoin(text: string, left: string, right: string)
    requires text == left + [':'] + right
    ensures text == left + ":" + right
  {
  }

  lemma HoursTextIsFormatted(text: string, h: string, mm: string, ss: string, hours: nat, minutes: nat, secs: nat, n: nat)
    requires text == h + ":" + mm + ":" + ss && n == hours * 3600 + minutes * 60 + secs
    requires ParseCanonicalNat(h) == Some(hours) && hours > 0
    requires |mm| == 2 && ParseNat(mm) == Some(minutes) && minutes < 60
    requires |ss| == 2 && ParseNat(ss) == Some(secs) && secs < 60
    ensures FormatDuration(n) == text
  {
    CanonicalNatIsNatToString(h);
    PaddedFieldIsPadStart2(mm);
    PaddedFieldIsPadStart2(ss);
    var q, r, t := FieldsOf(hours, minutes, secs);
  }

  lemma MinutesTextIsFormatted(m: string, ss: string, minutes: nat, secs: nat)
    requires ParseCanonicalNat(m) == Some(minutes) && minutes < 60
    requires |ss| == 2 && ParseNat(ss) == Some(secs) && secs < 60
    ensures FormatDuration(minutes * 60 + secs) == m + ":" + ss
  {
    CanonicalNatIsNatToString(m);
    PaddedFieldIsPadStart2(ss);
    var q, r, t := FieldsOf(0, minutes, secs);
  }

  /** The fields `formatDuration` computes from `hours * 3600 + minutes * 60 + secs` are those three numbers. */
  lemma FieldsOf(hours: nat, minutes: nat, secs: nat) returns (h: nat, m: nat, s: nat)
    requires minutes < 60 && secs < 60
    ensures var n := hours * 3600 + minutes * 60 + secs;
            h == hours && m == minutes && s == secs &&
            n / 3600 == h && (n % 3600) / 60 == m && n % 60 == s
  {
    var n := hours * 3600 + minutes * 60 + secs;
    h, m, s := DurationFields(n);
    assert minutes * 60 + secs < 3600;
  }

  /** 59 seconds reads "0:59"; an hour, a minute and a second read "1:01:01". */
  lemma FormatDurationUnderAnHour()
    ensures FormatDuration(59) == "0:59"
  {
    assert 59 / 3600 == 0 && (59 % 3600) / 60 == 0 && 59 % 60 == 59;
    assert FormatDuration(59) == NatToString(0) + ":" + PadStart2(NatToString(59));
    assert DigitChar(0) == '0' && NatToString(0) == "0";
    assert DigitChar(5) == '5' && DigitChar(9) == '9';
    assert NatToString(59) == "59";
    assert PadStart2("59") == "59";
  }

  lemma FormatDurationOverAnHour()
    ensures FormatDuration(3661) == "1:01:01"
  {
    assert 3661 / 3600 == 1 && (3661 % 3600) / 60 == 1 && 3661 % 60 == 1;
    assert DigitChar(1) == '1';
    assert NatToString(1) == "1";
    assert PadStart2("1") == "01";
  }
}
