/** The two time renderings of the app: `formatPlayTime` (listening totals,
    copied into the regression, parametrized and unit suites) and
    `formatDuration` (player position, regression suite). Inputs are
    non-negative: Kotlin's `/` and `%` truncate toward zero while Dafny's are
    Euclidean, and the two agree only there. */
module Format {
  import opened Seqs
  import opened Text

  const MsPerSecond := 1000
  const MsPerMinute := 60000
  const MsPerHour := 3600000

  /** `formatPlayTime`: hours and minutes are both taken from the total by
      integer division, so the text shows the whole minutes of the total,
      split into hours and minutes below 60, and drops the seconds. */
  function FormatPlayTime(timeInMs: int): (r: string)
    requires timeInMs >= 0
    ensures timeInMs < MsPerMinute ==> r == "< 1m"
    ensures MsPerMinute <= timeInMs < MsPerHour ==> r == NatToString(timeInMs / MsPerMinute) + "m"
    ensures MsPerHour <= timeInMs ==>
      r == NatToString(timeInMs / MsPerMinute / 60) + "h " + NatToString(timeInMs / MsPerMinute % 60) + "m"
  {
    var hours := timeInMs / MsPerHour;
    var minutes := (timeInMs % MsPerHour) / MsPerMinute;
    HoursAndMinutes(timeInMs);
    if hours > 0 then NatToString(hours) + "h " + NatToString(minutes) + "m"
    else if minutes > 0 then NatToString(minutes) + "m"
    else "< 1m"
  }

  /** Splitting the total at the hour and then at the minute gives the whole
      minutes of the total, split at 60. */
  lemma {:induction false} HoursAndMinutes(ms: nat)
    ensures ms / MsPerHour == ms / MsPerMinute / 60
    ensures ms % MsPerHour / MsPerMinute == ms / MsPerMinute % 60
  {
    var m, sec := ms / MsPerMinute, ms % MsPerMinute;
    var h, min := m / 60, m % 60;
    assert ms == MsPerHour * h + (MsPerMinute * min + sec);
    assert 0 <= MsPerMinute * min + sec < MsPerHour;
    DivModUnique(ms, MsPerHour, h, MsPerMinute * min + sec);
    DivModUnique(MsPerMinute * min + sec, MsPerMinute, min, sec);
  }

  lemma {:induction false} DivModUnique(a: int, d: int, q: int, r: int)
    requires d > 0 && 0 <= r < d && a == d * q + r
    ensures a / d == q && a % d == r
  {
    var k := a / d - q;
    assert d * k == r - a % d;
    assert k >= 1 ==> d * k >= d;
    assert k <= -1 ==> d * k <= -d;
  }

  /** The minutes shown in the hour form are below 60. */
  lemma {:induction false} PlayTimeMinutesBelowSixty(timeInMs: nat)
    requires timeInMs >= MsPerHour
    ensures exists h: nat, m: nat ::
      m < 60 && FormatPlayTime(timeInMs) == NatToString(h) + "h " + NatToString(m) + "m"
  {
    var m := timeInMs / MsPerMinute;
    assert FormatPlayTime(timeInMs) == NatToString(m / 60) + "h " + NatToString(m % 60) + "m";
  }

  /** Which of the three forms `formatPlayTime` takes: the hour form (the
      only one with an 'h') exactly from one hour up, the bare minute form
      exactly from one minute up to below an hour, and "< 1m" below that. */
  lemma {:induction false} PlayTimeForms(timeInMs: nat)
    ensures 'h' in FormatPlayTime(timeInMs) <==> timeInMs >= MsPerHour
    ensures FormatPlayTime(timeInMs) == "< 1m" <==> timeInMs < MsPerMinute
    ensures FormatPlayTime(timeInMs)[|FormatPlayTime(timeInMs)| - 1] == 'm'
  {
    var s := FormatPlayTime(timeInMs);
    var m := timeInMs / MsPerMinute;
    if timeInMs < MsPerMinute {
      assert s == "< 1m";
    } else if timeInMs < MsPerHour {
      var digits := NatToString(m);
      assert s == digits + "m";
      assert s[0] == digits[0] && IsDigit(s[0]);
      forall j | 0 <= j < |s| ensures s[j] != 'h' {
        if j < |digits| {
          assert s[j] == digits[j] && IsDigit(digits[j]);
        }
      }
    } else {
      var hs := NatToString(m / 60);
      assert s == hs + "h " + NatToString(m % 60) + "m";
      assert s[|hs|] == 'h';
      assert s[0] == hs[0] && IsDigit(s[0]);
    }
  }

  predicate AllDigits(s: string)
  {
    forall i :: 0 <= i < |s| ==> IsDigit(s[i])
  }

  /** Reads a `formatPlayTime` text back as a number of whole minutes. */
  function ParsePlayTime(s: string): Option<nat>
  {
    if s == "< 1m" then Some(0)
    else if |s| < 2 || s[|s| - 1] != 'm' then None
    else ParseMinutes(s[..|s| - 1])
  }

  /** The text before the final 'm': either whole minutes, or hours, "h ",
      and minutes. */
  function ParseMinutes(body: string): Option<nat>
  {
    var h := IndexOf(body, 'h');
    if h == |body| then
      if AllDigits(body) then Some(ParseNat(body)) else None
    else if h + 1 < |body| && body[h + 1] == ' ' && AllDigits(body[..h]) && AllDigits(body[h + 2..]) then
      Some(ParseNat(body[..h]) * 60 + ParseNat(body[h + 2..]))
    else None
  }

  /** `formatPlayTime` loses exactly the seconds: reading its text back gives
      the whole minutes of the input. */
  lemma {:induction false} FormatPlayTimeRoundTrip(timeInMs: nat)
    ensures ParsePlayTime(FormatPlayTime(timeInMs)) == Some(timeInMs / MsPerMinute)
  {
    if timeInMs < MsPerMinute {
    } else if timeInMs < MsPerHour {
      MinuteFormRoundTrip(timeInMs);
    } else {
      HourFormRoundTrip(timeInMs);
    }
  }

  lemma {:induction false} MinuteFormRoundTrip(timeInMs: nat)
    requires MsPerMinute <= timeInMs < MsPerHour
    ensures ParsePlayTime(FormatPlayTime(timeInMs)) == Some(timeInMs / MsPerMinute)
  {
    var m := timeInMs / MsPerMinute;
    ParseMinuteForm(NatToString(m));
    ParseNatToString(m);
  }

  lemma {:induction false} HourFormRoundTrip(timeInMs: nat)
    requires MsPerHour <= timeInMs
    ensures ParsePlayTime(FormatPlayTime(timeInMs)) == Some(timeInMs / MsPerMinute)
  {
    var m := timeInMs / MsPerMinute;
    HourFormOf(m / 60, m % 60);
    SplitMinutes(m);
  }

  /** The hour form of `h` hours and `m` minutes reads back as `h * 60 + m`. */
  lemma {:induction false} HourFormOf(h: nat, m: nat)
    ensures ParsePlayTime(NatToString(h) + "h " + NatToString(m) + "m") == Some(h * 60 + m)
  {
    ParseHourForm(NatToString(h), NatToString(m));
    ParseNatToString(h);
    ParseNatToString(m);
  }

  /** Whole hours and the remaining minutes add back up. */
  lemma SplitMinutes(m: nat)
    ensures m / 60 * 60 + m % 60 == m
  {
  }

  /** The minute form reads back as its number. */
  lemma {:induction false} ParseMinuteForm(digits: string)
    requires |digits| >= 1 && AllDigits(digits)
    ensures ParsePlayTime(digits + "m") == Some(ParseNat(digits))
  {
    var s := digits + "m";
    assert s != "< 1m" by { assert IsDigit(s[0]); }
    assert s[..|s| - 1] == digits;
    assert 'h' !in digits by { assert forall j :: 0 <= j < |digits| ==> IsDigit(digits[j]); }
  }

  /** The hour form reads back as hours times 60 plus minutes. */
  lemma {:induction false} ParseHourForm(hs: string, ms: string)
    requires |hs| >= 1 && AllDigits(hs) && AllDigits(ms)
    ensures ParsePlayTime(hs + "h " + ms + "m") == Some(ParseNat(hs) * 60 + ParseNat(ms))
  {
    var s := hs + "h " + ms + "m";
    assert s != "< 1m" by { assert IsDigit(s[0]); }
    assert s[..|s| - 1] == hs + ['h'] + ([' '] + ms);
    ParseHoursBody(hs, ms);
  }

  lemma {:induction false} ParseHoursBody(hs: string, ms: string)
    requires AllDigits(hs) && AllDigits(ms)
    ensures ParseMinutes(hs + ['h'] + ([' '] + ms)) == Some(ParseNat(hs) * 60 + ParseNat(ms))
  {
    var body := hs + ['h'] + ([' '] + ms);
    assert 'h' !in hs by { assert forall j :: 0 <= j < |hs| ==> IsDigit(hs[j]); }
    IndexOfSplit(hs, 'h', [' '] + ms);
    assert body[|hs| + 1] == ' ';
    assert body[..|hs|] == hs;
    assert body[|hs| + 2..] == ms;
    ParseMinutesHourCase(body, |hs|);
  }

  /** The hour case of `ParseMinutes`, once the 'h' is found. */
  lemma {:induction false} ParseMinutesHourCase(body: string, h: nat)
    requires h == IndexOf(body, 'h') && h + 1 < |body| && body[h + 1] == ' '
    requires AllDigits(body[..h]) && AllDigits(body[h + 2..])
    ensures ParseMinutes(body) == Some(ParseNat(body[..h]) * 60 + ParseNat(body[h + 2..]))
  {
  }

  /** `%02d` for a number below 100. */
  function PadTwo(n: nat): (r: string)
    requires n < 100
    ensures |r| == 2 && AllDigits(r)
    ensures ParseNat(r) == n
  {
    if n < 10 then
      var r := ['0', DigitChar(n)];
      assert r[..1] == ['0'] && ['0'][..0] == [];
      assert ParseNat(['0']) == 0;
      assert ParseNat(r) == ParseNat(r[..1]) * 10 + DigitValue(r[1]);
      r
    else
      ParseNatToString(n);
      NatToString(n)
  }

  /** `formatDuration`: `"%d:%02d"` of the whole minutes and the remaining
      whole seconds. */
  function FormatDuration(duration: int): (r: string)
    requires duration >= 0
    ensures |r| >= 4 && r[|r| - 3] == ':' && AllDigits(r[|r| - 2..])
    ensures AllDigits(r[..|r| - 3])
    ensures r[..|r| - 3] == NatToString(duration / MsPerSecond / 60)
    ensures ParseNat(r[..|r| - 3]) == duration / MsPerSecond / 60
    ensures ParseNat(r[|r| - 2..]) == duration / MsPerSecond % 60 < 60
  {
    var totalSeconds := duration / MsPerSecond;
    var minutes := totalSeconds / 60;
    var seconds := totalSeconds % 60;
    var r := NatToString(minutes) + ":" + PadTwo(seconds);
    assert r[..|r| - 3] == NatToString(minutes);
    assert r[|r| - 2..] == PadTwo(seconds);
    ParseNatToString(minutes);
    r
  }

  /** Reads a `formatDuration` text back as a number of whole seconds. */
  function ParseDuration(s: string): Option<nat>
  {
    var i := IndexOf(s, ':');
    if i < |s| && AllDigits(s[..i]) && AllDigits(s[i + 1..]) then
      Some(ParseNat(s[..i]) * 60 + ParseNat(s[i + 1..]))
    else None
  }

  /** `formatDuration` keeps every whole second of the input. */
  lemma {:induction false} FormatDurationRoundTrip(duration: nat)
    ensures ParseDuration(FormatDuration(duration)) == Some(duration / MsPerSecond)
  {
    var total := duration / MsPerSecond;
    var ms, ss := NatToString(total / 60), PadTwo(total % 60);
    var s := FormatDuration(duration);
    assert s == ms + [':'] + ss;
    assert IndexOf(s, ':') == |ms| by {
      assert s[|ms|] == ':';
      forall j | 0 <= j < |ms| ensures s[j] != ':' {
        assert s[j] == ms[j] && IsDigit(ms[j]);
      }
    }
    assert s[..|ms|] == ms;
    assert s[|ms| + 1..] == ss;
    ParseNatToString(total / 60);
  }
}
