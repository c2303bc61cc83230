/** `formatDate` in the notification menu: how long ago a notification was
    created, in the coarsest of four buckets, or the calendar date once it is
    a week old. Time is the difference in milliseconds between now and the
    creation time; the calendar date itself is left to the locale. */
module FormatDate {
  import opened Text

  const MINUTE_MS: nat := 60000
  const HOUR_MS: nat := 3600000
  const DAY_MS: nat := 86400000

  /** What the menu shows: a relative label, or the creation date written
      by `toLocaleDateString`. */
  datatype Shown = Relative(text: string) | LocaleDate

  /** `Math.floor(a / b)` for a positive divisor. */
  function FloorDiv(a: int, b: nat): (q: int)
    requires b > 0
    ensures q * b <= a < q * b + b
  {
    a / b
  }

  function FormatDate(diffMs: int): (r: Shown) {
    var diffMins := FloorDiv(diffMs, MINUTE_MS);
    var diffHours := FloorDiv(diffMs, HOUR_MS);
    var diffDays := FloorDiv(diffMs, DAY_MS);
    if diffMins < 1 then Relative("Just now")
    else if diffMins < 60 then Relative(NatToString(diffMins) + "m ago")
    else if diffHours < 24 then Relative(NatToString(diffHours) + "h ago")
    else if diffDays < 7 then Relative(NatToString(diffDays) + "d ago")
    else LocaleDate
  }

  /** Under a minute, and any time in the future, is "Just now". */
  lemma JustNowUnderAMinute(diffMs: int)
    ensures FormatDate(diffMs) == Relative("Just now") <==> diffMs < MINUTE_MS
  {
    var m := FloorDiv(diffMs, MINUTE_MS);
    if diffMs >= MINUTE_MS {
      assert m >= 1;
      assert FormatDate(diffMs) != Relative("Just now") by {
        if m < 60 {
          assert (NatToString(m) + "m ago")[|NatToString(m)|] == 'm';
        } else {
          var h := FloorDiv(diffMs, HOUR_MS);
          var d := FloorDiv(diffMs, DAY_MS);
          if h < 24 {
            assert h >= 1;
            assert |NatToString(h) + "h ago"| != |"Just now"| || (NatToString(h) + "h ago")[|NatToString(h)|] != "Just now"[|NatToString(h)|];
          } else if d < 7 {
            assert d >= 1;
            assert |NatToString(d) + "d ago"| != |"Just now"| || (NatToString(d) + "d ago")[|NatToString(d)|] != "Just now"[|NatToString(d)|];
          }
        }
      }
    }
  }

  /** One to 59 whole minutes are shown as minutes. */
  lemma MinutesBucket(diffMs: int)
    requires MINUTE_MS <= diffMs < HOUR_MS
    ensures var m := diffMs / MINUTE_MS;
            1 <= m < 60 && FormatDate(diffMs) == Relative(NatToString(m) + "m ago")
  {
    var m := FloorDiv(diffMs, MINUTE_MS);
    assert m < 60;
  }

  /** One to 23 whole hours are shown as hours. */
  lemma HoursBucket(diffMs: int)
    requires HOUR_MS <= diffMs < DAY_MS
    ensures var h := diffMs / HOUR_MS;
            1 <= h < 24 && FormatDate(diffMs) == Relative(NatToString(h) + "h ago")
  {
    var m := FloorDiv(diffMs, MINUTE_MS);
    var h := FloorDiv(diffMs, HOUR_MS);
    assert m >= 60;
    assert h < 24;
  }

  /** One to six whole days are shown as days. */
  lemma DaysBucket(diffMs: int)
    requires DAY_MS <= diffMs < 7 * DAY_MS
    ensures var d := diffMs / DAY_MS;
            1 <= d < 7 && FormatDate(diffMs) == Relative(NatToString(d) + "d ago")
  {
    var m := FloorDiv(diffMs, MINUTE_MS);
    var h := FloorDiv(diffMs, HOUR_MS);
    var d := FloorDiv(diffMs, DAY_MS);
    assert m >= 60;
    assert h >= 24;
    assert d < 7;
  }

  /** A week or more falls through to the locale date, and nothing younger
      does. */
  lemma LocaleDateFromAWeek(diffMs: int)
    ensures FormatDate(diffMs) == LocaleDate <==> diffMs >= 7 * DAY_MS
  {
    var m := FloorDiv(diffMs, MINUTE_MS);
    var h := FloorDiv(diffMs, HOUR_MS);
    var d := FloorDiv(diffMs, DAY_MS);
    if diffMs >= 7 * DAY_MS {
      assert m >= 60 && h >= 24 && d >= 7;
    } else if diffMs >= DAY_MS {
      assert d < 7;
    } else if diffMs >= HOUR_MS {
      assert h < 24;
    } else if diffMs >= MINUTE_MS {
      assert m < 60;
    }
  }
}
