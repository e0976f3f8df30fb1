/** The two computed texts of the public profile page,
    src/pages/UserProfile.js: how long ago the user was last seen, and the
    letters shown when there is no picture. `Date.parse` and `Date.now` are
    inputs (a parse that fails is `None`), and the locale-formatted date is
    kept as the timestamp it would format. */
module UserProfile {
  import opened Wrappers
  import opened JsText
  import opened JsNumber

  const SecondMs := 1000
  const MinuteSeconds := 60
  const HourSeconds := 3600
  const DaySeconds := 86400

  datatype TimeUnit = Minute | Hour

  /** What `formatLastSeen` returns: the input unchanged, 'a moment ago',
      a count of minutes or hours, or the timestamp in locale format. */
  datatype LastSeen = Verbatim(iso: string) | MomentAgo | Ago(count: nat, unit: TimeUnit) | LocaleDate(ts: int)

  /** `Math.floor((now - ts) / 1000)`: Euclidean division by a positive
      divisor rounds down, negative differences included. */
  function ElapsedSeconds(now: int, ts: int): (diff: int)
    ensures diff * SecondMs <= now - ts < (diff + 1) * SecondMs
  {
    (now - ts) / SecondMs
  }

  /** `formatLastSeen(iso)` with `Date.parse(iso)` given as `parsed` and
      `Date.now()` as `now`. */
  function FormatLastSeen(iso: string, parsed: Option<int>, now: int): (r: LastSeen)
    ensures r.Verbatim? <==> parsed.None?
    ensures r.Verbatim? ==> r.iso == iso
    ensures r.Ago? ==> 1 <= r.count && r.count < (if r.unit == Minute then 60 else 24)
    ensures r.LocaleDate? ==> r.ts == parsed.value && now - parsed.value >= DaySeconds * SecondMs
  {
    if parsed.None? then Verbatim(iso)
    else
      var diff := ElapsedSeconds(now, parsed.value);
      if diff < MinuteSeconds then MomentAgo
      else if diff < HourSeconds then Ago(diff / MinuteSeconds, Minute)
      else if diff < DaySeconds then Ago(diff / HourSeconds, Hour)
      else LocaleDate(parsed.value)
  }

  /** The text is chosen by the elapsed time in milliseconds: under a minute
      (a timestamp in the future included) is 'a moment ago'; under an hour
      is the number of whole minutes elapsed, 1 to 59; under a day the
      number of whole hours, 1 to 23; a day or more the locale date. An
      unparseable input is returned as it is. */
  lemma FormatLastSeenSpec(iso: string, parsed: Option<int>, now: int)
    ensures parsed.None? ==> FormatLastSeen(iso, parsed, now) == Verbatim(iso)
    ensures parsed.Some? ==>
      var r, elapsed := FormatLastSeen(iso, parsed, now), now - parsed.value;
      && (r.MomentAgo? <==> elapsed < 60 * 1000)
      && (r.Ago? && r.unit == Minute <==> 60 * 1000 <= elapsed < 3600 * 1000)
      && (r.Ago? && r.unit == Hour <==> 3600 * 1000 <= elapsed < 86400 * 1000)
      && (r.LocaleDate? <==> 86400 * 1000 <= elapsed)
      && (r.LocaleDate? ==> r.ts == parsed.value)
      && (r.Ago? && r.unit == Minute ==>
            1 <= r.count <= 59 && r.count * 60 * 1000 <= elapsed < (r.count + 1) * 60 * 1000)
      && (r.Ago? && r.unit == Hour ==>
            1 <= r.count <= 23 && r.count * 3600 * 1000 <= elapsed < (r.count + 1) * 3600 * 1000)
  {
    if parsed.Some? {
      var elapsed := now - parsed.value;
      var diff := ElapsedSeconds(now, parsed.value);
      if MinuteSeconds <= diff < HourSeconds {
        WholeUnits(diff, MinuteSeconds, elapsed);
      } else if HourSeconds <= diff < DaySeconds {
        WholeUnits(diff, HourSeconds, elapsed);
      }
    }
  }

  /** Whole units of `unit` seconds in `diff` seconds, where `diff` is the
      whole seconds in `elapsed` milliseconds, are the whole units in
      `elapsed`. */
  lemma WholeUnits(diff: int, unit: nat, elapsed: int)
    requires unit > 0 && diff >= 0
    requires diff * 1000 <= elapsed < (diff + 1) * 1000
    ensures (diff / unit) * unit * 1000 <= elapsed < (diff / unit + 1) * unit * 1000
  {
    var q := diff / unit;
    assert q * unit <= diff < (q + 1) * unit;
    assert q * unit * 1000 <= diff * 1000;
    assert (diff + 1) * 1000 <= (q + 1) * unit * 1000;
  }

  /** The order of the texts as time passes. */
  function Stage(r: LastSeen): nat {
    match r
    case Verbatim(_) => 0
    case MomentAgo => 0
    case Ago(_, unit) => if unit == Minute then 1 else 2
    case LocaleDate(_) => 3
  }

  /** Seen later, the same timestamp never reads as more recent: the stage
      never goes back, and within a unit the count never drops. */
  lemma LaterNeverMoreRecent(iso: string, ts: int, now: int, later: int)
    requires now <= later
    ensures Stage(FormatLastSeen(iso, Some(ts), now)) <= Stage(FormatLastSeen(iso, Some(ts), later))
    ensures var a, b := FormatLastSeen(iso, Some(ts), now), FormatLastSeen(iso, Some(ts), later);
      a.Ago? && b.Ago? && a.unit == b.unit ==> a.count <= b.count
  {
    var d1, d2 := ElapsedSeconds(now, ts), ElapsedSeconds(later, ts);
    DivMonotone(now - ts, later - ts, SecondMs);
    DivMonotone(d1, d2, MinuteSeconds);
    DivMonotone(d1, d2, HourSeconds);
  }

  lemma DivMonotone(a: int, b: int, d: nat)
    requires d > 0 && a <= b
    ensures a / d <= b / d
  {
    var qa, qb := a / d, b / d;
    assert qa * d <= a && b < qb * d + d;
    assert (qb + 1 - qa) * d == qb * d + d - qa * d;
    PositiveFactor(qb + 1 - qa, d);
  }

  lemma PositiveFactor(x: int, d: int)
    requires d > 0 && x * d > 0
    ensures x > 0
  {
  }

  /** The text shown for a result; `localeText` stands for what
      `toLocaleString` makes of the timestamp. */
  function Render(r: LastSeen, localeText: string): (t: string)
    ensures r.MomentAgo? || r.Ago? ==> |t| >= 4 && t[|t| - 4..] == " ago"
    ensures r.Verbatim? ==> t == r.iso
    ensures r.LocaleDate? ==> t == localeText
  {
    match r
    case Verbatim(iso) => iso
    case MomentAgo => "a moment ago"
    case Ago(count, unit) =>
      var word := if unit == Minute then " minute" else " hour";
      var plural := if count > 1 then "s" else "";
      NatToString(count) + (word + plural + " ago")
    case LocaleDate(_) => localeText
  }

  /** The count text is the count's digits, a space, the unit, an 's'
      when the count exceeds 1, and ' ago'. */
  lemma RenderShape(count: nat, unit: TimeUnit, localeText: string)
    ensures var t, digits := Render(Ago(count, unit), localeText), NatToString(count);
      && |t| > |digits| + 5
      && t[..|digits|] == digits
      && t[|digits|] == ' '
      && (t[|t| - 5..] == "s ago" <==> count > 1)
  {
    var word := if unit == Minute then " minute" else " hour";
    var plural := if count > 1 then "s" else "";
    CountTextShape(NatToString(count), word, plural);
  }

  /** The shape of `digits + word + plural + ' ago'` for the two unit words. */
  lemma CountTextShape(digits: string, word: string, plural: string)
    requires word == " minute" || word == " hour"
    requires plural == "s" || plural == ""
    ensures var t := digits + (word + plural + " ago");
      && |t| > |digits| + 5
      && t[..|digits|] == digits
      && t[|digits|] == ' '
      && (t[|t| - 5..] == "s ago" <==> plural == "s")
  {
    var tail := word + plural + " ago";
    var t := digits + tail;
    assert t[..|digits|] == digits;
    assert t[|digits|] == tail[0];
    assert t[|t| - 5..] == tail[|tail| - 5..];
    if plural == "s" {
      assert tail[|tail| - 5..] == "s ago";
    } else {
      assert tail[|tail| - 5] == word[|word| - 1];
    }
  }

  /** A count text reads back as its count: the characters before the
      first space are the count's digits, which `Number` turns into the
      count, and the unit takes an 's' exactly when the count exceeds 1. */
  lemma RenderCountReadsBack(count: nat, unit: TimeUnit, localeText: string)
    ensures var t, k := Render(Ago(count, unit), localeText), |NatToString(count)|;
      && IndexOf(t, ' ') == k
      && ToNumber(t[..k]) == Finite(count as real)
      && (t[|t| - 5..] == "s ago" <==> count > 1)
  {
    var t := Render(Ago(count, unit), localeText);
    var digits := NatToString(count);
    RenderShape(count, unit, localeText);
    IndexOfAfterDigits(t, |digits|, ' ');
    DecimalRoundTrip(count);
  }

  /** The letters of the avatar without a picture:
      `(full_name || username || '').slice(0, 2).toUpperCase()`. */
  function AvatarInitials(fullName: Option<string>, username: Option<string>): (r: string)
    ensures |r| <= 2
  {
    Upper(Prefix(if Filled(fullName) then fullName.value else if Filled(username) then username.value else "", 2))
  }

  /** The letters are the first two of the full name, or of the username
      when the full name is missing or empty, upper-cased; they are empty
      only when both are missing or empty. */
  lemma AvatarInitialsSpec(fullName: Option<string>, username: Option<string>)
    ensures var r := AvatarInitials(fullName, username);
      && |r| <= 2
      && (r == "" <==> !Filled(fullName) && !Filled(username))
      && (Filled(fullName) ==>
            (|r| == (if |fullName.value| < 2 then |fullName.value| else 2)
             && forall i :: 0 <= i < |r| ==> r[i] == UpperChar(fullName.value[i])))
      && (!Filled(fullName) && Filled(username) ==>
            (|r| == (if |username.value| < 2 then |username.value| else 2)
             && forall i :: 0 <= i < |r| ==> r[i] == UpperChar(username.value[i])))
  {
  }
}
