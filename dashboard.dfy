/** Two helpers of the charger dashboard (Dashboard.tsx): the session clock, which shows
    a count of seconds as zero-padded hours and minutes, and the status banner, which
    maps the charger status to an icon, a colour scheme and a message. */
module Dashboard {
  import opened Text

  // ---------------------------------------------------------------------------
  // The session clock

  /** A clock field: the decimal numeral of `n`, padded with zeros to two characters. */
  function Field(n: nat): (r: string)
    ensures AllDigits(r) && |r| >= 2
    ensures n < 100 ==> |r| == 2
  {
    PadStart(DecimalString(n), 2, '0')
  }

  /** Whole hours in `seconds`. */
  function Hours(seconds: nat): nat {
    seconds / 3600
  }

  /** Whole minutes past the hour in `seconds`. */
  function Minutes(seconds: nat): (m: nat)
    ensures m < 60
  {
    (seconds % 3600) / 60
  }

  /** `formatTime`: hours and minutes, each padded to two digits, joined by a colon.
      The session time only counts up from zero, so it is a natural number here. */
  function FormatTime(seconds: nat): (r: string)
    ensures |r| >= 5
  {
    Field(Hours(seconds)) + ":" + Field(Minutes(seconds))
  }

  /** Reading a field back gives its number. */
  lemma FieldRoundTrip(n: nat)
    ensures ParseDecimal(Field(n)) == n
  {
    var d := DecimalString(n);
    var z := if |d| >= 2 then 0 else 2 - |d|;
    assert Field(n) == seq(z, _ => '0') + d;
    ParseLeadingZeros(z, d);
    ParseDecimalString(n);
  }

  /** Reads a clock back: the digits before the colon three characters from the end,
      and the two digits after it. */
  function ReadClock(r: string): (hm: Option<(nat, nat)>)
  {
    if |r| < 3 then None
    else
      var i := |r| - 3;
      if r[i] == ':' && AllDigits(r[..i]) && AllDigits(r[i + 1..]) then
        Some((ParseDecimal(r[..i]), ParseDecimal(r[i + 1..])))
      else None
  }

  /** A clock reading is its two fields around the colon, and each reads back as the
      number it was written from. */
  lemma ReadClockFields(hh: string, mm: string, h: nat, m: nat)
    requires AllDigits(hh) && AllDigits(mm) && |mm| == 2
    requires ParseDecimal(hh) == h && ParseDecimal(mm) == m
    ensures var r := hh + ":" + mm;
            r[|hh|] == ':' && r[..|hh|] == hh && r[|hh| + 1..] == mm
            && ReadClock(r) == Some((h, m))
  {
    var r := hh + ":" + mm;
    assert r[..|hh|] == hh && r[|hh| + 1..] == mm;
  }

  /** Below a hundred hours the clock reads exactly "HH:MM". */
  lemma FormatTimeShape(seconds: nat)
    requires seconds < 360000
    ensures var r := FormatTime(seconds);
            |r| == 5 && r[2] == ':' && AllDigits(r[..2]) && AllDigits(r[3..])
  {
    var hh, mm := Field(Hours(seconds)), Field(Minutes(seconds));
    assert Hours(seconds) < 100;
    assert |hh| == 2 && |mm| == 2;
    assert FormatTime(seconds) == hh + ":" + mm;
    assert AllDigits(hh) && AllDigits(mm);
  }

  /** Reading the clock back gives the whole hours and the minutes past the hour (which
      together make up the whole minutes, `MinutesOfHours`). */
  lemma FormatTimeRoundTrip(seconds: nat)
    ensures ReadClock(FormatTime(seconds)) == Some((Hours(seconds), Minutes(seconds)))
  {
    var h, m := Hours(seconds), Minutes(seconds);
    var hh, mm := Field(h), Field(m);
    FieldRoundTrip(h);
    FieldRoundTrip(m);
    ReadClockFields(hh, mm, h, m);
    assert FormatTime(seconds) == hh + ":" + mm;
  }

  /** Whole hours and minutes past the hour make up the whole minutes. */
  lemma MinutesOfHours(seconds: nat)
    ensures Hours(seconds) * 60 + Minutes(seconds) == seconds / 60
  {
    var h := seconds / 3600;
    var t := seconds % 3600;
    var m := t / 60;
    assert seconds == 60 * (60 * h + m) + t % 60;
    QuotientBy60(seconds, 60 * h + m, t % 60);
  }

  /** What the clock shows, read back, is the whole minutes of the session split into
      hours and minutes past the hour. */
  lemma FormatTimeShowsWholeMinutes(seconds: nat)
    ensures ReadClock(FormatTime(seconds)).Some?
    ensures var (h, m) := ReadClock(FormatTime(seconds)).value;
            m < 60 && h * 60 + m == seconds / 60
  {
    FormatTimeRoundTrip(seconds);
    MinutesOfHours(seconds);
  }

  /** `x == 60 * q + r` with `0 <= r < 60` fixes the quotient and remainder by 60. */
  lemma QuotientBy60(x: nat, q: nat, r: nat)
    requires r < 60 && x == 60 * q + r
    ensures x / 60 == q && x % 60 == r
  {
  }

  /** `x == 3600 * q + r` with `0 <= r < 3600` fixes the quotient and remainder by 3600. */
  lemma QuotientBy3600(x: nat, q: nat, r: nat)
    requires r < 3600 && x == 3600 * q + r
    ensures x / 3600 == q && x % 3600 == r
  {
  }

  /** Seconds past the minute do not show: the clock at `seconds` reads as at the start
      of that minute. */
  lemma FormatTimeDropsSeconds(seconds: nat)
    ensures FormatTime(seconds) == FormatTime(seconds - seconds % 60)
  {
    WholeMinuteSameClock(seconds);
  }

  /** The start of the current minute has the same hours and minutes. */
  lemma WholeMinuteSameClock(seconds: nat)
    ensures Hours(seconds - seconds % 60) == Hours(seconds)
    ensures Minutes(seconds - seconds % 60) == Minutes(seconds)
  {
    var h := seconds / 3600;
    var t := seconds % 3600;
    var m := t / 60;
    assert seconds == 60 * (60 * h + m) + t % 60;
    QuotientBy60(seconds, 60 * h + m, t % 60);
    var s := seconds - seconds % 60;
    assert s == 3600 * h + 60 * m;
    QuotientBy3600(s, h, 60 * m);
    QuotientBy60(60 * m, m, 0);
  }

  // ---------------------------------------------------------------------------
  // The status banner

  datatype StatusIcon = CheckCircle | AlertTriangle | Activity

  datatype StatusDetails =
    StatusDetails(icon: StatusIcon, color: string, bgColor: string, borderColor: string, message: string)

  /** The statuses the banner knows; anything else falls to the default. */
  predicate IsKnownStatus(chargerStatus: string) {
    chargerStatus == "optimal" || chargerStatus == "warning" || chargerStatus == "maintenance"
  }

  /** `getStatusDetails`: the banner for a charger status. */
  function GetStatusDetails(chargerStatus: string): (d: StatusDetails)
  {
    match chargerStatus
    case "optimal" =>
      StatusDetails(CheckCircle, "text-green-500", "bg-green-50", "border-green-200",
        "All systems operating normally")
    case "warning" =>
      StatusDetails(AlertTriangle, "text-amber-500", "bg-amber-50", "border-amber-200",
        "Minor issue detected - monitoring")
    case "maintenance" =>
      StatusDetails(AlertTriangle, "text-red-500", "bg-red-50", "border-red-200",
        "Maintenance required")
    case _ =>
      StatusDetails(Activity, "text-gray-500", "bg-gray-50", "border-gray-200",
        "Status unknown")
  }

  /** The hue of each status: green when optimal, amber on a warning, red for
      maintenance, grey otherwise. */
  function Hue(chargerStatus: string): string {
    if chargerStatus == "optimal" then "green"
    else if chargerStatus == "warning" then "amber"
    else if chargerStatus == "maintenance" then "red"
    else "gray"
  }

  /** Text, background and border of a banner are shades of one hue. */
  lemma StatusColorsShareHue(chargerStatus: string)
    ensures var d := GetStatusDetails(chargerStatus);
            var h := Hue(chargerStatus);
            d.color == "text-" + h + "-500" && d.bgColor == "bg-" + h + "-50"
            && d.borderColor == "border-" + h + "-200"
  {
    HueShades();
  }

  /** The shades of the four hues, spelled out. */
  lemma HueShades()
    ensures "text-green-500" == "text-" + "green" + "-500" && "bg-green-50" == "bg-" + "green" + "-50"
            && "border-green-200" == "border-" + "green" + "-200"
    ensures "text-amber-500" == "text-" + "amber" + "-500" && "bg-amber-50" == "bg-" + "amber" + "-50"
            && "border-amber-200" == "border-" + "amber" + "-200"
    ensures "text-red-500" == "text-" + "red" + "-500" && "bg-red-50" == "bg-" + "red" + "-50"
            && "border-red-200" == "border-" + "red" + "-200"
    ensures "text-gray-500" == "text-" + "gray" + "-500" && "bg-gray-50" == "bg-" + "gray" + "-50"
            && "border-gray-200" == "border-" + "gray" + "-200"
  {
  }

  /** The banner is total: a known status gets its own message and an unknown one the
      default; the icon is the check mark exactly for "optimal" and the warning
      triangle exactly for "warning" and "maintenance". */
  lemma StatusDetailsCases(chargerStatus: string)
    ensures var d := GetStatusDetails(chargerStatus);
            (d.message == "Status unknown" <==> !IsKnownStatus(chargerStatus))
            && (d.icon == CheckCircle <==> chargerStatus == "optimal")
            && (d.icon == AlertTriangle <==>
                  chargerStatus == "warning" || chargerStatus == "maintenance")
            && (d.icon == Activity <==> !IsKnownStatus(chargerStatus))
  {
  }

  /** Different statuses get different messages, unless both are unknown. */
  lemma StatusMessagesDistinct(a: string, b: string)
    requires IsKnownStatus(a) || IsKnownStatus(b)
    ensures GetStatusDetails(a).message == GetStatusDetails(b).message <==> a == b
  {
    StatusDetailsCases(a);
    StatusDetailsCases(b);
  }
}
