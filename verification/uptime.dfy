/**
 * `UptimeFormatter::getUptime`: the time since boot, in milliseconds as
 * `millis()` reports them, spelled out as days, hours, minutes and seconds.
 * The clock reading is a parameter.
 */
module Uptime {
  import opened Arduino

  datatype Duration = Duration(days: nat, hours: nat, minutes: nat, seconds: nat)

  /** The whole seconds in `ms`, broken into days, hours, minutes and seconds. */
  function Split(ms: ULong): (d: Duration)
    ensures d.seconds < 60 && d.minutes < 60 && d.hours < 24
    ensures d.days * 86400 + d.hours * 3600 + d.minutes * 60 + d.seconds == ms / 1000
  {
    var seconds := ms / 1000;
    var minutes := seconds / 60;
    var hours := minutes / 60;
    var days := hours / 24;
    assert seconds == minutes * 60 + seconds % 60;
    assert minutes == hours * 60 + minutes % 60;
    assert hours == days * 24 + hours % 24;
    Duration(days, hours % 24, minutes % 60, seconds % 60)
  }

  /** `getUptime`: the clock reading split, then formatted. */
  function GetUptime(ms: ULong): (text: string)
    ensures var tail := Segment(Split(ms).seconds, " second");
      |tail| <= |text| && text[|text| - |tail|..] == tail
  {
    Format(Split(ms))
  }

  /** Each unit is appended, with its separator, under the source's own conditions. */
  function Format(d: Duration): (text: string)
    ensures var tail := Segment(d.seconds, " second");
      |tail| <= |text| && text[|text| - |tail|..] == tail
  {
    var result := "";
    var result := if d.days > 0
      then result + DecimalString(d.days) + " day" + (if d.days > 1 then "s" else "") + ", "
      else result;
    var result := if d.hours > 0 || d.days > 0
      then result + DecimalString(d.hours) + " hour" + (if d.hours != 1 then "s" else "") + ", "
      else result;
    var result := if d.minutes > 0 || d.hours > 0 || d.days > 0
      then result + DecimalString(d.minutes) + " minute" + (if d.minutes != 1 then "s" else "") + ", "
      else result;
    var plural := if d.seconds != 1 then "s" else "";
    Regroup(result, DecimalString(d.seconds), " second", plural);
    result + DecimalString(d.seconds) + " second" + plural
  }

  /**
   * One unit as it is shown: the number, the unit with its leading blank
   * (" day", " hour", ...), and an "s" unless the number is 1.
   */
  function Segment(value: nat, unit: string): string
  {
    DecimalString(value) + unit + (if value != 1 then "s" else "")
  }

  /** The position of the first unit to show: the largest unit that is not zero (seconds always show). */
  function FirstShown(d: Duration): (k: nat)
    ensures k <= 3
    ensures forall j :: 0 <= j < k ==> [d.days, d.hours, d.minutes][j] == 0
    ensures k < 3 ==> [d.days, d.hours, d.minutes][k] > 0
  {
    if d.days > 0 then 0 else if d.hours > 0 then 1 else if d.minutes > 0 then 2 else 3
  }

  /**
   * A reference reading of the format: all four units largest first, the
   * leading zero-valued ones dropped, every unit after the first shown one
   * kept even when it is zero.
   */
  function Segments(d: Duration): seq<string>
  {
    AllSegments(d)[FirstShown(d)..]
  }

  /** The segments separated by ", ". */
  function Join(segments: seq<string>): string
  {
    if segments == [] then ""
    else if |segments| == 1 then segments[0]
    else Join(segments[..|segments| - 1]) + ", " + segments[|segments| - 1]
  }

  lemma JoinFour(a: string, b: string, c: string, e: string)
    ensures Join([e]) == e
    ensures Join([c, e]) == c + ", " + e
    ensures Join([b, c, e]) == b + ", " + c + ", " + e
    ensures Join([a, b, c, e]) == a + ", " + b + ", " + c + ", " + e
  {
    assert [c, e][..1] == [c];
    assert [b, c][..1] == [b];
    assert Join([b, c]) == b + ", " + c;
    assert [b, c, e][..2] == [b, c];
    assert [a, b][..1] == [a];
    assert Join([a, b]) == a + ", " + b;
    assert [a, b, c][..2] == [a, b];
    assert Join([a, b, c]) == a + ", " + b + ", " + c;
    assert [a, b, c, e][..3] == [a, b, c];
  }

  lemma Regroup(x: string, a: string, b: string, c: string)
    ensures x + a + b + c == x + (a + b + c)
  {
  }

  /*
   * The source's appends over arbitrary digit strings, units and plural
   * suffixes, one lemma for each unit the text can start with.
   */

  lemma AppendsFromDays(dd: string, hd: string, md: string, sd: string, du: string, hu: string, mu: string, su: string,
                        ds: string, hs: string, ms: string, ss: string)
    ensures "" + dd + du + ds + ", " + hd + hu + hs + ", " + md + mu + ms + ", " + sd + su + ss
      == Join([dd + du + ds, hd + hu + hs, md + mu + ms, sd + su + ss])
  {
    var a, b, c, e := dd + du + ds, hd + hu + hs, md + mu + ms, sd + su + ss;
    JoinFour(a, b, c, e);
    Regroup("", dd, du, ds);
    Regroup(a + ", ", hd, hu, hs);
    Regroup(a + ", " + b + ", ", md, mu, ms);
    Regroup(a + ", " + b + ", " + c + ", ", sd, su, ss);
  }

  lemma AppendsFromHours(hd: string, md: string, sd: string, hu: string, mu: string, su: string, hs: string, ms: string, ss: string)
    ensures "" + hd + hu + hs + ", " + md + mu + ms + ", " + sd + su + ss
      == Join([hd + hu + hs, md + mu + ms, sd + su + ss])
  {
    var b, c, e := hd + hu + hs, md + mu + ms, sd + su + ss;
    JoinFour("", b, c, e);
    Regroup("", hd, hu, hs);
    Regroup(b + ", ", md, mu, ms);
    Regroup(b + ", " + c + ", ", sd, su, ss);
  }

  lemma AppendsFromMinutes(md: string, sd: string, mu: string, su: string, ms: string, ss: string)
    ensures "" + md + mu + ms + ", " + sd + su + ss == Join([md + mu + ms, sd + su + ss])
  {
    var c, e := md + mu + ms, sd + su + ss;
    JoinFour("", "", c, e);
    Regroup("", md, mu, ms);
    Regroup(c + ", ", sd, su, ss);
  }

  lemma AppendsSecondsOnly(sd: string, su: string, ss: string)
    ensures "" + sd + su + ss == Join([sd + su + ss])
  {
    JoinFour("", "", "", sd + su + ss);
    Regroup("", sd, su, ss);
  }

  function AllSegments(d: Duration): seq<string>
  {
    [Segment(d.days, " day"), Segment(d.hours, " hour"), Segment(d.minutes, " minute"), Segment(d.seconds, " second")]
  }

  lemma FormatFromDays(d: Duration)
    requires d.days > 0
    ensures Format(d) == Join(Segments(d))
  {
    var dd, hd, md, sd := DecimalString(d.days), DecimalString(d.hours), DecimalString(d.minutes), DecimalString(d.seconds);
    var ds := if d.days > 1 then "s" else "";
    var hs, ms, ss := if d.hours != 1 then "s" else "", if d.minutes != 1 then "s" else "", if d.seconds != 1 then "s" else "";
    assert ds == (if d.days != 1 then "s" else "");
    assert Format(d) == "" + dd + " day" + ds + ", " + hd + " hour" + hs + ", " + md + " minute" + ms + ", " + sd + " second" + ss;
    AppendsFromDays(dd, hd, md, sd, " day", " hour", " minute", " second", ds, hs, ms, ss);
    assert Segments(d) == AllSegments(d);
  }

  lemma FormatFromHours(d: Duration)
    requires d.days == 0 && d.hours > 0
    ensures Format(d) == Join(Segments(d))
  {
    var hd, md, sd := DecimalString(d.hours), DecimalString(d.minutes), DecimalString(d.seconds);
    var hs, ms, ss := if d.hours != 1 then "s" else "", if d.minutes != 1 then "s" else "", if d.seconds != 1 then "s" else "";
    assert Format(d) == "" + hd + " hour" + hs + ", " + md + " minute" + ms + ", " + sd + " second" + ss;
    AppendsFromHours(hd, md, sd, " hour", " minute", " second", hs, ms, ss);
    assert Segments(d) == AllSegments(d)[1..];
  }

  lemma FormatFromMinutes(d: Duration)
    requires d.days == 0 && d.hours == 0 && d.minutes > 0
    ensures Format(d) == Join(Segments(d))
  {
    var md, sd := DecimalString(d.minutes), DecimalString(d.seconds);
    var ms, ss := if d.minutes != 1 then "s" else "", if d.seconds != 1 then "s" else "";
    assert Format(d) == "" + md + " minute" + ms + ", " + sd + " second" + ss;
    AppendsFromMinutes(md, sd, " minute", " second", ms, ss);
    assert Segments(d) == AllSegments(d)[2..];
  }

  lemma FormatSecondsOnly(d: Duration)
    requires d.days == 0 && d.hours == 0 && d.minutes == 0
    ensures Format(d) == Join(Segments(d))
  {
    var sd, ss := DecimalString(d.seconds), if d.seconds != 1 then "s" else "";
    assert Format(d) == "" + sd + " second" + ss;
    AppendsSecondsOnly(sd, " second", ss);
    assert Segments(d) == AllSegments(d)[3..];
  }

  /** The formatter agrees with the reference reading. */
  lemma FormatIsJoin(d: Duration)
    ensures Format(d) == Join(Segments(d))
  {
    if d.days > 0 {
      FormatFromDays(d);
    } else if d.hours > 0 {
      FormatFromHours(d);
    } else if d.minutes > 0 {
      FormatFromMinutes(d);
    } else {
      FormatSecondsOnly(d);
    }
  }

  lemma UptimeIsJoin(ms: ULong)
    ensures GetUptime(ms) == Join(Segments(Split(ms)))
  {
    FormatIsJoin(Split(ms));
  }

  /**
   * Which units appear: days exactly when there is at least a day, hours
   * when there are hours or days, minutes when there are minutes, hours or
   * days; seconds always, last.
   */
  lemma UptimeUnitsShown(ms: ULong)
    ensures var d := Split(ms); var segments := Segments(d);
      && 1 <= |segments| <= 4
      && (|segments| == 4 <==> d.days > 0)
      && (|segments| >= 3 <==> d.hours > 0 || d.days > 0)
      && (|segments| >= 2 <==> d.minutes > 0 || d.hours > 0 || d.days > 0)
      && segments[|segments| - 1] == Segment(d.seconds, " second")
  {
  }

  lemma {:induction false} JoinEndsWithLast(segments: seq<string>)
    requires segments != []
    ensures var j := Join(segments); var last := segments[|segments| - 1];
      |last| <= |j| && j[|j| - |last|..] == last
  {
    if |segments| > 1 {
      JoinEndsWithLast(segments[1..]);
    }
  }

  /** The text always ends with "<s> second", plus "s" unless there is exactly one second. */
  lemma UptimeEndsWithSeconds(ms: ULong)
    ensures var u := GetUptime(ms); var d := Split(ms);
      var tail := DecimalString(d.seconds) + " second" + (if d.seconds != 1 then "s" else "");
      |tail| <= |u| && u[|u| - |tail|..] == tail
  {
    FormatIsJoin(Split(ms));
    UptimeUnitsShown(ms);
    JoinEndsWithLast(Segments(Split(ms)));
  }

  /** Less than a second of uptime reads "0 seconds". */
  lemma UptimeBelowOneSecond(ms: ULong)
    requires ms < 1000
    ensures GetUptime(ms) == "0 seconds"
  {
    assert Split(ms) == Duration(0, 0, 0, 0);
    assert Format(Duration(0, 0, 0, 0)) == "0 seconds" by {
      assert DecimalString(0) == "0";
    }
  }

  /** 59 000 ms reads "59 seconds". */
  lemma UptimeFiftyNineSeconds()
    ensures GetUptime(59000) == "59 seconds"
  {
    assert Split(59000) == Duration(0, 0, 0, 59);
    assert Format(Duration(0, 0, 0, 59)) == "59 seconds" by {
      assert DecimalString(59) == "59";
    }
  }

  lemma FormatAllOnesShape(d: Duration, one: string)
    requires d == Duration(1, 1, 1, 1) && one == DecimalString(1)
    ensures Format(d) == "" + one + " day" + "" + ", " + one + " hour" + "" + ", " + one + " minute" + "" + ", " + one + " second" + ""
  {
  }

  lemma AllOnesText()
    ensures "" + "1" + " day" + "" + ", " + "1" + " hour" + "" + ", " + "1" + " minute" + "" + ", " + "1" + " second" + ""
      == "1 day, 1 hour, 1 minute, 1 second"
  {
    assert "" + "1" + " day" + "" + ", " == "1 day, ";
    assert "1 day, " + "1" + " hour" + "" + ", " == "1 day, 1 hour, ";
    assert "1 day, 1 hour, " + "1" + " minute" + "" + ", " == "1 day, 1 hour, 1 minute, ";
    assert "1 day, 1 hour, 1 minute, " + "1" + " second" + "" == "1 day, 1 hour, 1 minute, 1 second";
  }

  lemma FormatAllOnes()
    ensures Format(Duration(1, 1, 1, 1)) == "1 day, 1 hour, 1 minute, 1 second"
  {
    assert DecimalString(1) == "1";
    FormatAllOnesShape(Duration(1, 1, 1, 1), "1");
    AllOnesText();
  }

  /** One day, one hour, one minute and one second are all in the singular. */
  lemma UptimeAllSingular()
    ensures GetUptime(90061000) == "1 day, 1 hour, 1 minute, 1 second"
  {
    var d := Split(90061000);
    assert d == Duration(1, 1, 1, 1);
    FormatAllOnes();
  }
}
