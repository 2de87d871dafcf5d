/** The values the info panel shows for fetched metadata: the duration as
    "1h 2m 3s", the upload date as YYYY-MM-DD, and the list of available heights. */
module Display {
  import opened Wrappers
  import opened Text
  import opened Downloader

  // ---------------------------------------------------------------- duration

  datatype Clock = Clock(hours: int, minutes: int, seconds: int)

  /** Hours, minutes and seconds by floor division and remainder (Python's `//` and
      `%`, which agree with Dafny's for a positive divisor). */
  function SplitDuration(total: int): (c: Clock)
    ensures c.hours * 3600 + c.minutes * 60 + c.seconds == total
    ensures 0 <= c.minutes < 60 && 0 <= c.seconds < 60
    ensures total > 0 ==> c.hours >= 0
  {
    var h, rem := total / 3600, total % 3600;
    var m := rem / 60;
    assert total == (h * 60) * 60 + rem;
    assert total % 60 == rem % 60;
    Clock(h, m, total % 60)
  }

  /** The duration as the info panel shows it: "Unknown" when it is missing or zero,
      otherwise hours, minutes and seconds, leaving out leading zero units. */
  function FormatDuration(duration: Option<int>): (r: string)
    ensures duration.None? || duration.value == 0 ==> r == "Unknown"
    ensures duration.Some? && duration.value != 0 ==> |r| >= 2 && r[|r| - 1] == 's' && IsDigit(r[|r| - 2])
  {
    if duration.None? || duration.value == 0 then "Unknown"
    else
      var c := SplitDuration(duration.value);
      Rendering(c.hours, c.minutes, c.seconds)
  }

  /** The text for a non-zero duration split into `h`, `m` and `sec`: all three
      units when there are hours, minutes and seconds when there are minutes,
      otherwise seconds alone.  It always ends with the seconds. */
  function Rendering(h: int, m: nat, sec: nat): (r: string)
    ensures |r| >= 2 && r[|r| - 1] == 's' && IsDigit(r[|r| - 2])
  {
    var secs := Show(sec) + "s";
    assert secs[|secs| - 2] == Show(sec)[|Show(sec)| - 1];
    if h > 0 then Show(h) + "h " + Show(m) + "m " + Show(sec) + "s"
    else if m > 0 then Show(m) + "m " + Show(sec) + "s"
    else Show(sec) + "s"
  }

  /** A number followed by its unit letter, such as "42m". */
  function Quantity(token: string, unit: char): Option<nat> {
    if |token| >= 2 && token[|token| - 1] == unit && AllDigits(token[..|token| - 1])
    then Some(DecimalValue(token[..|token| - 1]))
    else None
  }

  /** Reads a rendered duration back into seconds: "Hh Mm Ss", "Mm Ss" or "Ss". */
  function ParseDuration(s: string): Option<int> {
    var parts := Split(s, " ");
    if |parts| == 3 then
      match (Quantity(parts[0], 'h'), Quantity(parts[1], 'm'), Quantity(parts[2], 's'))
      case (Some(h), Some(m), Some(sec)) => Some(h * 3600 + m * 60 + sec)
      case _ => None
    else if |parts| == 2 then
      match (Quantity(parts[0], 'm'), Quantity(parts[1], 's'))
      case (Some(m), Some(sec)) => Some(m * 60 + sec)
      case _ => None
    else if |parts| == 1 then
      match Quantity(parts[0], 's')
      case Some(sec) => Some(sec)
      case None => None
    else None
  }

  lemma QuantityOfShow(n: nat, unit: char)
    requires 'a' <= unit <= 'z'
    ensures Quantity(Show(n) + [unit], unit) == Some(n)
    ensures ' ' !in Show(n) + [unit]
  {
    var t := Show(n) + [unit];
    assert t[..|t| - 1] == Show(n);
    ShowRoundTrip(n);
  }

  /** The rendering of three units is their join with single spaces. */
  lemma SpacedThree(a: string, b: string, c: string)
    ensures a + "h " + b + "m " + c + "s" == JoinWith([a + "h", b + "m", c + "s"], " ")
  {
    var hr, mn, sc := a + "h", b + "m", c + "s";
    assert [hr, mn, sc][1..] == [mn, sc];
    JoinTwo(mn, sc, " ");
    assert JoinWith([hr, mn, sc], " ") == hr + " " + (mn + " " + sc);
    assert hr + " " == a + "h ";
    assert mn + " " == b + "m ";
  }

  /** The rendering of two units is their join with a single space. */
  lemma SpacedTwo(a: string, c: string)
    ensures a + "m " + c + "s" == JoinWith([a + "m", c + "s"], " ")
  {
  }

  /** Three space-free units joined by spaces split back apart and add up. */
  lemma ParseThree(hr: string, mn: string, sc: string, h: nat, m: nat, sec: nat)
    requires Quantity(hr, 'h') == Some(h) && Quantity(mn, 'm') == Some(m) && Quantity(sc, 's') == Some(sec)
    requires ' ' !in hr && ' ' !in mn && ' ' !in sc
    ensures |Split(JoinWith([hr, mn, sc], " "), " ")| == 3
    ensures ParseDuration(JoinWith([hr, mn, sc], " ")) == Some(h * 3600 + m * 60 + sec)
  {
    SplitJoin([hr, mn, sc], ' ');
  }

  /** Two space-free units joined by a space split back apart and add up. */
  lemma ParseTwo(mn: string, sc: string, m: nat, sec: nat)
    requires Quantity(mn, 'm') == Some(m) && Quantity(sc, 's') == Some(sec)
    requires ' ' !in mn && ' ' !in sc
    ensures |Split(JoinWith([mn, sc], " "), " ")| == 2
    ensures ParseDuration(JoinWith([mn, sc], " ")) == Some(m * 60 + sec)
  {
    SplitJoin([mn, sc], ' ');
  }

  /** "Hh Mm Ss" splits into its three units and reads back as h*3600 + m*60 + s. */
  lemma HoursShape(r: string, h: nat, m: nat, sec: nat)
    requires r == Show(h) + "h " + Show(m) + "m " + Show(sec) + "s"
    ensures |Split(r, " ")| == 3 && ParseDuration(r) == Some(h * 3600 + m * 60 + sec)
  {
    var hr, mn, sc := Show(h) + "h", Show(m) + "m", Show(sec) + "s";
    QuantityOfShow(h, 'h');
    QuantityOfShow(m, 'm');
    QuantityOfShow(sec, 's');
    SpacedThree(Show(h), Show(m), Show(sec));
    ParseThree(hr, mn, sc, h, m, sec);
  }

  /** "Mm Ss" splits into its two units and reads back as m*60 + s. */
  lemma MinutesShape(r: string, m: nat, sec: nat)
    requires r == Show(m) + "m " + Show(sec) + "s"
    ensures |Split(r, " ")| == 2 && ParseDuration(r) == Some(m * 60 + sec)
  {
    var mn, sc := Show(m) + "m", Show(sec) + "s";
    QuantityOfShow(m, 'm');
    QuantityOfShow(sec, 's');
    SpacedTwo(Show(m), Show(sec));
    ParseTwo(mn, sc, m, sec);
  }

  /** "Ss" is one unit and reads back as s. */
  lemma SecondsShape(r: string, sec: nat)
    requires r == Show(sec) + "s"
    ensures |Split(r, " ")| == 1 && ParseDuration(r) == Some(sec)
  {
    var sc := Show(sec) + "s";
    QuantityOfShow(sec, 's');
    assert sc == JoinWith([sc], " ");
    SplitJoin([sc], ' ');
  }

  /** A rendering with hours has three units and reads back as the duration. */
  lemma HoursRendering(r: string, c: Clock, total: int)
    requires c.hours > 0 && c.minutes >= 0 && c.seconds >= 0
    requires c.hours * 3600 + c.minutes * 60 + c.seconds == total
    requires r == Rendering(c.hours, c.minutes, c.seconds)
    ensures |Split(r, " ")| == 3 && ParseDuration(r) == Some(total)
  {
    HoursShape(r, c.hours, c.minutes, c.seconds);
  }

  /** A rendering with minutes but no hours has two units and reads back as the duration. */
  lemma MinutesRendering(r: string, c: Clock, total: int)
    requires c.hours == 0 && c.minutes > 0 && c.seconds >= 0
    requires c.hours * 3600 + c.minutes * 60 + c.seconds == total
    requires r == Rendering(c.hours, c.minutes, c.seconds)
    ensures |Split(r, " ")| == 2 && ParseDuration(r) == Some(total)
  {
    MinutesShape(r, c.minutes, c.seconds);
  }

  /** A rendering of seconds alone has one unit and reads back as the duration. */
  lemma SecondsRendering(r: string, c: Clock, total: int)
    requires c.hours == 0 && c.minutes == 0 && c.seconds >= 0
    requires c.hours * 3600 + c.minutes * 60 + c.seconds == total
    requires r == Rendering(c.hours, c.minutes, c.seconds)
    ensures |Split(r, " ")| == 1 && ParseDuration(r) == Some(total)
  {
    SecondsShape(r, c.seconds);
  }

  /** A positive duration is rendered as one, two or three space-separated units
      (hours only when there are hours, minutes when there are hours or minutes),
      and reading the rendering back gives the number of seconds again. */
  lemma DurationRoundTrip(total: int)
    requires total > 0
    ensures var c := SplitDuration(total);
      |Split(FormatDuration(Some(total)), " ")| == (if c.hours > 0 then 3 else if c.minutes > 0 then 2 else 1)
    ensures ParseDuration(FormatDuration(Some(total))) == Some(total)
  {
    var c := SplitDuration(total);
    var r := FormatDuration(Some(total));
    assert r == Rendering(c.hours, c.minutes, c.seconds);
    if c.hours > 0 {
      HoursRendering(r, c, total);
    } else if c.minutes > 0 {
      MinutesRendering(r, c, total);
    } else {
      SecondsRendering(r, c, total);
    }
  }

  /** "Unknown" is shown exactly for a missing or zero duration. */
  lemma DurationUnknown(duration: Option<int>)
    ensures FormatDuration(duration) == "Unknown" <==> duration.None? || duration.value == 0
  {
    var r := FormatDuration(duration);
    if duration.Some? && duration.value != 0 {
      assert r[|r| - 1] == 's';
      assert "Unknown"[6] == 'n';
    }
  }

  // ---------------------------------------------------------------- upload date

  /** The upload date as the info panel shows it: an eight-character value
      YYYYMMDD becomes YYYY-MM-DD; a missing date (shown as "N/A") or one of any
      other length is not shown. */
  function FormatUploadDate(uploadDate: Option<string>): (r: Option<string>)
    ensures r.Some? <==> uploadDate.Some? && |uploadDate.value| == 8
    ensures r.Some? ==>
      |r.value| == 10 && r.value[4] == '-' && r.value[7] == '-' &&
      r.value[..4] + r.value[5..7] + r.value[8..] == uploadDate.value
  {
    var d := uploadDate.GetOr("N/A");
    if d != "N/A" && |d| == 8 then
      var s := d[..4] + "-" + d[4..6] + "-" + d[6..];
      assert s[..4] == d[..4] && s[5..7] == d[4..6] && s[8..] == d[6..];
      assert d == d[..4] + d[4..6] + d[6..];
      Some(s)
    else None
  }

  // ---------------------------------------------------------------- available heights

  /** A format whose height is listed: its codec is not 'none' (a missing codec
      counts as video) and its height is present and not zero. */
  predicate ShowsHeight(f: FormatDesc)
    ensures ShowsHeight(f) <==>
      (f.vcodec.None? || f.vcodec.value != "none") && f.height.Some? && f.height.value != 0
  {
    f.vcodec != Some("none") && f.height.Some? && f.height.value != 0
  }

  predicate StrictlyDescending(s: seq<int>) {
    forall i, j :: 0 <= i < j < |s| ==> s[i] > s[j]
  }

  /** Puts a new value into its place in a strictly descending sequence. */
  function InsertDescending(s: seq<int>, x: int): (r: seq<int>)
    requires StrictlyDescending(s) && x !in s
    ensures StrictlyDescending(r)
    ensures |r| == |s| + 1
    ensures forall y :: y in r <==> y in s || y == x
  {
    if s == [] || x > s[0] then [x] + s
    else
      var tail := InsertDescending(s[1..], x);
      assert forall y :: y in tail ==> y < s[0];
      assert forall i :: 0 <= i < |tail| ==> tail[i] in tail;
      [s[0]] + tail
  }

  /** The distinct listed heights, highest first.  The downloader collects them into
      a set and sorts it in reverse; here each new height is put into its place in
      the descending list as it is met, which yields the same list. */
  method AvailableHeights(formats: seq<FormatDesc>) returns (heights: seq<int>)
    ensures StrictlyDescending(heights)
    ensures forall h :: h in heights <==>
              exists i :: 0 <= i < |formats| && ShowsHeight(formats[i]) && formats[i].height.value == h
  {
    heights := [];
    for i := 0 to |formats|
      invariant StrictlyDescending(heights)
      invariant forall h :: h in heights <==>
                  exists j :: 0 <= j < i && ShowsHeight(formats[j]) && formats[j].height.value == h
    {
      var f := formats[i];
      if ShowsHeight(f) && f.height.value !in heights {
        heights := InsertDescending(heights, f.height.value);
      }
    }
  }

  /** A strictly descending sequence is determined by its elements: there is only
      one way to list a set of heights highest first, without repeats. */
  lemma {:induction false} DescendingUnique(a: seq<int>, b: seq<int>)
    requires StrictlyDescending(a) && StrictlyDescending(b)
    requires forall x :: x in a <==> x in b
    ensures a == b
  {
    assert a != [] ==> a[0] in a;
    assert b != [] ==> b[0] in b;
    if a != [] && b != [] {
      assert a[0] == b[0];
      forall x
        ensures x in a[1..] <==> x in b[1..]
      {
        if x in a[1..] {
          var i :| 1 <= i < |a| && a[i] == x;
          assert x < a[0];
          assert x in b && x != b[0];
          var j :| 0 <= j < |b| && b[j] == x;
          assert b[1..][j - 1] == x;
        }
        if x in b[1..] {
          var j :| 1 <= j < |b| && b[j] == x;
          assert x < b[0];
          assert x in a && x != a[0];
          var i :| 0 <= i < |a| && a[i] == x;
          assert a[1..][i - 1] == x;
        }
      }
      DescendingUnique(a[1..], b[1..]);
      assert a == [a[0]] + a[1..] && b == [b[0]] + b[1..];
    }
  }
}
