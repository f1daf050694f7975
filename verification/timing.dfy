/**
 * Time arithmetic of the renderer: subtitle cue timing, the SubRip
 * `HH:MM:SS,mmm` timestamp, the 15-second clip cut, the playback-speed clamp
 * and the start of the background music fade.
 *
 * Go's float64 is modelled by exact reals; its truncating `int()`
 * conversion and truncating `%` are written out.
 */
module Timing {
  import opened Types
  import opened Wrappers

  // ---------------------------------------------------------------------
  // Subtitle cues
  // ---------------------------------------------------------------------

  /** One SubRip cue: its number, its span in seconds and its text. */
  datatype Cue = Cue(number: int, start: real, end: real, text: string)

  /** The sum of the chapters' durations: where cue k starts is the sum over the chapters before it. */
  function TotalDuration(chapters: seq<Chapter>): real {
    if |chapters| == 0 then 0.0 else TotalDuration(chapters[..|chapters| - 1]) + chapters[|chapters| - 1].duration
  }

  /** The cues for `chapters`, numbered from `number` and starting at time `t`, each as long as its chapter. */
  function CuesFrom(chapters: seq<Chapter>, t: real, number: int): (r: seq<Cue>)
    ensures |r| == |chapters|
    ensures |r| > 0 ==> r[0].start == t
    ensures forall k :: 0 <= k < |r| ==>
      r[k].number == number + k && r[k].text == chapters[k].narration
      && r[k].end == r[k].start + chapters[k].duration
  {
    if |chapters| == 0 then []
    else
      var rest := CuesFrom(chapters[1..], t + chapters[0].duration, number + 1);
      [Cue(number, t, t + chapters[0].duration, chapters[0].narration)] + rest
  }

  /** The cues of a whole story: numbered from 1 and starting at 0. */
  function Cues(chapters: seq<Chapter>): (r: seq<Cue>)
    ensures |r| == |chapters|
    ensures |r| > 0 ==> r[0].start == 0.0
    ensures forall k :: 0 <= k < |r| ==>
      r[k].number == k + 1 && r[k].text == chapters[k].narration && r[k].end == r[k].start + chapters[k].duration
  {
    CuesFrom(chapters, 0.0, 1)
  }

  predicate Abutting(cues: seq<Cue>) {
    forall k :: 0 < k < |cues| ==> cues[k].start == cues[k - 1].end
  }

  /** Each cue starts exactly where the previous one ended: no gap and no overlap. */
  lemma {:induction false} CuesAbut(chapters: seq<Chapter>, t: real, number: int)
    ensures Abutting(CuesFrom(chapters, t, number))
  {
    if |chapters| > 0 {
      CuesAbut(chapters[1..], t + chapters[0].duration, number + 1);
      var r := CuesFrom(chapters, t, number);
      var rest := CuesFrom(chapters[1..], t + chapters[0].duration, number + 1);
      forall k | 0 < k < |r| ensures r[k].start == r[k - 1].end {
        assert r[k] == rest[k - 1];
        if k > 1 {
          assert r[k - 1] == rest[k - 2];
          assert rest[k - 1].start == rest[(k - 1) - 1].end;
        }
      }
    }
  }

  lemma TotalDurationStep(chapters: seq<Chapter>, k: nat)
    requires k < |chapters|
    ensures TotalDuration(chapters[..k + 1]) == TotalDuration(chapters[..k]) + chapters[k].duration
  {
    assert chapters[..k + 1][..k] == chapters[..k];
  }

  /** Cue k starts at the summed durations of the chapters before it. */
  lemma {:induction false} CueStartIsPrefixSum(chapters: seq<Chapter>, k: nat)
    requires k < |chapters|
    ensures Cues(chapters)[k].start == TotalDuration(chapters[..k])
    ensures Cues(chapters)[k].end == TotalDuration(chapters[..k + 1])
  {
    var r := Cues(chapters);
    CuesAbut(chapters, 0.0, 1);
    TotalDurationStep(chapters, k);
    if k == 0 {
      assert chapters[..0] == [];
    } else {
      assert r == CuesFrom(chapters, 0.0, 1);
      assert r[k].start == r[k - 1].end;
      CueStartIsPrefixSum(chapters, k - 1);
    }
  }

  // ---------------------------------------------------------------------
  // SubRip timestamps
  // ---------------------------------------------------------------------

  /** Go's int(x) for a float: truncation toward zero. */
  function Trunc(x: real): (n: int)
    ensures x >= 0.0 ==> n as real <= x < n as real + 1.0 && n >= 0
    ensures x < 0.0 ==> n as real - 1.0 < x <= n as real && n <= 0
  {
    if x >= 0.0 then x.Floor else -((-x).Floor)
  }

  /** Go's % on ints: the remainder takes the sign of the dividend. */
  function GoRem(a: int, b: int): (r: int)
    requires b > 0
    ensures a >= 0 ==> r == a % b
    ensures -b < r < b
  {
    if a >= 0 then a % b else -((-a) % b)
  }

  /** The four fields of formatSRTTime: hours, minutes, seconds, milliseconds. */
  datatype Clock = Clock(hours: int, minutes: int, seconds: int, millis: int)

  function SrtClock(s: real): Clock {
    var h := Trunc(s / 3600.0);
    var m := Trunc((s - (h * 3600) as real) / 60.0);
    var sec := GoRem(Trunc(s), 60);
    var ms := Trunc((s - Trunc(s) as real) * 1000.0);
    Clock(h, m, sec, ms)
  }

  /** Dividing by a positive real keeps bounds that hold after scaling. */
  lemma RealDivBounds(x: real, dr: real, lo: real, hi: real)
    requires dr > 0.0 && lo * dr <= x < hi * dr
    ensures lo <= x / dr < hi
  {
    var y := x / dr;
    assert y * dr == x;
    if y < lo {
      MulMonotone(y, lo, dr);
    }
    if y >= hi {
      MulMonotone(hi, y, dr);
    }
  }

  lemma FloorDiv(x: real, d: nat)
    requires x >= 0.0 && d > 0
    ensures (x / d as real).Floor == x.Floor / d
  {
    var n := x.Floor;
    var q, r := n / d, n % d;
    assert n == d * q + r && 0 <= r < d;
    assert (d * q) as real == q as real * d as real;
    assert (n + 1) as real <= (d * (q + 1)) as real;
    assert (d * (q + 1)) as real == (q + 1) as real * d as real;
    RealDivBounds(x, d as real, q as real, (q + 1) as real);
  }

  /** The hours and minutes of formatSRTTime are the whole hours and the whole minutes left over. */
  lemma SrtHoursMinutes(s: real)
    requires s >= 0.0
    ensures var c := SrtClock(s);
      c.hours == s.Floor / 3600 && c.minutes == (s.Floor % 3600) / 60
  {
    var c := SrtClock(s);
    var n := s.Floor;
    FloorDiv(s, 3600);
    assert c.hours == n / 3600;
    var rest := s - (c.hours * 3600) as real;
    assert rest.Floor == n - c.hours * 3600;
    FloorDiv(rest, 60);
    assert n - c.hours * 3600 == n % 3600;
  }

  /**
   * For a non-negative time the fields are in range and name the time:
   * the whole seconds are hours * 3600 + minutes * 60 + seconds and the
   * milliseconds are the truncated thousandths of the fractional part.
   */
  lemma SrtClockMeaning(s: real)
    requires s >= 0.0
    ensures var c := SrtClock(s);
      0 <= c.minutes < 60 && 0 <= c.seconds < 60 && 0 <= c.millis < 1000 && c.hours >= 0
      && c.hours * 3600 + c.minutes * 60 + c.seconds == s.Floor
      && c.millis as real <= (s - s.Floor as real) * 1000.0 < c.millis as real + 1.0
  {
    var c := SrtClock(s);
    var n := s.Floor;
    SrtHoursMinutes(s);
    assert Trunc(s) == n;
    assert c.seconds == n % 60;
    ClockSum(n);
    var frac := s - n as real;
    assert 0.0 <= frac < 1.0;
    assert 0.0 <= frac * 1000.0 < 1000.0;
  }

  /** Whole hours, leftover minutes and leftover seconds add back up. */
  lemma ClockSum(n: int)
    requires n >= 0
    ensures (n / 3600) * 3600 + ((n % 3600) / 60) * 60 + n % 60 == n
  {
    var h, r := n / 3600, n % 3600;
    var m, sec := r / 60, r % 60;
    assert n == h * 3600 + r;
    assert r == m * 60 + sec;
    assert n == (h * 60 + m) * 60 + sec;
    assert n % 60 == sec;
  }

  function DigitChar(d: int): char
    requires 0 <= d < 10
  {
    "0123456789"[d]
  }

  /** Decimal digits of n, without leading zeros. */
  function Digits(n: nat): (r: string)
    ensures |r| > 0
    ensures n < 10 ==> |r| == 1
    ensures 10 <= n < 100 ==> |r| == 2
    ensures 100 <= n < 1000 ==> |r| == 3
  {
    if n < 10 then [DigitChar(n)] else Digits(n / 10) + [DigitChar(n % 10)]
  }

  function ZeroPad(s: string, width: int): (r: string)
    ensures |r| == if |s| < width then width else |s|
  {
    if |s| < width then seq(width - |s|, _ => '0') + s else s
  }

  /** Go's %0Nd: zero-padded to `width` characters, the sign counting toward the width. */
  function PadInt(n: int, width: int): string {
    if n < 0 then "-" + ZeroPad(Digits(-n), width - 1) else ZeroPad(Digits(n), width)
  }

  /** formatSRTTime: "%02d:%02d:%02d,%03d" of the four fields. */
  function FormatSrtTime(s: real): string {
    var c := SrtClock(s);
    PadInt(c.hours, 2) + ":" + PadInt(c.minutes, 2) + ":" + PadInt(c.seconds, 2) + "," + PadInt(c.millis, 3)
  }

  function DigitValue(c: char): int {
    if '0' <= c <= '9' then (c - '0') as int else 0
  }

  /** Reads a decimal numeral. */
  function ParseNat(s: string): int {
    if |s| == 0 then 0 else ParseNat(s[..|s| - 1]) * 10 + DigitValue(s[|s| - 1])
  }

  lemma {:induction false} ParseDigits(n: nat)
    ensures ParseNat(Digits(n)) == n
  {
    if n >= 10 {
      var d := Digits(n);
      assert d[..|d| - 1] == Digits(n / 10);
      ParseDigits(n / 10);
    }
  }

  lemma {:induction false} ParseLeadingZeros(z: nat, s: string)
    ensures ParseNat(seq(z, _ => '0') + s) == ParseNat(s)
    decreases |s|, z
  {
    if |s| > 0 {
      var t := seq(z, _ => '0') + s;
      assert t[..|t| - 1] == seq(z, _ => '0') + s[..|s| - 1];
      ParseLeadingZeros(z, s[..|s| - 1]);
    } else if z > 0 {
      var t := seq(z, _ => '0');
      assert seq(z, _ => '0') + s == t;
      assert t[..|t| - 1] == seq(z - 1, _ => '0') + s;
      assert DigitValue(t[|t| - 1]) == 0;
      ParseLeadingZeros(z - 1, s);
    }
  }

  lemma PadRoundTrip(n: nat, width: int)
    ensures ParseNat(PadInt(n, width)) == n
  {
    ParseDigits(n);
    var d := Digits(n);
    if |d| < width {
      ParseLeadingZeros(width - |d|, d);
    }
  }

  /**
   * Below 100 hours the timestamp has SubRip's fixed layout HH:MM:SS,mmm
   * and each field reads back as the clock field it was made from.
   */
  lemma FormatSrtTimeRoundTrip(s: real)
    requires 0.0 <= s < 360000.0
    ensures var t := FormatSrtTime(s); var c := SrtClock(s);
      |t| == 12 && t[2] == ':' && t[5] == ':' && t[8] == ','
      && ParseNat(t[0..2]) == c.hours && ParseNat(t[3..5]) == c.minutes
      && ParseNat(t[6..8]) == c.seconds && ParseNat(t[9..12]) == c.millis
  {
    var c := SrtClock(s);
    SrtClockMeaning(s);
    assert c.hours < 100 by {
      assert s.Floor < 360000;
    }
    var hh, mm, ss, ms := PadInt(c.hours, 2), PadInt(c.minutes, 2), PadInt(c.seconds, 2), PadInt(c.millis, 3);
    PadRoundTrip(c.hours, 2);
    PadRoundTrip(c.minutes, 2);
    PadRoundTrip(c.seconds, 2);
    PadRoundTrip(c.millis, 3);
    var t := FormatSrtTime(s);
    assert t == hh + ":" + mm + ":" + ss + "," + ms;
    assert |hh| == 2 && |mm| == 2 && |ss| == 2 && |ms| == 3;
    assert t[0..2] == hh && t[3..5] == mm && t[6..8] == ss && t[9..12] == ms;
  }

  // ---------------------------------------------------------------------
  // Clip cut, speed clamp, music fade
  // ---------------------------------------------------------------------

  /** Longest stretch of a source video one chapter shows. */
  const TargetClipSeconds: real := 15.0
  const MinSpeed: real := 0.5
  const MaxSpeed: real := 2.0
  const FadeSeconds: real := 3.0

  /** Where a chapter's clip is cut: 15 s after its start, or its end if that comes first. */
  function ClipEnd(start: real, end: real): (e: real)
    ensures e <= end && e <= start + TargetClipSeconds
    ensures e == end || e == start + TargetClipSeconds
  {
    if start + TargetClipSeconds > end then end else start + TargetClipSeconds
  }

  /**
   * The playback speed of a clip with narration: the ratio of clip length
   * to narration length, clamped to [0.5, 2.0]. Without narration audio, or
   * with a non-positive narration length, the clip is not re-timed.
   */
  function ClipSpeed(clipSeconds: real, audioPath: string, audioSeconds: real): (r: Option<real>)
    ensures r.Some? <==> audioPath != "" && audioSeconds > 0.0
    ensures r.Some? ==> MinSpeed <= r.value <= MaxSpeed
  {
    if audioPath != "" && audioSeconds > 0.0 then
      var f := clipSeconds / audioSeconds;
      Some(if f < MinSpeed then MinSpeed else if f > MaxSpeed then MaxSpeed else f)
    else None
  }

  /**
   * Re-timing fits the clip to its narration whenever a speed within the
   * band does; otherwise the clip ends up as close as the band allows:
   * twice its length when the narration is longer, half when shorter.
   */
  lemma ClipSpeedFitsNarration(clipSeconds: real, audioPath: string, audioSeconds: real)
    requires audioPath != "" && audioSeconds > 0.0
    ensures var v := ClipSpeed(clipSeconds, audioPath, audioSeconds).value;
      var played := clipSeconds / v;
      (MinSpeed * audioSeconds <= clipSeconds <= MaxSpeed * audioSeconds ==> played == audioSeconds)
      && (clipSeconds < MinSpeed * audioSeconds ==> played == clipSeconds * 2.0 && played < audioSeconds)
      && (clipSeconds > MaxSpeed * audioSeconds ==> played == clipSeconds / 2.0 && played > audioSeconds)
  {
    var f := clipSeconds / audioSeconds;
    assert f * audioSeconds == clipSeconds;
    if clipSeconds < MinSpeed * audioSeconds {
      assert f < MinSpeed;
    } else if clipSeconds > MaxSpeed * audioSeconds {
      if f <= MaxSpeed {
        MulMonotone(f, MaxSpeed, audioSeconds);
      }
    }
  }

  lemma MulMonotone(f: real, g: real, a: real)
    requires f <= g && a > 0.0
    ensures f * a <= g * a
  {
  }

  /** The music fades out over the last three seconds, never starting before 0. */
  function FadeStart(videoSeconds: real): (r: real)
    ensures r >= 0.0
    ensures videoSeconds >= FadeSeconds ==> r + FadeSeconds == videoSeconds
    ensures videoSeconds < FadeSeconds ==> r == 0.0
  {
    var t := videoSeconds - FadeSeconds;
    if t < 0.0 then 0.0 else t
  }
}
