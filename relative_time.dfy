/** The listing endpoint's `formatTimestamp`: the time elapsed since a prayer was
    stored, rendered as "Just now", "N minute(s) ago", "N hour(s) ago" or
    "N day(s) ago". The current instant and the stored instant are passed in as
    milliseconds since the epoch. */
module RelativeTime {
  import opened Common
  import opened Text

  datatype TimeUnit = Minute | Hour | Day

  /** What the formatter shows: nothing more precise than "Just now", or a whole
      number of some unit. */
  datatype Relative = JustNow | Ago(count: nat, unit: TimeUnit)

  function UnitSeconds(u: TimeUnit): nat {
    match u
    case Minute => 60
    case Hour => 3600
    case Day => 86400
  }

  /** `Math.floor((now - stored) / 1000)`. The divisor is positive, so Dafny's
      Euclidean division is the floor, also for a stored instant in the future. */
  function ElapsedSeconds(nowMs: int, storedMs: int): int {
    (nowMs - storedMs) / 1000
  }

  /** The unit and count the formatter picks for an elapsed time in seconds. */
  function Classify(seconds: int): (r: Relative)
    ensures r == JustNow <==> seconds < 60
    ensures r.Ago? ==>
      1 <= r.count && r.count * UnitSeconds(r.unit) <= seconds < (r.count + 1) * UnitSeconds(r.unit)
    ensures r.Ago? ==> (r.unit == Minute <==> seconds < 3600)
    ensures r.Ago? ==> (r.unit == Day <==> seconds >= 86400)
  {
    if seconds < 60 then JustNow
    else if seconds < 3600 then Ago(seconds / 60, Minute)
    else if seconds < 86400 then Ago(seconds / 3600, Hour)
    else Ago(seconds / 86400, Day)
  }

  function UnitName(u: TimeUnit): string {
    match u
    case Minute => "minute"
    case Hour => "hour"
    case Day => "day"
  }

  /** The words after the number: the unit agrees in number with the count. */
  function Suffix(count: nat, u: TimeUnit): string {
    " " + UnitName(u) + (if count == 1 then "" else "s") + " ago"
  }

  function Render(r: Relative): string {
    match r
    case JustNow => "Just now"
    case Ago(n, u) => NatToString(n) + Suffix(n, u)
  }

  /** Length of the run of decimal digits at the front of `s`. */
  function DigitPrefix(s: string): (k: nat)
    ensures k <= |s|
    ensures AllDigits(s[..k])
    ensures k < |s| ==> !IsDigit(s[k])
  {
    if s == [] || !IsDigit(s[0]) then 0
    else
      var k := 1 + DigitPrefix(s[1..]);
      assert s[..k] == [s[0]] + s[1..][..k - 1];
      k
  }

  /** Reads a display string back into what it shows; None for anything the
      formatter cannot produce. */
  function Parse(s: string): Option<Relative> {
    if s == "Just now" then Some(JustNow)
    else
      var k := DigitPrefix(s);
      if k == 0 || (k > 1 && s[0] == '0') then None
      else
        var n := ParseNat(s[..k]);
        var tail := s[k..];
        if tail == Suffix(n, Minute) then Some(Ago(n, Minute))
        else if tail == Suffix(n, Hour) then Some(Ago(n, Hour))
        else if tail == Suffix(n, Day) then Some(Ago(n, Day))
        else None
  }

  lemma {:induction false} DigitPrefixOfNumber(digits: string, rest: string)
    requires AllDigits(digits) && rest != [] && !IsDigit(rest[0])
    ensures DigitPrefix(digits + rest) == |digits|
  {
    if digits != [] {
      assert (digits + rest)[1..] == digits[1..] + rest;
      DigitPrefixOfNumber(digits[1..], rest);
    }
  }

  /** Every display string reads back as what it shows, so distinct relative
      times never share a rendering. */
  lemma {:induction false} ParseRender(r: Relative)
    ensures Parse(Render(r)) == Some(r)
  {
    match r
    case JustNow =>
    case Ago(n, u) =>
      var digits := NatToString(n);
      var s := Render(r);
      assert s[0] == digits[0] && IsDigit(s[0]);
      assert s != "Just now";
      DigitPrefixOfNumber(digits, Suffix(n, u));
      assert s[..|digits|] == digits;
      assert s[|digits|..] == Suffix(n, u);
      ParseNatToString(n);
  }

  /** Whatever reads back is the rendering of what it reads as, so `Parse`
      accepts exactly the formatter's strings. */
  lemma RenderParse(s: string)
    requires Parse(s).Some?
    ensures Render(Parse(s).value) == s
  {
    if s != "Just now" {
      var k := DigitPrefix(s);
      assert s[..k][0] == s[0];
      NatToStringParseNat(s[..k]);
      assert s == s[..k] + s[k..];
    }
  }

  /** `formatTimestamp(timestamp)` evaluated at the instant `nowMs`. */
  function FormatTimestamp(nowMs: int, storedMs: int): (r: string)
    ensures r == "Just now" <==> ElapsedSeconds(nowMs, storedMs) < 60
    ensures Parse(r) == Some(Classify(ElapsedSeconds(nowMs, storedMs)))
  {
    var shown := Classify(ElapsedSeconds(nowMs, storedMs));
    ParseRender(shown);
    ParseRender(JustNow);
    Render(shown)
  }

  /** The singular unit is used exactly when the count is one. */
  lemma SingularExactlyForOne(n: nat, u: TimeUnit)
    ensures Render(Ago(n, u)) == NatToString(n) + " " + UnitName(u) + " ago" <==> n == 1
  {
    var s := Render(Ago(n, u));
    var d := NatToString(n);
    if n != 1 {
      var plain := d + " " + UnitName(u) + " ago";
      assert |s| == |plain| + 1;
    }
  }

  /** The worked examples: 30 seconds, 1 minute, 5 minutes and 2 days ago. */
  lemma ExampleJustNow(nowMs: int)
    ensures FormatTimestamp(nowMs, nowMs - 30_000) == "Just now"
  {
    assert ElapsedSeconds(nowMs, nowMs - 30_000) == 30;
  }

  lemma ExampleOneMinute(nowMs: int)
    ensures FormatTimestamp(nowMs, nowMs - 60_000) == "1 minute ago"
  {
    assert ElapsedSeconds(nowMs, nowMs - 60_000) == 60;
    assert Classify(60) == Ago(1, Minute);
    assert NatToString(1) == "1";
    assert Render(Ago(1, Minute)) == "1 minute ago";
  }

  lemma ExampleFiveMinutes(nowMs: int)
    ensures FormatTimestamp(nowMs, nowMs - 300_000) == "5 minutes ago"
  {
    assert ElapsedSeconds(nowMs, nowMs - 300_000) == 300;
    assert Classify(300) == Ago(5, Minute);
    assert NatToString(5) == "5";
    assert Render(Ago(5, Minute)) == "5 minutes ago";
  }

  lemma ExampleDays(nowMs: int)
    ensures FormatTimestamp(nowMs, nowMs - 172_800_000) == "2 days ago"
  {
    assert ElapsedSeconds(nowMs, nowMs - 172_800_000) == 172_800;
    assert Classify(172_800) == Ago(2, Day);
    assert NatToString(2) == "2";
    assert Render(Ago(2, Day)) == "2 days ago";
  }
}
