/**
 * The duration formatter `formatTime` of src/utils/time.ts, which turns a
 * number of milliseconds into "45s", "12m 5s" or "2h 15m". Durations are
 * whole milliseconds here.
 */
module Time {
  import opened Wrappers
  import opened Text

  const SECONDS_PER_MINUTE: nat := 60
  const SECONDS_PER_HOUR: nat := 3600

  /** A whole number of seconds split into hours, minutes and seconds. */
  datatype Clock = Clock(hours: nat, mins: nat, secs: nat)

  /** The split formatTime uses once a duration reaches a minute. */
  function Split(totalSec: nat): (c: Clock)
    ensures c.mins < 60 && c.secs < 60
    ensures c.hours * 3600 + c.mins * 60 + c.secs == totalSec
  {
    var r := totalSec % SECONDS_PER_HOUR;
    assert totalSec == totalSec / SECONDS_PER_HOUR * 3600 + r;
    assert totalSec % SECONDS_PER_MINUTE == r % SECONDS_PER_MINUTE;
    Clock(totalSec / SECONDS_PER_HOUR, r / SECONDS_PER_MINUTE, totalSec % SECONDS_PER_MINUTE)
  }

  /** Whole seconds in `ms`: `Math.floor(ms / 1000)`, which is Dafny's `/` for a positive divisor. */
  function WholeSeconds(ms: int): int {
    ms / 1000
  }

  /** formatTime: seconds below a minute, minutes and seconds below an hour, else hours and minutes. */
  function FormatTime(ms: int): (r: string)
    ensures |r| >= 2 && (r[|r| - 1] == 's' || r[|r| - 1] == 'm')
  {
    var totalSec := WholeSeconds(ms);
    if totalSec < SECONDS_PER_MINUTE then IntToString(totalSec) + "s"
    else
      var c := Split(totalSec);
      if c.hours > 0 then NatToString(c.hours) + "h " + NatToString(c.mins) + "m"
      else NatToString(c.mins) + "m " + NatToString(c.secs) + "s"
  }

  /** Milliseconds below a whole second never change the text. */
  lemma FormatTimeIgnoresSubSeconds(ms: int, ms': int)
    requires WholeSeconds(ms) == WholeSeconds(ms')
    ensures FormatTime(ms) == FormatTime(ms')
  {
  }

  // ---- Reading a formatted duration back ----

  /** What a formatted duration shows: "<s>s", "<m>m <s>s" or "<h>h <m>m". */
  datatype Shown = Seconds(secs: nat) | MinSec(mins: nat, secs: nat) | HourMin(hours: nat, mins: nat)

  /** Splits "<digits><unit>" into the number and the unit letter. */
  function ReadPart(s: string): Option<(nat, char)> {
    if |s| < 2 then None
    else match ParseNat(s[..|s| - 1])
      case Some(n) => Some((n, s[|s| - 1]))
      case None => None
  }

  /** Reads the text of a non-negative duration back into its displayed parts. */
  function ReadDuration(s: string): Option<Shown> {
    match IndexOf(s, ' ')
    case None =>
      (match ReadPart(s)
       case Some((n, 's')) => Some(Seconds(n))
       case _ => None)
    case Some(i) =>
      (match (ReadPart(s[..i]), ReadPart(s[i + 1..]))
       case (Some((h, 'h')), Some((m, 'm'))) => Some(HourMin(h, m))
       case (Some((m, 'm')), Some((sec, 's'))) => Some(MinSec(m, sec))
       case _ => None)
  }

  lemma ReadPartOf(n: nat, unit: char)
    requires !IsDigit(unit)
    ensures ReadPart(NatToString(n) + [unit]) == Some((n, unit))
  {
    var s := NatToString(n) + [unit];
    assert s[..|s| - 1] == NatToString(n);
    ParseNatToString(n);
  }

  lemma ReadPairOf(a: nat, u: char, b: nat, v: char)
    requires !IsDigit(u) && !IsDigit(v) && u != ' '
    ensures var s := NatToString(a) + [u, ' '] + NatToString(b) + [v];
            ReadDuration(s) == match (u, v)
              case ('h', 'm') => Some(HourMin(a, b))
              case ('m', 's') => Some(MinSec(a, b))
              case _ => None
  {
    var head := NatToString(a) + [u];
    var tail := NatToString(b) + [v];
    var s := NatToString(a) + [u, ' '] + NatToString(b) + [v];
    assert s == head + [' '] + tail;
    assert forall i :: 0 <= i < |head| ==> head[i] != ' ' by {
      assert forall i :: 0 <= i < |head| - 1 ==> head[i] == NatToString(a)[i];
    }
    IndexOfAfterPrefix(head, ' ', tail);
    assert s[..|head|] == head;
    assert s[|head| + 1..] == tail;
    ReadPartOf(a, u);
    ReadPartOf(b, v);
  }

  /**
   * The text of a non-negative duration shows exactly its whole seconds
   * below an hour, and from an hour on the hours and minutes, the seconds
   * being dropped; minutes and seconds shown are always below 60.
   */
  lemma FormatTimeReadBack(ms: nat)
    ensures var t := WholeSeconds(ms);
            match ReadDuration(FormatTime(ms))
            case None => false
            case Some(Seconds(s)) => t < 60 && s == t
            case Some(MinSec(m, s)) => 60 <= t < 3600 && 1 <= m < 60 && s < 60 && m * 60 + s == t
            case Some(HourMin(h, m)) => t >= 3600 && h >= 1 && m < 60 && h * 3600 + m * 60 <= t < h * 3600 + m * 60 + 60
  {
    var t := WholeSeconds(ms);
    if t < 60 {
      var s := NatToString(t) + "s";
      assert forall i :: 0 <= i < |s| ==> s[i] != ' ';
      ReadPartOf(t, 's');
    } else {
      var c := Split(t);
      if c.hours > 0 {
        ReadPairOf(c.hours, 'h', c.mins, 'm');
        assert FormatTime(ms) == NatToString(c.hours) + ['h', ' '] + NatToString(c.mins) + ['m'];
      } else {
        ReadPairOf(c.mins, 'm', c.secs, 's');
        assert FormatTime(ms) == NatToString(c.mins) + ['m', ' '] + NatToString(c.secs) + ['s'];
      }
    }
  }
}
