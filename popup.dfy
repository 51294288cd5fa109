/** The copy of the duration formatter in popup.js, written with literal 60 and 3600. */
module Popup {
  import opened Text
  import Time

  function FormatTime(ms: int): (r: string)
    ensures |r| >= 2 && (r[|r| - 1] == 's' || r[|r| - 1] == 'm')
  {
    var totalSec := ms / 1000;
    if totalSec < 60 then IntToString(totalSec) + "s"
    else
      var hours := totalSec / 3600;
      var mins := (totalSec % 3600) / 60;
      var secs := totalSec % 60;
      if hours > 0 then NatToString(hours) + "h " + NatToString(mins) + "m"
      else NatToString(mins) + "m " + NatToString(secs) + "s"
  }

  /** The popup's copy gives the same text as the shared utility for every input. */
  lemma FormatTimeMatchesUtility(ms: int)
    ensures FormatTime(ms) == Time.FormatTime(ms)
  {
  }
}
