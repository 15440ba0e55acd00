/** The newest frame id observed so far. */
module Freshness {
  import opened Wrappers
  import opened Actions

  datatype Status = Fresh | Stale | Unknown

  function Observe(latest: Option<int>, frameId: int): Option<int> {
    if latest.None? || frameId > latest.value then Some(frameId) else latest
  }

  class FreshnessTracker {
    var latest: Option<int>

    constructor ()
      ensures latest == None
    {
      latest := None;
    }

    /** latest is the largest frame id observed. */
    method ObserveFrame(frameId: int)
      modifies this
      ensures latest.Some? && latest.value >= frameId
      ensures old(latest).Some? ==> latest.value >= old(latest).value
      ensures latest == Some(frameId) || latest == old(latest)
      ensures latest == Observe(old(latest), frameId)
    {
      if latest.None? || frameId > latest.value {
        latest := Some(frameId);
      }
    }

    /** Fresh only for the very newest frame. */
    function Check(a: Action): (r: Status)
      reads this
      ensures r == Fresh <==> latest == Some(a.frameId) && a.frameId >= 0
      ensures r == Stale ==> latest.Some? && latest.value != a.frameId
    {
      if latest.None? then Unknown
      else if a.frameId < 0 then Unknown
      else if a.frameId == latest.value then Fresh
      else Stale
    }
  }
}
