/**
 The contest object: time strings are authoritative, the absolute times are derived
 from them, and the removed intervals are kept in storage order.
 */
module ContestEntity {
  import opened Wrappers
  import opened ContestClock
  import opened ContestState
  import opened Numbers
  import opened StableSort

  /** A time string after parsing: missing, relative to the start, absolute, or not a time at all. */
  datatype TimeString = Missing | Relative(offset: int) | Absolute(time: int) | Malformed

  /** The absolute time a string stands for, given start time and removed intervals. */
  function Resolve(start: int, ivs: seq<Interval>, s: TimeString): Option<int> {
    match s
    case Missing => None
    case Relative(r) => Some(AbsoluteTime(start, Usort(ivs), r))
    case Absolute(t) => Some(t)
    case Malformed => None
  }

  /** strtotime: whole seconds only; an unparsable string counts as zero. */
  function WholeSeconds(s: TimeString): int {
    if s.Absolute? then s.time - s.time % 1000 else 0
  }

  class Contest {
    var startTime: int
    var startTimeEnabled: bool
    var startTimeString: TimeString
    var activateTimeString: TimeString
    var freezeTimeString: TimeString
    var endTimeString: TimeString
    var unfreezeTimeString: TimeString
    var deactivateTimeString: TimeString
    var activateTime: Option<int>
    var freezeTime: Option<int>
    var endTime: Option<int>
    var unfreezeTime: Option<int>
    var finalizeTime: Option<int>
    var deactivateTime: Option<int>
    var removedIntervals: seq<Interval>

    constructor (start: TimeString, activate: TimeString, freeze: TimeString, end: TimeString,
                 unfreeze: TimeString, deactivate: TimeString, enabled: bool, ivs: seq<Interval>)
      ensures UpToDate()
      ensures startTimeString == start && removedIntervals == ivs && startTimeEnabled == enabled
    {
      startTimeString, activateTimeString, freezeTimeString := start, activate, freeze;
      endTimeString, unfreezeTimeString, deactivateTimeString := end, unfreeze, deactivate;
      startTimeEnabled, removedIntervals, finalizeTime := enabled, ivs, None;
      new;
      UpdateTimes();
    }

    function Milestones(): Times
      reads this
    {
      Times(startTime, startTimeEnabled, activateTime, freezeTime, endTime, unfreezeTime, finalizeTime, deactivateTime)
    }

    /** Every derived time is what its string resolves to under the current start time. */
    ghost predicate Derived()
      reads this
    {
      && activateTime == Resolve(startTime, removedIntervals, activateTimeString)
      && freezeTime == Resolve(startTime, removedIntervals, freezeTimeString)
      && endTime == Resolve(startTime, removedIntervals, endTimeString)
      && unfreezeTime == Resolve(startTime, removedIntervals, unfreezeTimeString)
      && deactivateTime == Resolve(startTime, removedIntervals, deactivateTimeString)
    }

    ghost predicate UpToDate()
      reads this
    {
      startTime == WholeSeconds(startTimeString) && Derived()
    }

    method GetContestTime(wallTime: int) returns (contestTime: int)
      ensures contestTime == ContestTime(startTime, removedIntervals, wallTime)
    {
      contestTime := wallTime - startTime;
      var i := 0;
      while i < |removedIntervals|
        invariant 0 <= i <= |removedIntervals|
        invariant contestTime - Clipped(removedIntervals[i..], wallTime) ==
                    ContestTime(startTime, removedIntervals, wallTime)
      {
        var iv := removedIntervals[i];
        assert removedIntervals[i..][1..] == removedIntervals[i + 1..];
        if iv.start - wallTime < 0 {
          contestTime := contestTime - Min(wallTime - iv.start, iv.end - iv.start);
        }
        i := i + 1;
      }
    }

    method GetAbsoluteTime(s: TimeString) returns (t: Option<int>)
      ensures t == Resolve(startTime, removedIntervals, s)
    {
      match s
      case Missing => t := None;
      case Relative(r) =>
        var absoluteTime := startTime + r;
        var sorted := Usort(removedIntervals);
        var i := 0;
        while i < |sorted|
          invariant 0 <= i <= |sorted|
          invariant Cascade(sorted[i..], absoluteTime) == AbsoluteTime(startTime, sorted, r)
        {
          assert sorted[i..][1..] == sorted[i + 1..];
          if sorted[i].start - absoluteTime <= 0 {
            absoluteTime := absoluteTime + (sorted[i].end - sorted[i].start);
          }
          i := i + 1;
        }
        t := Some(absoluteTime);
      case Absolute(time) => t := Some(time);
      case Malformed => t := None;
    }

    method SetStarttime(start: int)
      modifies `startTime
      ensures startTime == start
    {
      startTime := start;
    }

    method SetActivatetimeString(s: TimeString)
      modifies `activateTimeString, `activateTime
      ensures activateTimeString == s && activateTime == Resolve(startTime, removedIntervals, s)
    {
      activateTimeString := s;
      activateTime := GetAbsoluteTime(s);
    }

    method SetFreezetimeString(s: TimeString)
      modifies `freezeTimeString, `freezeTime
      ensures freezeTimeString == s && freezeTime == Resolve(startTime, removedIntervals, s)
    {
      freezeTimeString := s;
      freezeTime := GetAbsoluteTime(s);
    }

    method SetEndtimeString(s: TimeString)
      modifies `endTimeString, `endTime
      ensures endTimeString == s && endTime == Resolve(startTime, removedIntervals, s)
    {
      endTimeString := s;
      endTime := GetAbsoluteTime(s);
    }

    method SetUnfreezetimeString(s: TimeString)
      modifies `unfreezeTimeString, `unfreezeTime
      ensures unfreezeTimeString == s && unfreezeTime == Resolve(startTime, removedIntervals, s)
    {
      unfreezeTimeString := s;
      unfreezeTime := GetAbsoluteTime(s);
    }

    method SetDeactivatetimeString(s: TimeString)
      modifies `deactivateTimeString, `deactivateTime
      ensures deactivateTimeString == s && deactivateTime == Resolve(startTime, removedIntervals, s)
    {
      deactivateTimeString := s;
      deactivateTime := GetAbsoluteTime(s);
    }

    /** Re-derives the other times, but under the start time already stored, not the one in s. */
    method SetStarttimeString(s: TimeString)
      modifies `startTimeString, `activateTimeString, `activateTime, `freezeTimeString, `freezeTime, `endTimeString,
               `endTime, `unfreezeTimeString, `unfreezeTime, `deactivateTimeString, `deactivateTime
      ensures startTimeString == s && Derived()
      ensures activateTimeString == old(activateTimeString) && freezeTimeString == old(freezeTimeString)
      ensures endTimeString == old(endTimeString) && unfreezeTimeString == old(unfreezeTimeString)
      ensures deactivateTimeString == old(deactivateTimeString)
    {
      startTimeString := s;
      SetActivatetimeString(activateTimeString);
      SetFreezetimeString(freezeTimeString);
      SetEndtimeString(endTimeString);
      SetUnfreezetimeString(unfreezeTimeString);
      SetDeactivatetimeString(deactivateTimeString);
    }

    method UpdateTimes()
      modifies `startTime, `startTimeString, `activateTimeString, `activateTime, `freezeTimeString, `freezeTime,
               `endTimeString, `endTime, `unfreezeTimeString, `unfreezeTime, `deactivateTimeString, `deactivateTime
      ensures UpToDate() && startTimeString == old(startTimeString)
      ensures activateTimeString == old(activateTimeString) && freezeTimeString == old(freezeTimeString)
      ensures endTimeString == old(endTimeString) && unfreezeTimeString == old(unfreezeTimeString)
      ensures deactivateTimeString == old(deactivateTimeString)
      ensures old(UpToDate()) ==> Milestones() == old(Milestones())
    {
      SetStarttime(WholeSeconds(startTimeString));
      SetStarttimeString(startTimeString);
    }

    /** The checks on times made by `validate`, in the order in which they are reported. */
    method Validate() returns (violations: seq<Violation>)
      modifies `startTime, `startTimeString, `activateTimeString, `activateTime, `freezeTimeString, `freezeTime,
               `endTimeString, `endTime, `unfreezeTimeString, `unfreezeTime, `deactivateTimeString, `deactivateTime
      ensures UpToDate() && violations == Violations(Milestones())
    {
      UpdateTimes();
      violations := ValidateEarly();
      var end := OrZero(endTime);
      if !Empty(unfreezeTime) {
        if Empty(freezeTime) {
          violations := violations + [UnfreezeWithoutFreeze];
        }
        if unfreezeTime.value - end < 0 {
          violations := violations + [UnfreezeBeforeEnd];
        }
        if !Empty(deactivateTime) && deactivateTime.value - unfreezeTime.value < 0 {
          violations := violations + [DeactivateBeforeUnfreeze];
        }
      } else {
        if !Empty(deactivateTime) && deactivateTime.value - end < 0 {
          violations := violations + [DeactivateBeforeEnd];
        }
      }
    }

    method ValidateEarly() returns (violations: seq<Violation>)
      ensures violations == EarlyViolations(Milestones())
    {
      violations := [];
      var start := OrZero(if startTimeEnabled then Some(startTime) else None);
      var end := OrZero(endTime);
      if end - start <= 0 {
        violations := violations + [EndsBeforeStart];
      }
      if !Empty(freezeTime) {
        if freezeTime.value - end > 0 || freezeTime.value - start < 0 {
          violations := violations + [FreezeOutOfRange];
        }
      }
      if OrZero(activateTime) - startTime > 0 {
        violations := violations + [ActivateAfterStart];
      }
    }

    method TimeOrNull(now: int, time: Option<int>, extra: bool) returns (t: Option<int>)
      ensures t.Some? <==> extra && time.Some? && time.value <= now
      ensures t.Some? ==> t == time
    {
      if !extra || time == None || now < time.value {
        return None;
      }
      return time;
    }

    method GetState(now: int) returns (state: StateObject)
      ensures state == StateAt(Milestones(), now)
    {
      var started := TimeOrNull(now, if startTimeEnabled then Some(startTime) else None, true);
      var ended := TimeOrNull(now, endTime, started != None);
      var frozen := TimeOrNull(now, freezeTime, started != None);
      var thawed := TimeOrNull(now, unfreezeTime, frozen != None);
      var finalized := TimeOrNull(now, finalizeTime, ended != None);
      var endOfUpdates := None;
      if finalized != None && (thawed != None || frozen == None) {
        if thawed != None && freezeTime.value > finalizeTime.value {
          endOfUpdates := thawed;
        } else {
          endOfUpdates := finalized;
        }
      }
      state := StateObject(started, ended, frozen, thawed, finalized, endOfUpdates);
    }
  }

  /** A relative milestone lies at exactly its offset on the contest clock. */
  lemma RelativeMilestoneKeepsOffset(start: int, ivs: seq<Interval>, r: int)
    requires Separate(multiset(ivs)) && Sortable(ivs)
    ensures ContestTime(start, ivs, Resolve(start, ivs, Relative(r)).value) == r
  {
    UsortSortedIff(ivs);
    SortPermutes(ivs, CompareStarts);
    ContestOfAbsolute(start, ivs, Usort(ivs), r);
  }

  /** Relative milestones keep their order, whatever is removed from the contest. */
  lemma RelativeMilestonesKeepOrder(start: int, ivs: seq<Interval>, r: int, r': int)
    requires Separate(multiset(ivs)) && Sortable(ivs)
    ensures r < r' <==> Resolve(start, ivs, Relative(r)).value < Resolve(start, ivs, Relative(r')).value
  {
    UsortSortedIff(ivs);
    SortPermutes(ivs, CompareStarts);
    AbsoluteTimeStrictlyMonotone(start, ivs, Usort(ivs), r, r');
  }

  /** The start time is the last whole second up to the time given; a start that is no absolute time counts as 0. */
  lemma StartIsWholeSecond(s: TimeString)
    ensures WholeSeconds(s) % 1000 == 0
    ensures s.Absolute? ==> WholeSeconds(s) <= s.time < WholeSeconds(s) + 1000
    ensures !s.Absolute? ==> WholeSeconds(s) == 0
  {
    if s.Absolute? {
      var q := s.time / 1000;
      assert s.time == q * 1000 + s.time % 1000;
      assert WholeSeconds(s) == q * 1000;
    }
  }

  /** An absolute milestone is the time given, whatever the start time and the removed intervals are. */
  lemma AbsoluteMilestoneStays(start: int, ivs: seq<Interval>, start': int, ivs': seq<Interval>, time: int)
    ensures Resolve(start, ivs, Absolute(time)) == Resolve(start', ivs', Absolute(time)) == Some(time)
  {
  }
}
