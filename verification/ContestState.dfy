/**
 The milestones of a contest: what `validate` demands of them and the contest state
 object computed from them at a given moment (ICPC CCS Contest API, section "Contest state").
 */
module ContestState {
  import opened Wrappers

  datatype Times = Times(
    start: int, startEnabled: bool,
    activate: Option<int>, freeze: Option<int>, end: Option<int>,
    unfreeze: Option<int>, finalize: Option<int>, deactivate: Option<int>)

  datatype Violation =
    | EndsBeforeStart
    | FreezeOutOfRange
    | ActivateAfterStart
    | UnfreezeWithoutFreeze
    | UnfreezeBeforeEnd
    | DeactivateBeforeUnfreeze
    | DeactivateBeforeEnd

  datatype StateObject = StateObject(
    started: Option<int>, ended: Option<int>, frozen: Option<int>,
    thawed: Option<int>, finalized: Option<int>, endOfUpdates: Option<int>)

  /** A missing time cast to a number. */
  function OrZero(t: Option<int>): int {
    if t.Some? then t.value else 0
  }

  /** Missing times and the time zero both count as empty. */
  predicate Empty(t: Option<int>) {
    t == None || t == Some(0)
  }

  function EnabledStart(t: Times): Option<int> {
    if t.startEnabled then Some(t.start) else None
  }

  function Add(vs: seq<Violation>, c: bool, v: Violation): seq<Violation> {
    if c then vs + [v] else vs
  }

  /** The reports on start, end, freeze and activation. */
  function EarlyViolations(t: Times): seq<Violation> {
    var end, start := OrZero(t.end), OrZero(EnabledStart(t));
    var v1 := Add([], end - start <= 0, EndsBeforeStart);
    var v2 := Add(v1, !Empty(t.freeze) && (t.freeze.value > end || t.freeze.value < start), FreezeOutOfRange);
    Add(v2, OrZero(t.activate) > t.start, ActivateAfterStart)
  }

  function Violations(t: Times): seq<Violation> {
    var end, v3 := OrZero(t.end), EarlyViolations(t);
    if Empty(t.unfreeze) then
      Add(v3, !Empty(t.deactivate) && t.deactivate.value < end, DeactivateBeforeEnd)
    else
      var v4 := Add(v3, Empty(t.freeze), UnfreezeWithoutFreeze);
      var v5 := Add(v4, t.unfreeze.value < end, UnfreezeBeforeEnd);
      Add(v5, !Empty(t.deactivate) && t.deactivate.value < t.unfreeze.value, DeactivateBeforeUnfreeze)
  }

  function TimeOrNull(now: int, time: Option<int>, extra: bool): Option<int> {
    if !extra || time == None || now < time.value then None else time
  }

  function StateAt(t: Times, now: int): StateObject {
    var started := TimeOrNull(now, EnabledStart(t), true);
    var ended := TimeOrNull(now, t.end, started != None);
    var frozen := TimeOrNull(now, t.freeze, started != None);
    var thawed := TimeOrNull(now, t.unfreeze, frozen != None);
    var finalized := TimeOrNull(now, t.finalize, ended != None);
    var endOfUpdates :=
      if finalized != None && (thawed != None || frozen == None) then
        if thawed != None && t.freeze.value > t.finalize.value then thawed else finalized
      else None;
    StateObject(started, ended, frozen, thawed, finalized, endOfUpdates)
  }

  /** Times as the database can hold them: its columns are unsigned. */
  ghost predicate Unsigned(t: Times) {
    && 0 <= t.start
    && OrZero(t.activate) >= 0 && OrZero(t.freeze) >= 0 && OrZero(t.end) >= 0
    && OrZero(t.unfreeze) >= 0 && OrZero(t.finalize) >= 0 && OrZero(t.deactivate) >= 0
  }

  ghost predicate Stays(before: Option<int>, after: Option<int>) {
    before != None ==> after == before
  }

  /** The five plain milestones stay set with the same value, for any contest. */
  lemma PlainMilestonesStay(t: Times, now: int, later: int)
    requires now <= later
    ensures var s, s' := StateAt(t, now), StateAt(t, later);
            && Stays(s.started, s'.started) && Stays(s.ended, s'.ended)
            && Stays(s.frozen, s'.frozen) && Stays(s.thawed, s'.thawed) && Stays(s.finalized, s'.finalized)
  {
  }

  /**
   The freeze begins only after start, end and finalization. Unless the thaw time equals the
   finalize time, the announced end of updates is then withdrawn or replaced when it begins.
   */
  predicate FreezesAfterTheEnd(t: Times) {
    && t.startEnabled && t.end.Some? && t.finalize.Some? && t.freeze.Some?
    && t.start < t.freeze.value && t.end.value < t.freeze.value && t.finalize.value < t.freeze.value
    && t.unfreeze != t.finalize
  }

  /** The end of updates, once set, stays set with the same value exactly if no freeze begins after the end. */
  lemma EndOfUpdatesStaysIff(t: Times)
    ensures (forall now, later | now <= later :: Stays(StateAt(t, now).endOfUpdates, StateAt(t, later).endOfUpdates))
            <==> !FreezesAfterTheEnd(t)
  {
    if FreezesAfterTheEnd(t) {
      var f := t.freeze.value;
      assert StateAt(t, f - 1).endOfUpdates == t.finalize;
      assert StateAt(t, f).endOfUpdates != t.finalize;
      assert !Stays(StateAt(t, f - 1).endOfUpdates, StateAt(t, f).endOfUpdates);
    } else {
      forall now, later | now <= later
        ensures Stays(StateAt(t, now).endOfUpdates, StateAt(t, later).endOfUpdates)
      {
        PlainMilestonesStay(t, now, later);
      }
    }
  }

  /** In a contest that passes validation every milestone, once set, stays set with the same value. */
  lemma ValidatedMilestonesStay(t: Times, now: int, later: int)
    requires Violations(t) == [] && Unsigned(t) && now <= later
    ensures var s, s' := StateAt(t, now), StateAt(t, later);
            && Stays(s.started, s'.started) && Stays(s.ended, s'.ended)
            && Stays(s.frozen, s'.frozen) && Stays(s.thawed, s'.thawed)
            && Stays(s.finalized, s'.finalized) && Stays(s.endOfUpdates, s'.endOfUpdates)
  {
    PlainMilestonesStay(t, now, later);
    NoViolations(t);
  }

  lemma AddHas(vs: seq<Violation>, c: bool, v: Violation)
    ensures forall x :: x in Add(vs, c, v) <==> x in vs || (c && x == v)
  {
  }

  /** A time that is given; a time of zero counts as not given. */
  predicate Given(t: Option<int>) {
    t.Some? && t.value != 0
  }

  /** The condition on the times that each violation stands for. */
  predicate Violates(t: Times, v: Violation) {
    match v
    case EndsBeforeStart => OrZero(t.end) <= OrZero(EnabledStart(t))
    case FreezeOutOfRange => Given(t.freeze) && !(OrZero(EnabledStart(t)) <= t.freeze.value <= OrZero(t.end))
    case ActivateAfterStart => OrZero(t.activate) > t.start
    case UnfreezeWithoutFreeze => Given(t.unfreeze) && !Given(t.freeze)
    case UnfreezeBeforeEnd => Given(t.unfreeze) && t.unfreeze.value < OrZero(t.end)
    case DeactivateBeforeUnfreeze =>
      Given(t.deactivate) && Given(t.unfreeze) && t.deactivate.value < t.unfreeze.value
    case DeactivateBeforeEnd => Given(t.deactivate) && !Given(t.unfreeze) && t.deactivate.value < OrZero(t.end)
  }

  lemma EarlyViolationsIff(t: Times, v: Violation)
    ensures v in EarlyViolations(t) <==>
              (v == EndsBeforeStart || v == FreezeOutOfRange || v == ActivateAfterStart) && Violates(t, v)
  {
    var end, start := OrZero(t.end), OrZero(EnabledStart(t));
    var v1 := Add([], end - start <= 0, EndsBeforeStart);
    var outOfRange := !Empty(t.freeze) && (t.freeze.value > end || t.freeze.value < start);
    AddHas([], end - start <= 0, EndsBeforeStart);
    AddHas(v1, outOfRange, FreezeOutOfRange);
    AddHas(Add(v1, outOfRange, FreezeOutOfRange), OrZero(t.activate) > t.start, ActivateAfterStart);
  }

  /** A violation is reported exactly if its condition on the times holds. */
  lemma ReportedIffViolated(t: Times, v: Violation)
    ensures v in Violations(t) <==> Violates(t, v)
  {
    EarlyViolationsIff(t, v);
  }

  lemma NoViolations(t: Times)
    requires Violations(t) == [] && Unsigned(t)
    ensures t.end.Some?
    ensures OrZero(EnabledStart(t)) < OrZero(t.end)
    ensures !Empty(t.freeze) ==> OrZero(EnabledStart(t)) <= t.freeze.value <= OrZero(t.end)
    ensures !Empty(t.unfreeze) ==> !Empty(t.freeze) && OrZero(t.end) <= t.unfreeze.value
    ensures !FreezesAfterTheEnd(t)
  {
    assert EarlyViolations(t) == [];
  }

  /** Which milestones imply which, at every moment of every contest. */
  lemma MilestoneImplications(t: Times, now: int)
    ensures var s := StateAt(t, now);
            && (s.thawed != None ==> s.frozen != None)
            && (s.frozen != None ==> s.started != None)
            && (s.finalized != None ==> s.ended != None)
            && (s.ended != None ==> s.started != None)
            && (s.endOfUpdates != None ==> s.finalized != None && (s.frozen != None ==> s.thawed != None))
  {
  }

  /** In a validated contest the state times come in the order started, frozen, ended, thawed. */
  lemma ValidatedStateOrdered(t: Times, now: int)
    requires Violations(t) == [] && Unsigned(t)
    ensures var s := StateAt(t, now);
            && (s.ended != None ==> s.started.value < s.ended.value)
            && (!Empty(s.frozen) ==> s.started.value <= s.frozen.value)
            && (s.frozen != None && s.ended != None && !Empty(s.frozen) ==> s.frozen.value <= s.ended.value)
            && (!Empty(s.thawed) && s.ended != None ==> s.ended.value <= s.thawed.value)
            && (!Empty(s.thawed) && t.end.Some? ==> s.ended != None)
  {
    NoViolations(t);
  }

  /**
   As written, the end of updates is chosen by comparing the freeze time with the finalize
   time. For a thawed, finalized, validated contest it is the later of thaw and finalization
   exactly if the freeze came after the finalize time or the thaw did not.
   */
  lemma EndOfUpdatesIsLaterIff(t: Times, now: int)
    requires Violations(t) == [] && Unsigned(t) && !Empty(t.freeze)
    requires StateAt(t, now).thawed != None && StateAt(t, now).finalized != None
    requires !Empty(t.unfreeze)
    ensures var s := StateAt(t, now);
            var later := if s.thawed.value > s.finalized.value then s.thawed else s.finalized;
            s.endOfUpdates == later <==> t.freeze.value > t.finalize.value || t.unfreeze.value <= t.finalize.value
  {
    NoViolations(t);
  }

  /** A validated contest whose end of updates is announced as 200 although it thaws only at 300. */
  lemma EndOfUpdatesBeforeThaw()
    ensures var t := Times(10, true, Some(5), Some(80), Some(100), Some(300), Some(200), None);
            Violations(t) == [] && StateAt(t, 400).thawed == Some(300) && StateAt(t, 400).endOfUpdates == Some(200)
  {
  }

  /** Whether a moment falls within the contest agrees with the state object. */
  lemma InContestIffStartedNotEnded(t: Times, now: int)
    requires Violations(t) == [] && Unsigned(t) && t.startEnabled
    ensures (OrZero(EnabledStart(t)) - now <= 0 && OrZero(t.end) - now > 0)
            <==> (StateAt(t, now).started != None && StateAt(t, now).ended == None)
  {
    NoViolations(t);
  }
}
