/**
 * The sleep timer's Live Activity bridge. The system's list of running
 * activities of the sleep-timer kind is modelled by `ActivityCenter`; the
 * bridge's `syncSleepTimer` and `endSleepTimerActivity` drive it.
 */
module SleepTimerActivity {
  import opened Wrappers
  import opened Dates

  /** `M2SleepTimerActivityAttributes.ContentState`. */
  datatype ContentState = ContentState(startDate: Date, endDate: Date, title: string, subtitle: string)

  /** `M2SleepTimerActivityAttributes`. */
  datatype Attributes = Attributes(timerID: string)

  const SleepTimerID: string := "m2.sleep.timer"

  /** A running activity: its system-assigned identity, its attributes and its current state. */
  datatype Activity = Activity(id: nat, attributes: Attributes, state: ContentState)

  predicate DistinctIDs(s: seq<Activity>) {
    forall i, j :: 0 <= i < j < |s| ==> s[i].id != s[j].id
  }

  /** No activity of `s` has the identity `id`. */
  predicate Lacks(s: seq<Activity>, id: nat) {
    forall i :: 0 <= i < |s| ==> s[i].id != id
  }

  /** The list after the activity `id` has ended: every other activity, in order. */
  function Without(s: seq<Activity>, id: nat): seq<Activity> {
    if s == [] then []
    else if s[0].id == id then Without(s[1..], id)
    else [s[0]] + Without(s[1..], id)
  }

  /** The list after the activity `id` has been updated to `state`. */
  function WithState(s: seq<Activity>, id: nat, state: ContentState): seq<Activity> {
    if s == [] then []
    else if s[0].id == id then [s[0].(state := state)] + WithState(s[1..], id, state)
    else [s[0]] + WithState(s[1..], id, state)
  }

  lemma {:induction false} WithoutAbsent(s: seq<Activity>, id: nat)
    requires Lacks(s, id)
    ensures Without(s, id) == s
    decreases |s|
  {
    if s != [] {
      assert Lacks(s[1..], id) by {
        forall i | 0 <= i < |s[1..]| ensures s[1..][i].id != id {
          assert s[1..][i] == s[i + 1];
        }
      }
      WithoutAbsent(s[1..], id);
    }
  }

  lemma {:induction false} WithStateAbsent(s: seq<Activity>, id: nat, state: ContentState)
    requires Lacks(s, id)
    ensures WithState(s, id, state) == s
    decreases |s|
  {
    if s != [] {
      assert Lacks(s[1..], id) by {
        forall i | 0 <= i < |s[1..]| ensures s[1..][i].id != id {
          assert s[1..][i] == s[i + 1];
        }
      }
      WithStateAbsent(s[1..], id, state);
    }
  }

  lemma DistinctTail(s: seq<Activity>)
    requires s != [] && DistinctIDs(s)
    ensures DistinctIDs(s[1..]) && Lacks(s[1..], s[0].id)
  {
    forall i | 0 <= i < |s[1..]| ensures s[1..][i].id != s[0].id {
      assert s[1..][i] == s[i + 1];
    }
  }

  /** Ending the first of activities with distinct identities removes exactly that one. */
  lemma WithoutFirst(s: seq<Activity>)
    requires s != [] && DistinctIDs(s)
    ensures Without(s, s[0].id) == s[1..]
  {
    DistinctTail(s);
    WithoutAbsent(s[1..], s[0].id);
  }

  /** Updating the first of activities with distinct identities changes only its state. */
  lemma WithStateFirst(s: seq<Activity>, state: ContentState)
    requires s != [] && DistinctIDs(s)
    ensures WithState(s, s[0].id, state) == s[0 := s[0].(state := state)]
  {
    DistinctTail(s);
    WithStateAbsent(s[1..], s[0].id, state);
  }

  /**
   * The state shown for a timer with `remaining` seconds left at `now`: it
   * runs from `now` for `remaining` seconds, with the given texts.
   */
  function TimerState(now: Date, remaining: TimeInterval, title: string, subtitle: string): (state: ContentState)
    ensures state.startDate == now && state.endDate - state.startDate == remaining
    ensures remaining > 0.0 ==> state.startDate < state.endDate
    ensures state.title == title && state.subtitle == subtitle
  {
    ContentState(now, AddingTimeInterval(now, remaining), title, subtitle)
  }

  /**
   * The running activities after `syncSleepTimer(withRemaining:title:subtitle:)`
   * on a system where Live Activities are `supported`, with the user's
   * `enabled` setting, and a creation that is granted the identity `newID`
   * when `requestSucceeds`.
   */
  function Synced(
    activities: seq<Activity>, supported: bool, remaining: TimeInterval, title: string, subtitle: string,
    now: Date, enabled: bool, newID: nat, requestSucceeds: bool): seq<Activity>
  {
    if !supported then activities
    else if remaining <= 0.0 then Ended(activities, supported)
    else if !enabled then activities
    else
      var state := TimerState(now, remaining, title, subtitle);
      if activities != [] then activities[0 := activities[0].(state := state)]
      else if requestSucceeds then [Activity(newID, Attributes(SleepTimerID), state)]
      else []
  }

  /** The running activities after `endSleepTimerActivity()`. */
  function Ended(activities: seq<Activity>, supported: bool): seq<Activity> {
    if supported then [] else activities
  }

  /** A timer with no time left ends every activity, whatever was running. */
  lemma SyncExpiredEndsAll(
    activities: seq<Activity>, remaining: TimeInterval, title: string, subtitle: string,
    now: Date, enabled: bool, newID: nat, requestSucceeds: bool)
    requires remaining <= 0.0
    ensures Synced(activities, true, remaining, title, subtitle, now, enabled, newID, requestSucceeds)
      == Ended(activities, true) == []
  {
  }

  /** When the user has turned Live Activities off, a running timer changes nothing. */
  lemma SyncDisabledKeepsAll(
    activities: seq<Activity>, supported: bool, remaining: TimeInterval, title: string, subtitle: string,
    now: Date, newID: nat, requestSucceeds: bool)
    requires remaining > 0.0
    ensures Synced(activities, supported, remaining, title, subtitle, now, false, newID, requestSucceeds) == activities
  {
  }

  /**
   * With an activity running, a sync replaces the first activity's state and
   * nothing else: no activity is created or ended, and every identity and
   * attribute stays.
   */
  lemma SyncUpdatesFirstInPlace(
    activities: seq<Activity>, remaining: TimeInterval, title: string, subtitle: string,
    now: Date, newID: nat, requestSucceeds: bool)
    requires activities != [] && remaining > 0.0
    ensures var after := Synced(activities, true, remaining, title, subtitle, now, true, newID, requestSucceeds);
      && |after| == |activities|
      && (forall i :: 0 <= i < |after| ==> after[i].id == activities[i].id && after[i].attributes == activities[i].attributes)
      && after[1..] == activities[1..]
      && after[0].state == TimerState(now, remaining, title, subtitle)
  {
  }

  /**
   * With nothing running, a sync creates at most one activity, of the sleep
   * timer's kind and showing the new state; a refused request leaves none.
   */
  lemma SyncCreatesAtMostOne(
    remaining: TimeInterval, title: string, subtitle: string, now: Date, newID: nat, requestSucceeds: bool)
    requires remaining > 0.0
    ensures var after := Synced([], true, remaining, title, subtitle, now, true, newID, requestSucceeds);
      && |after| <= 1
      && (after == [] <==> !requestSucceeds)
      && (after != [] ==> after[0] == Activity(newID, Attributes(SleepTimerID), TimerState(now, remaining, title, subtitle)))
  {
  }

  /**
   * Single slot: a sync never adds an activity beside a running one, so at
   * most one activity before means at most one after.
   */
  lemma SyncSingleSlot(
    activities: seq<Activity>, supported: bool, remaining: TimeInterval, title: string, subtitle: string,
    now: Date, enabled: bool, newID: nat, requestSucceeds: bool)
    ensures var after := Synced(activities, supported, remaining, title, subtitle, now, enabled, newID, requestSucceeds);
      && (activities != [] ==> |after| <= |activities|)
      && (|activities| <= 1 ==> |after| <= 1)
  {
  }

  /** Ending is a no-op on an empty list and idempotent. */
  lemma EndedIdempotent(activities: seq<Activity>, supported: bool)
    ensures Ended([], supported) == []
    ensures Ended(Ended(activities, supported), supported) == Ended(activities, supported)
  {
  }

  /**
   * Two syncs of a running timer, at 300 and then 250 seconds left, starting
   * from nothing: one activity is created by the first and updated by the
   * second, keeping its identity.
   */
  lemma SyncTwiceUpdatesOnce(title: string, subtitle: string, now: Date, later: Date, newID: nat, otherID: nat)
    ensures var first := Synced([], true, 300.0, title, subtitle, now, true, newID, true);
      var second := Synced(first, true, 250.0, title, subtitle, later, true, otherID, true);
      && |second| == 1
      && second[0].id == newID
      && second[0].state == TimerState(later, 250.0, title, subtitle)
  {
  }

  /** A call the app makes into the bridge. */
  datatype Call =
    | Sync(remaining: TimeInterval, title: string, subtitle: string, now: Date, enabled: bool, requestSucceeds: bool)
    | End

  /**
   * The running activities after the calls, in order. As in
   * `ActivityCenter.Request`, an identity is used up only when a sync
   * actually creates an activity.
   */
  function Run(activities: seq<Activity>, supported: bool, nextID: nat, calls: seq<Call>): seq<Activity>
    decreases |calls|
  {
    if calls == [] then activities
    else
      match calls[0]
      case Sync(remaining, title, subtitle, now, enabled, requestSucceeds) =>
        var after := Synced(activities, supported, remaining, title, subtitle, now, enabled, nextID, requestSucceeds);
        Run(after, supported, if |after| > |activities| then nextID + 1 else nextID, calls[1..])
      case End =>
        Run(Ended(activities, supported), supported, nextID, calls[1..])
  }

  /**
   * Whatever the app calls, in whatever order, the bridge never has more than
   * one activity running if it started with at most one.
   */
  lemma {:induction false} RunSingleSlot(activities: seq<Activity>, supported: bool, nextID: nat, calls: seq<Call>)
    requires |activities| <= 1
    ensures |Run(activities, supported, nextID, calls)| <= 1
    decreases |calls|
  {
    if calls != [] {
      match calls[0]
      case Sync(remaining, title, subtitle, now, enabled, requestSucceeds) =>
        SyncSingleSlot(activities, supported, remaining, title, subtitle, now, enabled, nextID, requestSucceeds);
        var after := Synced(activities, supported, remaining, title, subtitle, now, enabled, nextID, requestSucceeds);
        RunSingleSlot(after, supported, if |after| > |activities| then nextID + 1 else nextID, calls[1..]);
      case End =>
        RunSingleSlot(Ended(activities, supported), supported, nextID, calls[1..]);
    }
  }

  /**
   * The system's collection `Activity<M2SleepTimerActivityAttributes>.activities`.
   * `supported` is the `#available(iOS 16.1, *)` check; identities are handed
   * out from the counter `nextID`.
   */
  class ActivityCenter {
    const supported: bool
    var activities: seq<Activity>
    var nextID: nat

    ghost predicate Valid()
      reads this
    {
      && (!supported ==> activities == [])
      && DistinctIDs(activities)
      && forall i :: 0 <= i < |activities| ==> activities[i].id < nextID
    }

    constructor (supported: bool)
      ensures Valid()
      ensures this.supported == supported && activities == []
    {
      this.supported := supported;
      activities := [];
      nextID := 0;
    }

    /**
     * `Activity.request(attributes:contentState:pushType:)`: when the system
     * grants it (`succeeds`), a new activity with a fresh identity joins the
     * list; otherwise the call fails and nothing changes.
     */
    method Request(attributes: Attributes, state: ContentState, succeeds: bool) returns (created: Option<Activity>)
      requires Valid() && supported
      modifies this
      ensures Valid()
      ensures succeeds ==>
        && created == Some(Activity(old(nextID), attributes, state))
        && activities == old(activities) + [created.value] && nextID == old(nextID) + 1
      ensures !succeeds ==> created.None? && activities == old(activities) && nextID == old(nextID)
    {
      if !succeeds {
        return None;
      }
      var activity := Activity(nextID, attributes, state);
      activities := activities + [activity];
      nextID := nextID + 1;
      created := Some(activity);
    }

    /** `activity.update(using:)`: the activity keeps its identity and takes the new state. */
    method Update(activity: Activity, state: ContentState)
      requires Valid()
      modifies this
      ensures Valid()
      ensures activities == WithState(old(activities), activity.id, state) && nextID == old(nextID)
    {
      WithStatePreservesIDs(activities, activity.id, state);
      activities := WithState(activities, activity.id, state);
    }

    /** `activity.end(dismissalPolicy: .immediate)`: the activity leaves the list at once. */
    method End(activity: Activity)
      requires Valid()
      modifies this
      ensures Valid()
      ensures activities == Without(old(activities), activity.id) && nextID == old(nextID)
    {
      WithoutKeepsIDs(activities, activity.id);
      activities := Without(activities, activity.id);
    }
  }

  lemma {:induction false} WithStatePreservesIDs(s: seq<Activity>, id: nat, state: ContentState)
    ensures |WithState(s, id, state)| == |s|
    ensures forall i :: 0 <= i < |s| ==> WithState(s, id, state)[i].id == s[i].id
    decreases |s|
  {
    if s != [] {
      WithStatePreservesIDs(s[1..], id, state);
    }
  }

  /** Ending an activity leaves a sub-list: no identity appears that was not there. */
  lemma {:induction false} WithoutKeepsIDs(s: seq<Activity>, id: nat)
    ensures |Without(s, id)| <= |s|
    ensures forall a :: a in Without(s, id) ==> a in s && a.id != id
    ensures DistinctIDs(s) ==> DistinctIDs(Without(s, id))
    decreases |s|
  {
    if s != [] {
      WithoutKeepsIDs(s[1..], id);
      if DistinctIDs(s) {
        DistinctTail(s);
        var rest := Without(s[1..], id);
        if s[0].id != id {
          forall j | 0 <= j < |rest| ensures rest[j].id != s[0].id {
            assert rest[j] in rest;
            assert rest[j] in s[1..];
          }
        }
      }
    }
  }

  /**
   * `syncSleepTimer(withRemaining:title:subtitle:)`. On a system without Live
   * Activities it does nothing; a timer with no time left ends every activity;
   * otherwise, when the user allows Live Activities, the first running
   * activity is updated, or one is requested when none is running.
   */
  method SyncSleepTimer(
    center: ActivityCenter, remaining: TimeInterval, title: string, subtitle: string,
    now: Date, enabled: bool, requestSucceeds: bool)
    requires center.Valid()
    modifies center
    ensures center.Valid()
    ensures center.activities == Synced(old(center.activities), center.supported, remaining, title, subtitle,
                                        now, enabled, old(center.nextID), requestSucceeds)
  {
    if !center.supported {
      return;
    }
    if remaining <= 0.0 {
      EndSleepTimerActivity(center);
      return;
    }
    if !enabled {
      return;
    }

    var startDate := now;
    var endDate := AddingTimeInterval(startDate, remaining);
    var attributes := Attributes(SleepTimerID);
    var state := ContentState(startDate, endDate, title, subtitle);

    if center.activities != [] {
      var activity := center.activities[0];
      WithStateFirst(center.activities, state);
      center.Update(activity, state);
    } else {
      var _ := center.Request(attributes, state, requestSucceeds);
    }
  }

  /** `endSleepTimerActivity()`: ends every running activity, one after the other. */
  method EndSleepTimerActivity(center: ActivityCenter)
    requires center.Valid()
    modifies center
    ensures center.Valid()
    ensures center.activities == Ended(old(center.activities), center.supported)
    ensures center.nextID == old(center.nextID)
  {
    if !center.supported {
      return;
    }
    var snapshot := center.activities;
    for i := 0 to |snapshot|
      invariant center.Valid()
      invariant center.activities == snapshot[i..]
      invariant center.nextID == old(center.nextID)
    {
      WithoutFirst(snapshot[i..]);
      center.End(snapshot[i]);
      assert snapshot[i..][1..] == snapshot[i + 1..];
    }
  }
}
