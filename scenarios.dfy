/**
 * Host-event sequences run against the engine, and what the callbacks' contracts let a
 * caller conclude about them.
 */
module Scenarios {
  import opened Wrappers
  import opened Sync
  import opened Face

  /**
   * The same ambient mode reported twice: one redraw at most (none if the mode did not
   * change); `updateTimer` still runs on each call.
   */
  method AmbientTwice(e: Engine, a: bool)
    requires e.Valid()
    modifies e
    ensures e.Valid() && e.ambient == a
    ensures Redraws(e.log) == Redraws(old(e.log)) + if old(e.ambient) != a then 1 else 0
    ensures e.log == old(e.log) + (if old(e.ambient) != a then [Invalidate] else [])
                     + TimerEffects(e.visible && !a) + TimerEffects(e.visible && !a)
  {
    ghost var log0, vis := e.log, e.visible;
    ghost var first: seq<Action> := if e.ambient != a then [Invalidate] else [];
    ghost var timer := TimerEffects(vis && !a);
    e.OnAmbientModeChanged(a);
    ghost var mid := e.log;
    assert mid == log0 + first + timer;
    e.OnAmbientModeChanged(a);
    assert e.log == mid + [] + timer && mid + [] == mid;
    RedrawsOfTwoCalls(log0, first, timer);
  }

  lemma RedrawsOfTwoCalls(log0: seq<Action>, first: seq<Action>, timer: seq<Action>)
    requires first == [] || first == [Invalidate]
    requires forall i :: 0 <= i < |timer| ==> timer[i] != Invalidate
    ensures Redraws(log0 + first + timer + timer) == Redraws(log0) + |first|
  {
    assert log0 + first + timer + timer == log0 + (first + (timer + timer));
    RedrawsAppend(log0, first + (timer + timer));
    RedrawsAppend(first, timer + timer);
    RedrawsAppend(timer, timer);
    NoInvalidateNoRedraws(timer);
    assert [Invalidate][..0] == [];
  }

  /**
   * Hidden then shown again: exactly one disconnect and then one connect, the receiver
   * unregistered and registered again, and the timer running afterwards iff interactive.
   */
  method HideThenShow(e: Engine)
    requires e.Valid() && e.visible
    modifies e
    ensures e.Valid() && e.visible && e.registeredReceiver
    ensures e.pending == if !e.ambient then [0] else []
    ensures e.log == old(e.log)
      + [RemoveDataListener, Disconnect, UnregisterTimeZoneReceiver, CancelTimer]
      + [Connect, SendToConnectedNodes(PathWeatherRequest, "RequestWeather"), RegisterTimeZoneReceiver,
         RefreshTimeZone, Invalidate, CancelTimer]
      + (if !e.ambient then [ArmTimer(0)] else [])
  {
    e.OnVisibilityChanged(false);
    e.OnVisibilityChanged(true);
  }

  /** Registering twice registers once; unregistering twice unregisters once. */
  method ReceiverTwice(e: Engine)
    modifies e
    ensures !e.registeredReceiver
    ensures e.log == old(e.log)
      + (if old(e.registeredReceiver) then [] else [RegisterTimeZoneReceiver])
      + [UnregisterTimeZoneReceiver]
  {
    e.RegisterReceiver();
    e.RegisterReceiver();
    e.UnregisterReceiver();
    e.UnregisterReceiver();
  }

  /**
   * A push of 75/50 "Cloudy" stamped 1000 shows exactly those values, starts one fetch for
   * its icon and redraws once; a deleted item afterwards changes nothing.
   */
  method CloudyPush(e: Engine, icon: Asset)
    modifies e
    ensures e.CurrentWeather() == Weather(Some("75"), Some("50"), 1000, Some("Cloudy"))
    ensures e.log == old(e.log) + [FetchIcon(icon), Invalidate, Invalidate]
  {
    var batch := [CloudyEvent(icon)];
    CloudyIngest(e.CurrentWeather(), icon);
    var outcome := e.OnDataChanged(batch);
    var deleted := [DataEvent(Deleted, PathWeather, map[])];
    IgnoredEventsChangeNothing(e.CurrentWeather(), deleted);
    outcome := e.OnDataChanged(deleted);
  }

  function CloudyEvent(icon: Asset): DataEvent {
    DataEvent(Changed, PathWeather,
      map[KeyMaxTemp := Str("75"), KeyMinTemp := Str("50"), KeyWeatherDesc := Str("Cloudy"),
          KeyTimeStamp := Long(1000), KeyAssetImage := AssetRef(icon)])
  }

  lemma CloudyIngest(w: Weather, icon: Asset)
    ensures Ingest(w, [CloudyEvent(icon)]) ==
      Batch(Weather(Some("75"), Some("50"), 1000, Some("Cloudy")), [icon], false)
    ensures FetchActions([icon]) == [FetchIcon(icon)]
  {
  }
}
