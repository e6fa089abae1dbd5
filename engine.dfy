/**
 * The watch-face engine: a single-threaded state machine driven by host callbacks. Its
 * calls out to the host (the companion connection, the time-zone receiver, redraw requests,
 * the update-time handler, icon fetches, the tap toast) are recorded, in order, in `log`;
 * the handler's queue of update-time messages is `pending`, one delay per message.
 */
module Face {
  import opened Wrappers
  import Clock
  import Scheduler
  import opened Sync

  /** `TAP_TYPE_TOUCH`, `TAP_TYPE_TOUCH_CANCEL` and `TAP_TYPE_TAP`. */
  datatype TapType = Touch | TouchCancel | Tap

  /** A call from the engine into the host or the companion transport. */
  datatype Action =
    | Connect
    | Disconnect
    | AddDataListener
    | RemoveDataListener
    | SendToConnectedNodes(path: string, payload: string)
    | RegisterTimeZoneReceiver
    | UnregisterTimeZoneReceiver
    | RefreshTimeZone
    | Invalidate
    | ShowTapToast
    | CancelTimer
    | ArmTimer(delayMs: int)
    | FetchIcon(asset: Asset)

  /** How a callback ended: normally, or with `IllegalArgumentException`. */
  datatype Outcome = Completed | IllegalArgument

  /** `updateTimer`: drop every pending update message, then send one at once if the timer runs. */
  function TimerEffects(run: bool): seq<Action> {
    [CancelTimer] + (if run then [ArmTimer(0)] else [])
  }

  /** What `onVisibilityChanged` does before `updateTimer`, given whether the receiver was registered. */
  function VisibilityEffects(visible: bool, wasRegistered: bool): seq<Action> {
    if visible then
      [Connect, SendToConnectedNodes(PathWeatherRequest, "RequestWeather")]
      + (if wasRegistered then [] else [RegisterTimeZoneReceiver])
      + [RefreshTimeZone, Invalidate]
    else
      [RemoveDataListener, Disconnect]
      + (if wasRegistered then [UnregisterTimeZoneReceiver] else [])
  }

  /** One icon fetch per asset, in order. */
  function FetchActions(assets: seq<Asset>): (r: seq<Action>)
    ensures |r| == |assets|
    decreases |assets|
  {
    if assets == [] then []
    else FetchActions(assets[..|assets| - 1]) + [FetchIcon(assets[|assets| - 1])]
  }

  /** The fetches of two runs of assets, one after the other. */
  lemma {:induction false} FetchActionsAppend(a: seq<Asset>, b: seq<Asset>)
    ensures FetchActions(a + b) == FetchActions(a) + FetchActions(b)
    decreases |b|
  {
    if b != [] {
      var b' := b[..|b| - 1];
      assert (a + b)[..|a + b| - 1] == a + b';
      FetchActionsAppend(a, b');
    } else {
      assert a + b == a;
    }
  }

  /** The number of redraw requests in a log. */
  function Redraws(log: seq<Action>): nat
    decreases |log|
  {
    if log == [] then 0
    else Redraws(log[..|log| - 1]) + (if log[|log| - 1] == Invalidate then 1 else 0)
  }

  lemma {:induction false} RedrawsAppend(a: seq<Action>, b: seq<Action>)
    ensures Redraws(a + b) == Redraws(a) + Redraws(b)
    decreases |b|
  {
    if b == [] {
      assert a + b == a;
    } else {
      assert (a + b)[..|a + b| - 1] == a + b[..|b| - 1];
      RedrawsAppend(a, b[..|b| - 1]);
    }
  }

  /** A log with no redraw request in it counts none. */
  lemma {:induction false} NoInvalidateNoRedraws(log: seq<Action>)
    requires forall i :: 0 <= i < |log| ==> log[i] != Invalidate
    ensures Redraws(log) == 0
    decreases |log|
  {
    if log != [] {
      NoInvalidateNoRedraws(log[..|log| - 1]);
    }
  }

  /** A lifecycle notification the host delivers to the engine, one at a time. */
  datatype HostEvent =
    | VisibilityChanged(visible: bool)
    | AmbientModeChanged(inAmbientMode: bool)
    | PropertiesChanged(lowBitAmbient: Option<bool>)
    | WindowInsetsApplied(isRound: bool)
    | TimeTick
    | TimeZoneChanged
    | TapCommand(tapType: TapType, x: int, y: int, eventTime: int)
    | UpdateTimeMessage(now: int)
    | Connected
    | ConnectionSuspended
    | ConnectionFailed
    | DataChanged(events: seq<DataEvent>)

  class Engine {
    var visible: bool
    var ambient: bool
    var lowBitAmbient: bool
    var isRound: bool
    var textAntiAlias: bool
    var registeredReceiver: bool
    var pending: seq<int>
    var maxTemp: Option<string>
    var minTemp: Option<string>
    var timeStamp: int
    var weatherDescription: Option<string>
    var log: seq<Action>

    function CurrentWeather(): Weather
      reads this
    {
      Weather(maxTemp, minTemp, timeStamp, weatherDescription)
    }

    /** `shouldTimerBeRunning`. */
    predicate TimerShouldRun()
      reads this
      ensures TimerShouldRun() ==> visible
      ensures ambient ==> !TimerShouldRun()
      ensures visible && !ambient ==> TimerShouldRun()
    {
      Scheduler.ShouldTimerBeRunning(visible, ambient)
    }

    /**
     * An update message is pending exactly when the timer should run, and never two; the
     * time-zone receiver is registered exactly while the face is visible.
     */
    ghost predicate Valid()
      reads this
      ensures Valid() ==> |pending| <= 1
      ensures Valid() ==> (pending != [] <==> visible && !ambient)
      ensures Valid() ==> registeredReceiver == visible
    {
      registeredReceiver == visible && |pending| == if TimerShouldRun() then 1 else 0
    }

    /** The field initialisers and the state `onCreate` sets up (the text paint is anti-aliased). */
    constructor ()
      ensures Valid()
      ensures !visible && !ambient && !lowBitAmbient && !isRound
      ensures textAntiAlias && !registeredReceiver && pending == []
      ensures CurrentWeather() == InitialWeather && log == []
    {
      visible, ambient, lowBitAmbient, isRound := false, false, false, false;
      textAntiAlias, registeredReceiver := true, false;
      pending := [];
      maxTemp, minTemp, timeStamp, weatherDescription := Some("99"), Some("11"), 0, Some("..awaiting");
      log := [];
    }

    /** `onPropertiesChanged`: the low-bit flag, false when the host does not say. */
    method OnPropertiesChanged(lowBit: Option<bool>)
      modifies this`lowBitAmbient
      ensures lowBitAmbient == lowBit.GetOr(false)
    {
      lowBitAmbient := lowBit.GetOr(false);
    }

    /** `onApplyWindowInsets`: only the shape flag; the layout it selects is not modelled. */
    method OnApplyWindowInsets(round: bool)
      modifies this`isRound
      ensures isRound == round
    {
      isRound := round;
    }

    /** `registerReceiver`: registers the time-zone receiver once. */
    method RegisterReceiver()
      modifies this`registeredReceiver, this`log
      ensures registeredReceiver
      ensures log == old(log) + if old(registeredReceiver) then [] else [RegisterTimeZoneReceiver]
    {
      if registeredReceiver {
        return;
      }
      registeredReceiver := true;
      log := log + [RegisterTimeZoneReceiver];
    }

    /** `unregisterReceiver`: unregisters the time-zone receiver once. */
    method UnregisterReceiver()
      modifies this`registeredReceiver, this`log
      ensures !registeredReceiver
      ensures log == old(log) + if old(registeredReceiver) then [UnregisterTimeZoneReceiver] else []
    {
      if !registeredReceiver {
        return;
      }
      registeredReceiver := false;
      log := log + [UnregisterTimeZoneReceiver];
    }

    /**
     * `updateTimer`: afterwards exactly one update message is pending, due at once, if the
     * face is visible and interactive, and none otherwise.
     */
    method UpdateTimer()
      modifies this`pending, this`log
      ensures pending == if TimerShouldRun() then [0] else []
      ensures log == old(log) + TimerEffects(TimerShouldRun())
    {
      pending := [];
      log := log + [CancelTimer];
      if TimerShouldRun() {
        pending := pending + [0];
        log := log + [ArmTimer(0)];
      }
    }

    /**
     * `onVisibilityChanged`: connect, ask for weather, register the receiver, refresh the time
     * zone and redraw when shown; stop listening, disconnect and unregister when hidden; in
     * both cases end with one `updateTimer`.
     */
    method OnVisibilityChanged(v: bool)
      modifies this`visible, this`registeredReceiver, this`pending, this`log
      ensures Valid()
      ensures visible == v && registeredReceiver == v
      ensures pending == if v && !ambient then [0] else []
      ensures log == old(log) + VisibilityEffects(v, old(registeredReceiver)) + TimerEffects(v && !ambient)
    {
      visible := v;
      if v {
        log := log + [Connect, SendToConnectedNodes(PathWeatherRequest, "RequestWeather")];
        RegisterReceiver();
        log := log + [RefreshTimeZone, Invalidate];
      } else {
        log := log + [RemoveDataListener, Disconnect];
        UnregisterReceiver();
      }
      UpdateTimer();
    }

    /** `onTimeTick`: the host's coarse tick always redraws. */
    method OnTimeTick()
      modifies this`log
      ensures log == old(log) + [Invalidate]
    {
      log := log + [Invalidate];
    }

    /** The time-zone receiver's `onReceive`: refresh the calendar's zone and redraw. */
    method OnTimeZoneChanged()
      modifies this`log
      ensures log == old(log) + [RefreshTimeZone, Invalidate]
    {
      log := log + [RefreshTimeZone, Invalidate];
    }

    /**
     * `onAmbientModeChanged`: on an actual change, record the mode, turn text anti-aliasing
     * off in ambient (and back on) only on low-bit displays, and redraw; then `updateTimer`.
     */
    method OnAmbientModeChanged(inAmbientMode: bool)
      modifies this`ambient, this`textAntiAlias, this`pending, this`log
      ensures registeredReceiver == visible ==> Valid()
      ensures ambient == inAmbientMode
      ensures pending == if visible && !inAmbientMode then [0] else []
      ensures textAntiAlias == if old(ambient) != inAmbientMode && lowBitAmbient then !inAmbientMode
                               else old(textAntiAlias)
      ensures log == old(log) + (if old(ambient) != inAmbientMode then [Invalidate] else [])
                     + TimerEffects(visible && !inAmbientMode)
    {
      if ambient != inAmbientMode {
        ambient := inAmbientMode;
        if lowBitAmbient {
          textAntiAlias := !inAmbientMode;
        }
        log := log + [Invalidate];
      }
      UpdateTimer();
    }

    /** `onTapCommand`: a completed tap shows a toast; every tap command redraws. */
    method OnTapCommand(tapType: TapType, x: int, y: int, eventTime: int)
      modifies this`log
      ensures log == old(log) + (if tapType == Tap then [ShowTapToast] else []) + [Invalidate]
    {
      match tapType {
        case Touch =>
        case TouchCancel =>
        case Tap => log := log + [ShowTapToast];
      }
      log := log + [Invalidate];
    }

    /**
     * `handleUpdateTimeMessage`: redraw, and while the timer should run send the next update
     * message, due at the next whole second.
     */
    method HandleUpdateTimeMessage(now: int)
      modifies this`pending, this`log
      ensures pending == old(pending) + if TimerShouldRun() then [Scheduler.Delay(now)] else []
      ensures log == old(log) + [Invalidate] + if TimerShouldRun() then [ArmTimer(Scheduler.Delay(now))] else []
    {
      log := log + [Invalidate];
      if TimerShouldRun() {
        var delayMs := Scheduler.Delay(now);
        pending := pending + [delayMs];
        log := log + [ArmTimer(delayMs)];
      }
    }

    /**
     * The handler delivering the pending update message at wall-clock time `now`: while the
     * timer runs it redraws and re-arms (so one message stays pending); otherwise nothing is
     * pending and nothing happens.
     */
    method DeliverUpdateTimeMessage(now: int)
      requires Valid()
      modifies this`pending, this`log
      ensures Valid()
      ensures pending == if TimerShouldRun() then [Scheduler.Delay(now)] else []
      ensures log == old(log) + if TimerShouldRun() then [Invalidate, ArmTimer(Scheduler.Delay(now))] else []
    {
      if pending == [] {
        return;
      }
      pending := pending[1..];
      HandleUpdateTimeMessage(now);
    }

    /** `onConnected`: listen for data changes and send the legacy counter request. */
    method OnConnected()
      modifies this`log
      ensures log == old(log) + [AddDataListener, SendToConnectedNodes(PathWeatherRequest, "CounterRequest")]
    {
      log := log + [AddDataListener, SendToConnectedNodes(PathWeatherRequest, "CounterRequest")];
    }

    /**
     * `updateMaxTemp`, `updateMinTemp`, `updateTimeStamp` and `updateWeatherDesc` for one
     * matching event: the four fields become what its data map holds, nothing else changes.
     */
    method ApplyReceived(data: DataMap)
      modifies this`maxTemp, this`minTemp, this`timeStamp, this`weatherDescription
      ensures CurrentWeather() == Received(data)
    {
      maxTemp := GetString(data, KeyMaxTemp);
      minTemp := GetString(data, KeyMinTemp);
      timeStamp := GetLong(data, KeyTimeStamp);
      weatherDescription := GetString(data, KeyWeatherDesc);
    }

    /**
     * The body of the loop of `onDataChanged` for one event: a matching event overwrites the
     * four weather fields and starts the fetch of its asset, or reports that
     * `loadBitmapFromAsset` threw when it has none; any other event changes nothing.
     */
    method ConsumeEvent(event: DataEvent) returns (threw: bool)
      modifies this`maxTemp, this`minTemp, this`timeStamp, this`weatherDescription, this`log
      ensures threw == ThrowsOn(event)
      ensures CurrentWeather() == if Matches(event) then Received(event.data) else old(CurrentWeather())
      ensures log == old(log) + FetchActions(NewFetch(event))
    {
      threw := false;
      if event.kind == Changed {
        if event.path == PathWeather {
          ApplyReceived(event.data);
          var asset := GetAsset(event.data, KeyAssetImage);
          if asset.None? {
            return true;
          }
          log := log + [FetchIcon(asset.value)];
        }
      } else if event.kind == Deleted {
        // a deleted item is observed and ignored
      }
    }

    /**
     * `onDataChanged`: fold the batch into the weather fields (see `Sync.Ingest`), starting one
     * icon fetch per matching event; redraw once at the end, unless an event without an
     * asset threw `IllegalArgumentException`, which ends the callback at once.
     */
    method OnDataChanged(events: seq<DataEvent>) returns (outcome: Outcome)
      modifies this`maxTemp, this`minTemp, this`timeStamp, this`weatherDescription, this`log
      ensures outcome == if Ingest(old(CurrentWeather()), events).threw then IllegalArgument else Completed
      ensures CurrentWeather() == Ingest(old(CurrentWeather()), events).weather
      ensures log == old(log) + FetchActions(Ingest(old(CurrentWeather()), events).fetches)
                     + if outcome == Completed then [Invalidate] else []
    {
      ghost var w0 := CurrentWeather();
      ghost var log0 := log;
      var i := 0;
      while i < |events|
        invariant 0 <= i <= |events|
        invariant !Ingest(w0, events[..i]).threw
        invariant CurrentWeather() == Ingest(w0, events[..i]).weather
        invariant log == log0 + FetchActions(Ingest(w0, events[..i]).fetches)
      {
        IngestNext(w0, events, i);
        FetchActionsAppend(Ingest(w0, events[..i]).fetches, NewFetch(events[i]));
        var threw := ConsumeEvent(events[i]);
        if threw {
          assert log == log0 + FetchActions(Ingest(w0, events).fetches) + [];
          return IllegalArgument;
        }
        i := i + 1;
      }
      assert events[..i] == events;
      log := log + [Invalidate];
      outcome := Completed;
    }

    /**
     * The time text `onDraw` draws at wall-clock time `now` in a zone `zoneOffsetMs` ahead of
     * UTC: reading its numbers back gives the calendar's hour and minute, and the second only
     * when not ambient.
     */
    function TimeTextAt(now: int, zoneOffsetMs: int): (t: string)
      reads this
      ensures var f := Clock.FieldsAt(now + zoneOffsetMs);
        Clock.ParseTimeText(t) == Some(if ambient then [f.hour, f.minute] else [f.hour, f.minute, f.second])
      ensures 4 <= |t| <= if ambient then 5 else 8
    {
      var f := Clock.FieldsAt(now + zoneOffsetMs);
      Clock.TimeTextRoundTrip(ambient, f);
      Clock.TimeTextShape(f);
      Clock.TimeText(ambient, f)
    }

    /** One host notification, dispatched to its callback. */
    method Dispatch(event: HostEvent) returns (outcome: Outcome)
      requires Valid()
      modifies this
      ensures Valid()
      ensures outcome == IllegalArgument ==> event.DataChanged?
    {
      outcome := Completed;
      match event
      case VisibilityChanged(v) => OnVisibilityChanged(v);
      case AmbientModeChanged(a) => OnAmbientModeChanged(a);
      case PropertiesChanged(lowBit) => OnPropertiesChanged(lowBit);
      case WindowInsetsApplied(round) => OnApplyWindowInsets(round);
      case TimeTick => OnTimeTick();
      case TimeZoneChanged => OnTimeZoneChanged();
      case TapCommand(tapType, x, y, eventTime) => OnTapCommand(tapType, x, y, eventTime);
      case UpdateTimeMessage(now) => DeliverUpdateTimeMessage(now);
      case Connected => OnConnected();
      case ConnectionSuspended =>
      case ConnectionFailed =>
      case DataChanged(events) => outcome := OnDataChanged(events);
    }

    /**
     * The single-threaded event loop: deliver `events` in order until one throws. Whatever
     * the sequence, an update message is pending afterwards exactly when the face is visible
     * and interactive, and at most one is.
     */
    method Run(events: seq<HostEvent>) returns (handled: nat)
      requires Valid()
      modifies this
      ensures Valid()
      ensures handled <= |events|
      ensures |pending| <= 1 && (pending != [] <==> visible && !ambient)
    {
      handled := 0;
      while handled < |events|
        invariant handled <= |events|
        invariant Valid()
      {
        var outcome := Dispatch(events[handled]);
        if outcome == IllegalArgument {
          return;
        }
        handled := handled + 1;
      }
    }
  }
}
