/**
 * Weather ingestion: the data items pushed by the companion phone, and what a batch of
 * data-change events does to the four weather fields of the face. A batch is folded from
 * its first event to its last; an event counts only when it is a change of the item on path
 * `/weather`. Each such event overwrites all four fields and then starts an icon fetch for its
 * asset; a missing asset throws `IllegalArgumentException`, which ends the batch.
 */
module Sync {
  import opened Wrappers

  const PathWeather: string := "/weather"
  const PathWeatherRequest: string := "/weather-request"
  const KeyMaxTemp: string := "com.sunshine.key.max_temp"
  const KeyMinTemp: string := "com.sunshine.key.min_temp"
  const KeyTimeStamp: string := "com.sunshine.key.stamp"
  const KeyAssetImage: string := "com.sunshine.key.asset_image"
  const KeyWeatherDesc: string := "com.sunshine.key.weather_desc"

  /** An opaque reference to a blob held by the data layer, resolved later by a fetch. */
  datatype Asset = Asset(digest: string)

  /** The values a `DataMap` entry can hold, as far as the face reads them. */
  datatype Value = Str(s: string) | Long(n: int) | AssetRef(asset: Asset) | Other

  type DataMap = map<string, Value>

  /** `DataEvent.TYPE_CHANGED` and `DataEvent.TYPE_DELETED`. */
  datatype EventType = Changed | Deleted

  /** A data-change event: its type, the path of the item's URI and the item's data map. */
  datatype DataEvent = DataEvent(kind: EventType, path: string, data: DataMap)

  /** The weather shown on the face; a `None` text is Java's `null`. */
  datatype Weather = Weather(
    maxTemp: Option<string>,
    minTemp: Option<string>,
    timeStamp: int,
    description: Option<string>)

  /** The placeholders shown before the first push (`time_stamp` starts at Java's 0). */
  const InitialWeather: Weather := Weather(Some("99"), Some("11"), 0, Some("..awaiting"))

  /** `DataMap.getString(key)`: `null` when the key is absent or holds no string. */
  function GetString(m: DataMap, key: string): (r: Option<string>)
    ensures r.Some? <==> key in m && m[key].Str?
    ensures r.Some? ==> m[key] == Str(r.value)
  {
    if key in m && m[key].Str? then Some(m[key].s) else None
  }

  /** `DataMap.getLong(key)`: 0 when the key is absent or holds no long. */
  function GetLong(m: DataMap, key: string): (r: int)
    ensures key in m && m[key].Long? ==> m[key] == Long(r)
    ensures !(key in m && m[key].Long?) ==> r == 0
  {
    if key in m && m[key].Long? then m[key].n else 0
  }

  /** `DataMap.getAsset(key)`: `null` when the key is absent or holds no asset. */
  function GetAsset(m: DataMap, key: string): (r: Option<Asset>)
    ensures r.Some? <==> key in m && m[key].AssetRef?
    ensures r.Some? ==> m[key] == AssetRef(r.value)
  {
    if key in m && m[key].AssetRef? then Some(m[key].asset) else None
  }

  /** The filter of `onDataChanged`: a change of the item on path `/weather` exactly. */
  predicate Matches(e: DataEvent)
    ensures e.kind == Deleted ==> !Matches(e)
    ensures e.path != PathWeather ==> !Matches(e)
    ensures e.kind == Changed && e.path == PathWeather ==> Matches(e)
  {
    e.kind == Changed && e.path == PathWeather
  }

  /** A matching event whose data map holds no asset: loading its icon throws. */
  predicate ThrowsOn(e: DataEvent) {
    Matches(e) && GetAsset(e.data, KeyAssetImage).None?
  }

  /**
   * The four fields as one matching event leaves them: each is overwritten with what its
   * key holds, `null` (or 0 for the time stamp) included, whatever the field held before.
   */
  function Received(m: DataMap): (w: Weather)
    ensures KeyMaxTemp in m && m[KeyMaxTemp].Str? ==> w.maxTemp == Some(m[KeyMaxTemp].s)
    ensures KeyMinTemp in m && m[KeyMinTemp].Str? ==> w.minTemp == Some(m[KeyMinTemp].s)
    ensures KeyTimeStamp in m && m[KeyTimeStamp].Long? ==> w.timeStamp == m[KeyTimeStamp].n
    ensures KeyWeatherDesc in m && m[KeyWeatherDesc].Str? ==> w.description == Some(m[KeyWeatherDesc].s)
    ensures !(KeyMaxTemp in m && m[KeyMaxTemp].Str?) ==> w.maxTemp == None
    ensures !(KeyMinTemp in m && m[KeyMinTemp].Str?) ==> w.minTemp == None
    ensures !(KeyTimeStamp in m && m[KeyTimeStamp].Long?) ==> w.timeStamp == 0
    ensures !(KeyWeatherDesc in m && m[KeyWeatherDesc].Str?) ==> w.description == None
  {
    Weather(
      GetString(m, KeyMaxTemp),
      GetString(m, KeyMinTemp),
      GetLong(m, KeyTimeStamp),
      GetString(m, KeyWeatherDesc))
  }

  /**
   * What a batch has done so far: the weather fields, the assets whose fetch was started
   * (in order), and whether `IllegalArgumentException` was thrown.
   */
  datatype Batch = Batch(weather: Weather, fetches: seq<Asset>, threw: bool)

  /**
   * One more event of the batch. After a throw nothing is read, and an event that does not
   * match is skipped; a matching event replaces the whole weather with what it carries, and
   * either starts one more fetch or throws (never both).
   */
  function Step(b: Batch, e: DataEvent): (r: Batch)
    ensures b.threw || !Matches(e) ==> r == b
    ensures !b.threw && Matches(e) ==> r.weather == Received(e.data) && (r.threw <==> ThrowsOn(e))
    ensures b.fetches <= r.fetches && |r.fetches| <= |b.fetches| + 1
    ensures r.threw ==> r.fetches == b.fetches
  {
    if b.threw || !Matches(e) then b
    else
      match GetAsset(e.data, KeyAssetImage)
      case None => Batch(Received(e.data), b.fetches, true)
      case Some(a) => Batch(Received(e.data), b.fetches + [a], false)
  }

  /** The fetch one event starts: the asset of a matching event, when it has one. */
  function NewFetch(e: DataEvent): (r: seq<Asset>)
    ensures |r| <= 1
  {
    if Matches(e) then
      match GetAsset(e.data, KeyAssetImage)
      case None => []
      case Some(a) => [a]
    else []
  }

  /** One event on a batch that has not thrown. */
  lemma StepNotThrown(b: Batch, e: DataEvent)
    requires !b.threw
    ensures Step(b, e) == Batch(if Matches(e) then Received(e.data) else b.weather, b.fetches + NewFetch(e), ThrowsOn(e))
  {
  }

  /**
   * The loop of `onDataChanged` over `events`, starting from weather `w`: it starts at most
   * one fetch per matching event.
   */
  function Ingest(w: Weather, events: seq<DataEvent>): (r: Batch)
    ensures |r.fetches| <= MatchCount(events)
    decreases |events|
  {
    if events == [] then Batch(w, [], false)
    else Step(Ingest(w, events[..|events| - 1]), events[|events| - 1])
  }

  /** The batch so far, one event further. */
  lemma IngestPrefixStep(w: Weather, events: seq<DataEvent>, i: nat)
    requires i < |events|
    ensures Ingest(w, events[..i + 1]) == Step(Ingest(w, events[..i]), events[i])
  {
    assert events[..i + 1][..i] == events[..i];
  }

  /**
   * The batch one event further, from a prefix that has not thrown; when that event throws,
   * the rest of the batch is not read.
   */
  lemma IngestNext(w: Weather, events: seq<DataEvent>, i: nat)
    requires i < |events| && !Ingest(w, events[..i]).threw
    ensures Ingest(w, events[..i + 1]).weather ==
      if Matches(events[i]) then Received(events[i].data) else Ingest(w, events[..i]).weather
    ensures Ingest(w, events[..i + 1]).fetches == Ingest(w, events[..i]).fetches + NewFetch(events[i])
    ensures Ingest(w, events[..i + 1]).threw == ThrowsOn(events[i])
    ensures ThrowsOn(events[i]) ==> Ingest(w, events) == Ingest(w, events[..i + 1])
  {
    IngestPrefixStep(w, events, i);
    StepNotThrown(Ingest(w, events[..i]), events[i]);
    if ThrowsOn(events[i]) {
      ThrownStaysThrown(w, events, i + 1);
    }
  }

  /** The number of matching events. */
  function MatchCount(events: seq<DataEvent>): nat
    decreases |events|
  {
    if events == [] then 0
    else MatchCount(events[..|events| - 1]) + (if Matches(events[|events| - 1]) then 1 else 0)
  }

  // ---------------------------------------------------------------------------------------
  // Lemmas.

  /** A batch with no matching event (only deletions, other paths) changes nothing. */
  lemma {:induction false} IgnoredEventsChangeNothing(w: Weather, events: seq<DataEvent>)
    requires forall i :: 0 <= i < |events| ==> !Matches(events[i])
    ensures Ingest(w, events) == Batch(w, [], false)
    decreases |events|
  {
    if events != [] {
      IgnoredEventsChangeNothing(w, events[..|events| - 1]);
    }
  }

  /** An event that does not match can be dropped from anywhere in the batch. */
  lemma {:induction false} IgnoredEventAnywhere(w: Weather, a: seq<DataEvent>, e: DataEvent, c: seq<DataEvent>)
    requires !Matches(e)
    ensures Ingest(w, a + [e] + c) == Ingest(w, a + c)
    decreases |c|
  {
    if c == [] {
      assert a + [e] + c == a + [e];
      assert (a + [e])[..|a + [e]| - 1] == a;
      assert a + c == a;
    } else {
      var c' := c[..|c| - 1];
      var last := c[|c| - 1];
      assert (a + [e] + c)[..|a + [e] + c| - 1] == a + [e] + c';
      assert (a + c)[..|a + c| - 1] == a + c';
      IgnoredEventAnywhere(w, a, e, c');
    }
  }

  /** A batch throws only on a matching event that carries no asset. */
  lemma {:induction false} ThrowNeedsMissingAsset(w: Weather, events: seq<DataEvent>)
    requires Ingest(w, events).threw
    ensures exists i :: 0 <= i < |events| && ThrowsOn(events[i])
    decreases |events|
  {
    var n := |events| - 1;
    if Ingest(w, events[..n]).threw {
      ThrowNeedsMissingAsset(w, events[..n]);
      var i :| 0 <= i < n && ThrowsOn(events[..n][i]);
      assert events[i] == events[..n][i];
    } else {
      assert ThrowsOn(events[n]);
    }
  }

  /**
   * The weather a batch ends with is the one it started from, or what one of its matching
   * events carried: no field is ever made up or mixed from two events.
   */
  lemma {:induction false} WeatherComesFromAnEvent(w: Weather, events: seq<DataEvent>)
    ensures Ingest(w, events).weather == w ||
      exists i :: 0 <= i < |events| && Matches(events[i]) && Ingest(w, events).weather == Received(events[i].data)
    decreases |events|
  {
    if events != [] {
      var n := |events| - 1;
      var b := Ingest(w, events[..n]);
      WeatherComesFromAnEvent(w, events[..n]);
      if Ingest(w, events).weather != b.weather {
        assert Matches(events[n]) && Ingest(w, events).weather == Received(events[n].data);
      } else if b.weather != w {
        var i :| 0 <= i < n && Matches(events[..n][i]) && b.weather == Received(events[..n][i].data);
        assert events[i] == events[..n][i];
      }
    }
  }

  /** Without a missing asset nothing throws, and one fetch starts per matching event. */
  lemma {:induction false} NoThrowWithoutMissingAsset(w: Weather, events: seq<DataEvent>)
    requires forall i :: 0 <= i < |events| ==> !ThrowsOn(events[i])
    ensures !Ingest(w, events).threw
    ensures |Ingest(w, events).fetches| == MatchCount(events)
    decreases |events|
  {
    if events != [] {
      NoThrowWithoutMissingAsset(w, events[..|events| - 1]);
    }
  }

  /**
   * Last write wins: when the batch does not throw, the weather is what the last matching
   * event carried, whatever came before it.
   */
  lemma {:induction false} LastMatchWins(w: Weather, events: seq<DataEvent>, j: nat)
    requires j < |events| && Matches(events[j])
    requires forall k :: j < k < |events| ==> !Matches(events[k])
    requires !Ingest(w, events).threw
    ensures Ingest(w, events).weather == Received(events[j].data)
    decreases |events|
  {
    var init := events[..|events| - 1];
    if j < |events| - 1 {
      assert !Ingest(w, init).threw;
      LastMatchWins(w, init, j);
    }
  }

  /** Once thrown, the rest of the batch is not read. */
  lemma {:induction false} ThrownStaysThrown(w: Weather, events: seq<DataEvent>, i: nat)
    requires i <= |events| && Ingest(w, events[..i]).threw
    ensures Ingest(w, events) == Ingest(w, events[..i])
    decreases |events| - i
  {
    if i < |events| {
      assert events[..i + 1][..i] == events[..i];
      ThrownStaysThrown(w, events, i + 1);
    } else {
      assert events[..i] == events;
    }
  }

  /**
   * The first matching event without an asset throws after it has written its four fields:
   * the batch ends there with that event's weather, and no later event is read.
   */
  lemma {:induction false} FirstMissingAssetThrows(w: Weather, events: seq<DataEvent>, i: nat)
    requires i < |events| && ThrowsOn(events[i])
    requires forall k :: 0 <= k < i ==> !ThrowsOn(events[k])
    ensures Ingest(w, events).threw
    ensures Ingest(w, events).weather == Received(events[i].data)
    ensures Ingest(w, events) == Ingest(w, events[..i + 1])
  {
    var pre := events[..i];
    NoThrowWithoutMissingAsset(w, pre);
    assert events[..i + 1][..i] == pre;
    ThrownStaysThrown(w, events, i + 1);
  }
}
