/**
 * The Flask day-journal service: the `days_data` dictionary keyed by date, and the four handlers
 * that list, read, add or replace, and delete its entries, saving the whole dictionary after every
 * change.
 *
 * Request and response bodies are parsed JSON values; `fetch_weather` is a parameter; the
 * `days_data.json` file is the last dictionary written.
 */
module DaysApi {
  import opened Wrappers
  import opened Json

  /** Python truthiness, as `if not date` and `if weather` test it. */
  predicate Truthy(j: Json) {
    match j
    case JNull => false
    case JBool(b) => b
    case JNumber(n) => n != 0
    case JString(s) => s != ""
    case JArray(items) => items != []
    case JObject(fields) => |fields| != 0
  }

  /** Lists and dicts cannot be dictionary keys: using one raises `TypeError`. */
  predicate Hashable(j: Json) {
    !j.JArray? && !j.JObject?
  }

  /** `data.get(key)`: the value under `key`, or `None`. */
  function GetField(fields: map<string, Json>, key: string): Json {
    if key in fields then fields[key] else JNull
  }

  ghost predicate Distinct(s: seq<Json>) {
    forall i, j :: 0 <= i < j < |s| ==> s[i] != s[j]
  }

  function IndexOf(s: seq<Json>, x: Json): (i: nat)
    requires x in s
    ensures i < |s| && s[i] == x
  {
    if s[0] == x then 0 else 1 + IndexOf(s[1..], x)
  }

  lemma {:induction false} DistinctCardinality(s: seq<Json>)
    requires Distinct(s)
    ensures |set x | x in s| == |s|
  {
    if s != [] {
      DistinctCardinality(s[1..]);
      assert (set x | x in s) == {s[0]} + (set x | x in s[1..]);
    }
  }

  lemma RemoveAtKeepsDistinct(s: seq<Json>, i: nat)
    requires Distinct(s) && i < |s|
    ensures Distinct(s[..i] + s[i + 1..])
    ensures forall k :: k in s[..i] + s[i + 1..] <==> k in s && k != s[i]
  {
    var rest := s[..i] + s[i + 1..];
    assert forall j :: 0 <= j < |rest| ==> rest[j] == if j < i then s[j] else s[j + 1];
    forall k ensures k in rest <==> k in s && k != s[i] {
      if k in s && k != s[i] {
        var j := IndexOf(s, k);
        assert rest[if j < i then j else j - 1] == k;
      }
    }
  }

  /** Deleting the key at position `i` keeps a dictionary valid. */
  lemma RemoveKeepsValid(d: Dict, i: nat)
    requires d.Valid() && i < |d.keys|
    ensures Dict(d.keys[..i] + d.keys[i + 1..], d.entries - {d.keys[i]}).Valid()
  {
    RemoveAtKeepsDistinct(d.keys, i);
  }

  /** A Python `dict`: its keys in insertion order, and the value under each key. */
  datatype Dict = Dict(keys: seq<Json>, entries: map<Json, Json>) {
    ghost predicate Valid() {
      Distinct(keys) && forall k :: k in entries <==> k in keys
    }

    /** `d.get(key, default)` */
    function Get(key: Json, default: Json): Json {
      if key in entries then entries[key] else default
    }

    /**
     * `d[key] = value`: a new key goes last; an existing key keeps its place with the new value.
     */
    function Set(key: Json, value: Json): (d: Dict)
      requires Valid()
      ensures d.Valid()
      ensures d.Get(key, JNull) == value
      ensures forall k, v :: k != key ==> d.Get(k, v) == Get(k, v)
      ensures key in entries ==> d.keys == keys
      ensures key !in entries ==> d.keys == keys + [key]
    {
      if key in entries then Dict(keys, entries[key := value])
      else Dict(keys + [key], entries[key := value])
    }

    /** `del d[key]`, for a present key: the key and its value go, the other keys keep their order. */
    function Remove(key: Json): (d: Dict)
      requires Valid() && key in entries
      ensures d.Valid()
      ensures key !in d.entries
      ensures forall k, v :: k != key ==> d.Get(k, v) == Get(k, v)
      ensures key in keys && d.keys == keys[..IndexOf(keys, key)] + keys[IndexOf(keys, key) + 1..]
    {
      var i := IndexOf(keys, key);
      RemoveKeepsValid(this, i);
      Dict(keys[..i] + keys[i + 1..], entries - {key})
    }

    /** `list(d.values())`: one value per key, in key order. */
    function Values(): (vs: seq<Json>)
      requires Valid()
      ensures |vs| == |keys| == |entries|
      ensures forall i :: 0 <= i < |vs| ==> keys[i] in entries && vs[i] == entries[keys[i]]
    {
      DistinctCardinality(keys);
      assert entries.Keys == set x | x in keys;
      seq(|keys|, (i: int) requires 0 <= i < |keys| => entries[keys[i]])
    }
  }

  const EmptyDict: Dict := Dict([], map[])

  /**
   * The weather-fill step of `add_or_update_day`: when the posted `weather` is missing or falsy
   * and `location` is truthy, a truthy fetched weather is stored under `weather`.
   */
  function WithWeather(fields: map<string, Json>, fetchWeather: Json -> Option<string>): (r: map<string, Json>)
    ensures forall k :: k != "weather" ==> (k in r <==> k in fields) && (k in r ==> r[k] == fields[k])
    ensures r != fields <==>
      !Truthy(GetField(fields, "weather")) && Truthy(GetField(fields, "location"))
      && fetchWeather(fields["location"]).Some? && fetchWeather(fields["location"]).value != ""
    ensures r != fields ==> r == fields["weather" := JString(fetchWeather(fields["location"]).value)]
  {
    if !Truthy(GetField(fields, "weather")) && Truthy(GetField(fields, "location")) then
      match fetchWeather(fields["location"])
      case Some(w) =>
        if w != "" then
          assert "weather" in fields ==> fields["weather"] != JString(w);
          fields["weather" := JString(w)]
        else fields
      case None => fields
    else fields
  }

  /** A handler's reply: JSON with a status, the empty 204 reply, or Flask's 500 page. */
  datatype Response = JsonResponse(body: Json, status: nat) | NoContent | InternalServerError

  const DateRequired: Json := JObject(map["error" := JString("date is required")])
  const NotFound: Json := JObject(map["error" := JString("not found")])

  class DayStore {
    /** `days_data` */
    var daysData: Dict
    /** The dictionary `days_data.json` holds: `None` while no file exists. */
    var file: Option<Dict>

    ghost predicate Valid()
      reads this
    {
      daysData.Valid()
    }

    /** `days_data = load_data()`: the file's dictionary, or `{}` when there is no file. */
    constructor(file: Option<Dict>)
      requires file.Some? ==> file.value.Valid()
      ensures Valid()
      ensures daysData == file.GetOr(EmptyDict) && this.file == file
    {
      daysData := file.GetOr(EmptyDict);
      this.file := file;
    }

    /** `GET /days`: every stored day, one value per date, in insertion order. */
    function GetAllDays(): (r: Response)
      reads this
      requires Valid()
      ensures r.JsonResponse? && r.status == 200 && r.body.JArray?
      ensures |r.body.items| == |daysData.keys| == |daysData.entries|
      ensures forall i :: 0 <= i < |r.body.items| ==> r.body.items[i] == daysData.entries[daysData.keys[i]]
    {
      JsonResponse(JArray(daysData.Values()), 200)
    }

    /** `GET /days/<date>`: the stored object, or `{}` when the date is not stored. */
    function GetDay(date: string): (r: Response)
      reads this
      ensures r.JsonResponse? && r.status == 200
      ensures JString(date) in daysData.entries ==> r.body == daysData.entries[JString(date)]
      ensures JString(date) !in daysData.entries ==> r.body == JObject(map[])
    {
      JsonResponse(daysData.Get(JString(date), JObject(map[])), 200)
    }

    /**
     * `POST /days`: stores the posted object, weather filled in, under its `date`, replacing any
     * earlier entry, saves, and echoes it with 201. A falsy `date` is a 400; a body that is not an
     * object, or a list or object as `date`, raises and is a 500. Failures change nothing.
     */
    method AddOrUpdateDay(body: Json, fetchWeather: Json -> Option<string>) returns (r: Response)
      requires Valid()
      modifies this
      ensures Valid()
      ensures !body.JObject? ==> r == InternalServerError && daysData == old(daysData) && file == old(file)
      ensures body.JObject? && !Truthy(GetField(body.fields, "date")) ==>
        r == JsonResponse(DateRequired, 400) && daysData == old(daysData) && file == old(file)
      ensures body.JObject? && Truthy(GetField(body.fields, "date")) && !Hashable(body.fields["date"]) ==>
        r == InternalServerError && daysData == old(daysData) && file == old(file)
      ensures body.JObject? && Truthy(GetField(body.fields, "date")) && Hashable(body.fields["date"]) ==>
        var stored := JObject(WithWeather(body.fields, fetchWeather));
        && daysData == old(daysData).Set(body.fields["date"], stored)
        && file == Some(daysData)
        && r == JsonResponse(stored, 201)
    {
      if !body.JObject? {
        return InternalServerError;
      }
      var data := body.fields;
      var date := GetField(data, "date");
      if !Truthy(date) {
        return JsonResponse(DateRequired, 400);
      }
      data := WithWeather(data, fetchWeather);
      if !Hashable(date) {
        return InternalServerError;
      }
      daysData := daysData.Set(date, JObject(data));
      file := Some(daysData);
      r := JsonResponse(JObject(data), 201);
    }

    /** `DELETE /days/<date>`: removes a stored date, saves and answers 204; otherwise 404 and no change. */
    method DeleteDay(date: string) returns (r: Response)
      requires Valid()
      modifies this
      ensures Valid()
      ensures JString(date) in old(daysData.entries) ==>
        daysData == old(daysData).Remove(JString(date)) && file == Some(daysData) && r == NoContent
      ensures JString(date) !in old(daysData.entries) ==>
        daysData == old(daysData) && file == old(file) && r == JsonResponse(NotFound, 404)
    {
      if JString(date) in daysData.entries {
        daysData := daysData.Remove(JString(date));
        file := Some(daysData);
        return NoContent;
      }
      return JsonResponse(NotFound, 404);
    }
  }

  /** After a successful POST with a string date, reading that date gives back the echoed object. */
  lemma PostedDayIsServed(store: DayStore, before: Dict, date: string, stored: Json)
    requires before.Valid() && store.daysData == before.Set(JString(date), stored)
    ensures store.GetDay(date) == JsonResponse(stored, 200)
  {
  }

  /** After a DELETE that found the date, reading it gives `{}`, and a second DELETE is a 404. */
  lemma DeletedDayIsGone(store: DayStore, before: Dict, date: string)
    requires before.Valid() && JString(date) in before.entries
    requires store.daysData == before.Remove(JString(date))
    ensures store.GetDay(date) == JsonResponse(JObject(map[]), 200)
    ensures JString(date) !in store.daysData.entries
  {
  }

  /** Posting the same object twice leaves the same dictionary as posting it once. */
  lemma RepostIsIdempotent(d: Dict, key: Json, value: Json)
    requires d.Valid()
    ensures d.Set(key, value).Set(key, value) == d.Set(key, value)
  {
  }

  /** Replacing an existing date keeps the listing order; a new date is listed last. */
  lemma ListingOrderAfterPost(d: Dict, key: Json, value: Json)
    requires d.Valid()
    ensures key in d.entries ==>
      var before, after := d.Values(), d.Set(key, value).Values();
      |after| == |before| &&
      forall i :: 0 <= i < |before| ==> after[i] == if d.keys[i] == key then value else before[i]
    ensures key !in d.entries ==>
      d.Set(key, value).Values() == d.Values() + [value]
  {
    var after := d.Set(key, value);
    if key !in d.entries {
      assert after.Values() == d.Values() + [value];
    }
  }
}
