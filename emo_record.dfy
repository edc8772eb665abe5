/**
 * EMO's `EmotionRecord` and its `Codable` conformance: the synthesized keyed coding of the
 * record, the hand-written coding of `Mood` under the single key `"rawValue"`, and the coding
 * of the `[EmotionRecord]` array that the service persists.
 *
 * `Date` is an abstract instant (`timestamp: int`), coded as a JSON number.
 */
module EmotionRecord {
  import opened Wrappers
  import opened Json
  import opened Uuids
  import opened EmoMood

  /** All four fields are `let`s: a record is an immutable value. */
  datatype EmotionRecord = EmotionRecord(id: Uuid, mood: Mood, note: string, timestamp: int)

  /** The `DecodingError` cases these decoders throw. */
  datatype DecodingError =
    | TypeMismatch(expected: string)
    | KeyNotFound(key: string)
    | ValueNotFound(key: string)
    | DataCorrupted(key: string, debugDescription: string)

  /** `Mood.CodingKeys.rawValue`. */
  const RawValueKey := "rawValue"

  /** `decode(_:forKey:)` before the value itself is decoded: the key must be present and not null. */
  function Field(fields: map<string, Json>, key: string): Result<Json, DecodingError> {
    if key !in fields then Failure(KeyNotFound(key))
    else if fields[key] == JNull then Failure(ValueNotFound(key))
    else Success(fields[key])
  }

  /** `decode(String.self, forKey: key)`. */
  function StringField(fields: map<string, Json>, key: string): Result<string, DecodingError> {
    var v :- Field(fields, key);
    if v.JString? then Success(v.s) else Failure(TypeMismatch("String"))
  }

  /** `Mood.encode(to:)`: the raw value under `"rawValue"`. */
  function EncodeMood(m: Mood): Json {
    JObject(map[RawValueKey := JString(RawValue(m))])
  }

  /** `Mood.init(from:)`. */
  function DecodeMood(j: Json): Result<Mood, DecodingError> {
    if !j.JObject? then Failure(TypeMismatch("keyed container"))
    else
      var raw :- StringField(j.fields, RawValueKey);
      match FromRawValue(raw)
      case None => Failure(DataCorrupted(RawValueKey, "Invalid mood value"))
      case Some(m) => Success(m)
  }

  /** The synthesized `EmotionRecord.encode(to:)`. */
  function EncodeRecord(r: EmotionRecord): Json {
    JObject(map[
      "id" := JString(r.id),
      "mood" := EncodeMood(r.mood),
      "note" := JString(r.note),
      "timestamp" := JNumber(r.timestamp)])
  }

  /** The synthesized `EmotionRecord.init(from:)`: the properties in declaration order, first error wins. */
  function DecodeRecord(j: Json): Result<EmotionRecord, DecodingError> {
    if !j.JObject? then Failure(TypeMismatch("keyed container"))
    else
      var idText :- StringField(j.fields, "id");
      var id :- match ParseUuid(idText)
        case None => Failure(DataCorrupted("id", "Attempted to decode UUID from invalid UUID string."))
        case Some(u) => Success(u);
      var moodJson :- Field(j.fields, "mood");
      var mood :- DecodeMood(moodJson);
      var note :- StringField(j.fields, "note");
      var stamp :- Field(j.fields, "timestamp");
      if stamp.JNumber? then Success(EmotionRecord(id, mood, note, stamp.n))
      else Failure(TypeMismatch("Double"))
  }

  /** `JSONEncoder().encode(records)`. */
  function EncodeRecords(rs: seq<EmotionRecord>): Json {
    JArray(seq(|rs|, i requires 0 <= i < |rs| => EncodeRecord(rs[i])))
  }

  function DecodeItems(items: seq<Json>): Result<seq<EmotionRecord>, DecodingError> {
    if items == [] then Success([])
    else
      var first :- DecodeRecord(items[0]);
      var rest :- DecodeItems(items[1..]);
      Success([first] + rest)
  }

  /** `JSONDecoder().decode([EmotionRecord].self, from:)`: every element must decode. */
  function DecodeRecords(j: Json): Result<seq<EmotionRecord>, DecodingError> {
    if j.JArray? then DecodeItems(j.items) else Failure(TypeMismatch("Array"))
  }

  /** Encoding writes exactly one key, `"rawValue"`, holding the raw value. */
  lemma EncodeMoodShape(m: Mood)
    ensures EncodeMood(m).JObject? && EncodeMood(m).fields.Keys == {"rawValue"}
    ensures EncodeMood(m).fields["rawValue"] == JString(RawValue(m))
  {
  }

  /** Decoding is a left inverse of encoding, and accepts only objects whose `"rawValue"` is that encoding's. */
  lemma MoodRoundTrip(m: Mood, j: Json)
    ensures DecodeMood(EncodeMood(m)) == Success(m)
    ensures DecodeMood(j) == Success(m) ==>
      j.JObject? && RawValueKey in j.fields && j.fields[RawValueKey] == JString(RawValue(m))
  {
    RawValueRoundTrip(m, RawValue(m));
    if DecodeMood(j) == Success(m) {
      RawValueRoundTrip(m, j.fields[RawValueKey].s);
    }
  }

  /** Any string other than the five raw values, in any other case, is rejected as corrupted data. */
  lemma DecodeMoodRejectsUnknown(s: string)
    requires forall m :: RawValue(m) != s
    ensures DecodeMood(JObject(map[RawValueKey := JString(s)])) ==
      Failure(DataCorrupted(RawValueKey, "Invalid mood value"))
  {
  }

  /** A record survives encoding and decoding with all four fields intact. */
  lemma RecordRoundTrip(r: EmotionRecord)
    ensures DecodeRecord(EncodeRecord(r)) == Success(r)
  {
    ParseUuidString(r.id);
    MoodRoundTrip(r.mood, EncodeMood(r.mood));
  }

  lemma {:induction false} RecordsRoundTrip(rs: seq<EmotionRecord>)
    ensures DecodeRecords(EncodeRecords(rs)) == Success(rs)
  {
    var items := EncodeRecords(rs).items;
    if rs != [] {
      RecordRoundTrip(rs[0]);
      RecordsRoundTrip(rs[1..]);
      assert items[1..] == EncodeRecords(rs[1..]).items;
      assert rs == [rs[0]] + rs[1..];
    }
  }

  /** One record that does not decode makes the whole array fail to decode. */
  lemma {:induction false} OneBadRecordFailsBatch(items: seq<Json>, i: nat)
    requires i < |items| && DecodeRecord(items[i]).Failure?
    ensures DecodeRecords(JArray(items)).Failure?
  {
    if i > 0 && DecodeRecord(items[0]).Success? {
      OneBadRecordFailsBatch(items[1..], i - 1);
    }
  }

  /** In particular, a record whose mood is not one of the five raw values does not decode. */
  lemma UnknownMoodFailsRecord(fields: map<string, Json>, s: string)
    requires "mood" in fields && fields["mood"] == JObject(map[RawValueKey := JString(s)])
    requires forall m :: RawValue(m) != s
    ensures DecodeRecord(JObject(fields)).Failure?
  {
  }
}
