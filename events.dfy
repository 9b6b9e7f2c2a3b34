/** The reshaping of the inbound webhook body: the fields every shipped
    record carries, and the per-event rewrite that adds them. */
module Events {
  import opened Values

  const DataKey := "data"
  const EventsKey := "events"
  const TypeKey := "type"
  const PublishedKey := "published"
  const TimestampKey := "@timestamp"

  /** The default log type of every shipped record. */
  const OktaType := JString("okta")

  /** What the global fields are: the default type, overridden by and
      joined with every body entry except the event payload. */
  function GlobalFields(body: map<string, Json>): map<string, Json>
  {
    map[TypeKey := OktaType] + (body - {DataKey})
  }

  /** Fills the global fields by a pass over the body's entries, in
      whatever order the map yields them. */
  method ExtractGlobalFields(body: map<string, Json>) returns (globalFields: map<string, Json>)
    ensures globalFields == GlobalFields(body)
  {
    globalFields := map[TypeKey := OktaType];
    var remaining := body.Keys;
    while remaining != {}
      invariant remaining <= body.Keys
      invariant globalFields.Keys == (body.Keys - remaining - {DataKey}) + {TypeKey}
      invariant forall k :: k in body && k !in remaining && k != DataKey ==> globalFields[k] == body[k]
      invariant TypeKey in remaining || TypeKey !in body ==> globalFields[TypeKey] == OktaType
      decreases remaining
    {
      var k :| k in remaining;
      if k != DataKey {
        globalFields := globalFields[k := body[k]];
      }
      remaining := remaining - {k};
    }
  }

  /** One event as it is shipped: `published` is moved to `@timestamp`
      (nil when absent), then every global field is written over it. */
  function RewriteEvent(event: map<string, Json>, globals: map<string, Json>): map<string, Json>
  {
    var moved := (event - {PublishedKey})[TimestampKey := Get(event, PublishedKey)];
    moved + globals
  }

  /** What a shipped event holds: every global field; the old `published`
      value under `@timestamp` unless a global field of that name wins;
      every other field of the event unless a global field shadows it; and
      `published` only when it is itself a global field. */
  lemma RewriteEventFields(event: map<string, Json>, globals: map<string, Json>)
    ensures var r := RewriteEvent(event, globals);
      && r.Keys == (event.Keys - {PublishedKey}) + {TimestampKey} + globals.Keys
      && (forall k :: k in globals ==> r[k] == globals[k])
      && (TimestampKey !in globals ==> r[TimestampKey] == Get(event, PublishedKey))
      && (PublishedKey in r ==> PublishedKey in globals)
      && (forall k :: k in event && k != PublishedKey && k != TimestampKey && k !in globals ==>
            r[k] == event[k])
  {
  }

  /** The events of a body `{..., "data": {"events": [...]}}`, or None when
      the body does not have that shape (the Go code's unchecked type
      assertions then panic). */
  function EventsOf(body: map<string, Json>): Option<seq<map<string, Json>>>
  {
    match Get(body, DataKey)
    case JObject(data) =>
      (match Get(data, EventsKey)
       case JArray(items) => ObjectsOf(items)
       case _ => None)
    case _ => None
  }

  /** A body has events exactly when `data` is an object whose `events` is
      an array of objects; the events are then those objects, in order. */
  lemma EventsOfShape(body: map<string, Json>)
    ensures EventsOf(body).Some? <==>
      && DataKey in body && body[DataKey].JObject?
      && EventsKey in body[DataKey].fields && body[DataKey].fields[EventsKey].JArray?
      && forall e :: e in body[DataKey].fields[EventsKey].items ==> e.JObject?
    ensures EventsOf(body).Some? ==> var items := body[DataKey].fields[EventsKey].items;
      |EventsOf(body).value| == |items| &&
      forall i :: 0 <= i < |items| ==> items[i] == JObject(EventsOf(body).value[i])
  {
  }

  /** The field maps of a list of JSON objects, or None if some item is not an object. */
  function ObjectsOf(items: seq<Json>): (r: Option<seq<map<string, Json>>>)
    ensures r.Some? <==> forall e :: e in items ==> e.JObject?
    ensures r.Some? ==> |r.value| == |items| && forall i :: 0 <= i < |items| ==> items[i] == JObject(r.value[i])
  {
    if items == [] then Some([])
    else if !items[0].JObject? then assert items[0] in items; None
    else
      match ObjectsOf(items[1..])
      case Some(rest) => Some([items[0].fields] + rest)
      case None =>
        assert exists e :: e in items[1..] && !e.JObject?;
        None
  }

  /** The global fields never hold the event payload, hold every other body
      entry unchanged, and hold a type: the body's own `type` when it has
      one, `okta` otherwise. */
  lemma GlobalFieldsShape(body: map<string, Json>)
    ensures DataKey !in GlobalFields(body)
    ensures GlobalFields(body).Keys == (body.Keys - {DataKey}) + {TypeKey}
    ensures forall k :: k in body && k != DataKey ==> GlobalFields(body)[k] == body[k]
    ensures TypeKey in body ==> GlobalFields(body)[TypeKey] == body[TypeKey]
    ensures TypeKey !in body ==> GlobalFields(body)[TypeKey] == OktaType
  {
  }
}
