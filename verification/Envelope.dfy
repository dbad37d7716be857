/** The outbox envelope: what the worker writes into the stream and what the relay makes of it.
    JSON text is not modelled: a stored field either encodes a JSON value or is not JSON at all. */
module Envelope {
  import opened Wrappers

  datatype Json =
    | JNull
    | JBool(flag: bool)
    | JNum(number: real)
    | JStr(text: string)
    | JArr(items: seq<Json>)
    | JObj(members: map<string, Json>)

  datatype Stored = NotJson | Encodes(value: Json)

  /** The fields of a stream entry; `None` stands for a value that is not a dictionary. */
  type Fields = Option<map<string, Stored>>

  /** The columns of `outbox_events` that the worker publishes. */
  datatype Event = Event(id: string, organizationId: string, eventType: string, payload: Json)

  datatype ParsedEvent = ParsedEvent(
    eventId: Option<string>, organizationId: string, eventType: string, payload: map<string, Json>)

  datatype Room = OrganizationRoom(id: string) | TournamentRoom(tournament: Json)

  datatype Delivery = Delivery(room: Room, eventType: string, payload: map<string, Json>)

  const PUBLIC_REALTIME_EVENTS := {"MATCH_CLOSED", "MATCH_UPDATED", "STANDINGS_UPDATED"}

  function BuildStreamMessage(event: Event): Json {
    JObj(map[
      "event_id" := JStr(event.id),
      "id" := JStr(event.id),
      "organization_id" := JStr(event.organizationId),
      "event_type" := JStr(event.eventType),
      "payload" := event.payload
    ])
  }

  function StreamFields(event: Event): Fields {
    Some(map["event" := Encodes(BuildStreamMessage(event))])
  }

  function Get(m: map<string, Json>, key: string): Json {
    if key in m then m[key] else JNull
  }

  predicate NonEmptyString(value: Json) {
    value.JStr? && value.text != ""
  }

  function DeliveryIdentifier(value: Json): Option<string> {
    if NonEmptyString(value) then Some(value.text) else None
  }

  function ParseEnvelope(fields: Fields): Option<ParsedEvent> {
    if fields.None? || "event" !in fields.value then None
    else match fields.value["event"]
      case NotJson => None
      case Encodes(value) =>
        if !value.JObj? then None
        else
          var event := value.members;
          var eventType, organizationId := Get(event, "event_type"), Get(event, "organization_id");
          var payload := Get(event, "payload");
          if !NonEmptyString(eventType) || !NonEmptyString(organizationId) || !payload.JObj? then None
          else
            var eventId := DeliveryIdentifier(Get(event, "event_id"));
            var legacyId := DeliveryIdentifier(Get(event, "id"));
            Some(ParsedEvent(if eventId.None? then legacyId else eventId,
                             organizationId.text, eventType.text, payload.members))
  }

  /** The object that an entry holds. */
  predicate Carries(fields: Fields, event: map<string, Json>) {
    fields.Some? && "event" in fields.value && fields.value["event"] == Encodes(JObj(event))
  }

  /** The identifier under which an event is delivered: its own, else the old one, else none. */
  predicate Identifies(event: map<string, Json>, id: Option<string>) {
    if NonEmptyString(Get(event, "event_id")) then id.Some? && Get(event, "event_id") == JStr(id.value)
    else if NonEmptyString(Get(event, "id")) then id.Some? && Get(event, "id") == JStr(id.value)
    else id.None?
  }

  /** An entry is readable exactly when it carries an object with a type, an organization and an object as
      payload, and then it is read as what it carries; whatever else it carries makes no difference. */
  lemma ParsedExactly(fields: Fields, p: ParsedEvent)
    ensures ParseEnvelope(fields) == Some(p) <==>
      exists event: map<string, Json> :: Carries(fields, event)
        && p.eventType != "" && Get(event, "event_type") == JStr(p.eventType)
        && p.organizationId != "" && Get(event, "organization_id") == JStr(p.organizationId)
        && Get(event, "payload") == JObj(p.payload) && Identifies(event, p.eventId)
  {
    if ParseEnvelope(fields) == Some(p) {
      assert Carries(fields, fields.value["event"].value.members);
    }
  }

  function BuildRealtimePayload(payload: map<string, Json>, eventId: Option<string>): map<string, Json> {
    var own := payload - {"event_id"};
    match eventId
    case None => own
    case Some(id) => own["event_id" := JStr(id)]
  }

  predicate Truthy(value: Json) {
    match value
    case JNull => false
    case JBool(flag) => flag
    case JNum(number) => number != 0.0
    case JStr(text) => text != ""
    case JArr(items) => items != []
    case JObj(members) => members != map[]
  }

  /** The socket emits of one domain event, in order: the organization, then a public tournament. */
  function Deliveries(event: ParsedEvent): (r: seq<Delivery>)
    ensures 1 <= |r| <= 2
    ensures r[0].room == OrganizationRoom(event.organizationId)
  {
    var payload := BuildRealtimePayload(event.payload, event.eventId);
    var tournament := Get(event.payload, "tournament_id");
    [Delivery(OrganizationRoom(event.organizationId), event.eventType, payload)] +
    if Truthy(tournament) && event.eventType in PUBLIC_REALTIME_EVENTS
    then [Delivery(TournamentRoom(tournament), event.eventType, payload)]
    else []
  }

  /** The rooms of an event: its organization's always, a tournament's exactly when the event is public and names
      one; no room gets it twice, and all of them get the same. */
  lemma RoomsExactly(event: ParsedEvent)
    ensures var all, tournament := Deliveries(event), Get(event.payload, "tournament_id");
      && (exists d :: d in all && d.room == OrganizationRoom(event.organizationId))
      && (forall t :: (exists d :: d in all && d.room == TournamentRoom(t)) <==>
            && t == tournament && t !in {JNull, JBool(false), JNum(0.0), JStr(""), JArr([]), JObj(map[])}
            && event.eventType in {"MATCH_UPDATED", "MATCH_CLOSED", "STANDINGS_UPDATED"})
      && (forall i, j :: 0 <= i < j < |all| ==> all[i].room != all[j].room && all[i].payload == all[j].payload)
  {
    var all := Deliveries(event);
    assert all[0] in all;
    assert |all| == 2 ==> all[1] in all && all[1].room == TournamentRoom(Get(event.payload, "tournament_id"));
  }

  /** A published row is readable by the relay, with its own identifier, exactly when its type and
      organization are non-empty and its payload is an object; otherwise the relay skips it. */
  lemma EnvelopeRoundTrip(event: Event)
    ensures event.eventType != "" && event.organizationId != "" && event.payload.JObj?
            ==> ParseEnvelope(StreamFields(event)) ==
                Some(ParsedEvent(if event.id == "" then None else Some(event.id), event.organizationId,
                                 event.eventType, event.payload.members))
    ensures event.eventType == "" || event.organizationId == "" || !event.payload.JObj?
            ==> ParseEnvelope(StreamFields(event)) == None
  {
    var members := BuildStreamMessage(event).members;
    assert Get(members, "event_type") == JStr(event.eventType);
    assert Get(members, "organization_id") == JStr(event.organizationId);
    assert Get(members, "payload") == event.payload;
    assert Get(members, "event_id") == Get(members, "id") == JStr(event.id);
  }

  /** Every socket emit of one event carries the same identifier, the server's, whatever the domain
      payload said; every other payload key is untouched. */
  lemma ServerIdentifierWins(event: ParsedEvent, d: Delivery)
    requires d in Deliveries(event)
    ensures d.eventType == event.eventType
    ensures event.eventId.Some? ==> "event_id" in d.payload && d.payload["event_id"] == JStr(event.eventId.value)
    ensures event.eventId.None? ==> "event_id" !in d.payload
    ensures forall key :: key != "event_id" ==>
              (key in d.payload <==> key in event.payload) && (key in d.payload ==> d.payload[key] == event.payload[key])
  {
  }
}
