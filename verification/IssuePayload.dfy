/** The session pair and the request body `{ ...formState, addUser, hotelId }`
    assembled from the draft and the session. */
module IssuePayload {
  import opened JsValues
  import opened IssueDraft

  /** The logged-in identity as the screen holds it: `username` and
      `hotelId`, each `''` until the stored values are read. */
  datatype Session = Session(username: string, hotelId: string)

  const NoSession: Session := Session("", "")

  /** The pair the mount effect stores: each stored item `|| ''`. */
  function LoadSession(storedUsername: Option<string>, storedHotelId: Option<string>): (s: Session)
    ensures s.username == "" <==> !Truthy(storedUsername)
    ensures s.hotelId == "" <==> !Truthy(storedHotelId)
    ensures s.username != "" ==> storedUsername == Some(s.username)
    ensures s.hotelId != "" ==> storedHotelId == Some(s.hotelId)
  {
    Session(OrElse(storedUsername, ""), OrElse(storedHotelId, ""))
  }

  /** The guard of `handleSubmit`: both strings truthy. */
  predicate Present(s: Session) {
    s.username != "" && s.hotelId != ""
  }

  /** The request body as a plain object. */
  type Payload = map<string, Value>

  /** The property name of each draft field in the form object. */
  function PropertyName(f: Field): string {
    match f
    case RoomNumber => "roomNumber"
    case IssueTitle => "issueTitle"
    case IssueDescription => "issueDescription"
    case Category => "category"
    case Source => "source"
    case AssignedPerson => "assignedPerson"
  }

  const DraftKeys: set<string> :=
    {"roomNumber", "issueTitle", "issueDescription", "category", "source", "assignedPerson"}

  const SessionKeys: set<string> := {"addUser", "hotelId"}

  /** The form object `formState` itself, with one property per field. */
  function ToObject(d: Draft): (o: Payload)
    ensures o.Keys == DraftKeys
    ensures forall f :: PropertyName(f) in o && o[PropertyName(f)] == Get(d, f)
  {
    map["roomNumber" := d.roomNumber, "issueTitle" := d.issueTitle,
        "issueDescription" := d.issueDescription, "category" := d.category,
        "source" := d.source, "assignedPerson" := d.assignedPerson]
  }

  /** `{ ...formState, addUser: username, hotelId: hotelId }`. The two session
      properties do not collide with the draft's, so every draft value
      reaches the body unchanged. */
  function BuildPayload(d: Draft, s: Session): (p: Payload)
    ensures p.Keys == DraftKeys + SessionKeys
    ensures forall f :: PropertyName(f) in p && p[PropertyName(f)] == Get(d, f)
    ensures p["addUser"] == Str(s.username) && p["hotelId"] == Str(s.hotelId)
  {
    Spread(ToObject(d), map["addUser" := Str(s.username), "hotelId" := Str(s.hotelId)])
  }

  /** Reads a draft and a session back out of a request body: the partner of
      `BuildPayload`, used to state that assembly loses nothing. */
  function ParsePayload(p: Payload): Option<(Draft, Session)> {
    if DraftKeys + SessionKeys <= p.Keys && p["addUser"].Str? && p["hotelId"].Str? then
      Some((Draft(p["roomNumber"], p["issueTitle"], p["issueDescription"],
                  p["category"], p["source"], p["assignedPerson"]),
            Session(p["addUser"].text, p["hotelId"].text)))
    else
      None
  }

  /** Building the body loses nothing: the draft and the session can be
      read back out of it exactly. */
  lemma ParseBuildRoundTrip(d: Draft, s: Session)
    ensures ParsePayload(BuildPayload(d, s)) == Some((d, s))
  {
  }

  /** Distinct drafts or sessions give distinct bodies. */
  lemma BuildPayloadInjective(d1: Draft, s1: Session, d2: Draft, s2: Session)
    requires BuildPayload(d1, s1) == BuildPayload(d2, s2)
    ensures d1 == d2 && s1 == s2
  {
  }

  /** The example body: a filled-in draft for room 204 sent by alice of
      hotel H1. */
  lemma ExampleBody()
    ensures BuildPayload(
              Draft(Str("204"), Str("AC broken"), Str("No cooling"),
                    Str("Maintenance"), Str("Guest"), Str("John Doe")),
              Session("alice", "H1"))
         == map["roomNumber" := Str("204"), "issueTitle" := Str("AC broken"),
                "issueDescription" := Str("No cooling"), "category" := Str("Maintenance"),
                "source" := Str("Guest"), "assignedPerson" := Str("John Doe"),
                "addUser" := Str("alice"), "hotelId" := Str("H1")]
  {
  }
}
