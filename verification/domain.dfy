/** Records shared by the browser client, the server route and the model
    gateway: the car record the UI shows, a click interaction, a chat turn,
    the JSON values that travel between them, and the body of a chat request. */
module Domain {
  import opened Wrappers

  /** Who wrote a chat turn. */
  datatype Role = User | Assistant

  /** A rental car as the UI components receive it. The rating and its review
      count feed only the rating row and are not part of this record. */
  datatype Car = Car(
    id: string,
    make: string,
    model: string,
    year: int,
    pricePerDay: int,
    category: string,   // the `type` field: "Electric", "Sport SUV", ...
    seats: int,
    range: string,      // shown as the mileage policy
    location: string,
    features: seq<string>
  )

  /** A click on a car card; the kind is always `car_click` and the timestamp
      is an ISO string produced by the clock, opaque here. */
  datatype Interaction = Interaction(car: Car, timestamp: string)

  /** One conversation turn as sent to the model: `{role, content}`. */
  datatype MessageParam = MessageParam(role: Role, content: string)

  /** JSON values. Numbers are integers here: no part of the model inspects a
      fractional number. */
  datatype Json =
    | JNull
    | JBool(b: bool)
    | JNumber(n: int)
    | JString(s: string)
    | JArray(items: seq<Json>)
    | JObject(members: seq<(string, Json)>)

  /** The body posted to `/api/chat`. `history` and `interactions` may be
      missing from the JSON; the server then uses the empty list. */
  datatype ChatRequest = ChatRequest(
    message: string,
    history: Option<seq<MessageParam>>,
    interactions: Option<seq<Interaction>>
  )

  /** `{message: text}`, the shape of every reply the server builds itself. */
  function MessageObject(text: string): Json {
    JObject([("message", JString(text))])
  }
}
