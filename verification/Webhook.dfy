/** The protocol between gateway and tenant, and the delivery of one turn. */
module Webhook {
  import opened Text
  import opened Canonical
  import opened Routing
  import opened Sessions

  const VERSION: string := "1"

  datatype Request = Request(version: string, event: Event, turn: nat, state: Option<Blob>)

  datatype Reply = Reply(response: Response, state: Option<Blob>, clearState: bool)

  /** The two ways a document says "no state" are one. */
  function NormaliseState(state: Option<Blob>): Option<Blob> {
    if state.None? || state.value == "" || TrimSpace(state.value) == "null" then None else state
  }

  /** A webhook call ends without a usable document, or with one. */
  datatype Answer = NoAnswer | Answered(reply: Reply)

  /** What the gateway makes of the tenant's answer: nothing when the screen is
      over budget, else the reply with its state normalised. */
  function Accepted(answer: Answer): Option<Reply> {
    match answer
    case NoAnswer => None
    case Answered(reply) =>
      if ValidResponse(reply.response) then Some(reply.(state := NormaliseState(reply.state))) else None
  }

  /** Deliver, with the tenant behind the network as a function. */
  method Deliver(t: Tenant, payload: Request, call: (Tenant, Request) -> Answer) returns (reply: Option<Reply>)
    ensures reply == Accepted(call(t, payload.(version := VERSION)))
    ensures reply.Some? ==> ValidResponse(reply.value.response) && NormaliseState(reply.value.state) == reply.value.state
  {
    var request := payload.(version := VERSION);
    match call(t, request) {
      case NoAnswer =>
        reply := None;
      case Answered(out) =>
        var decoded := out.(state := NormaliseState(out.state));
        reply := if ValidResponse(decoded.response) then Some(decoded) else None;
    }
  }
}
