/** The notification record that travels through the delivery queue. */
module Payloads {
  import opened Wrappers

  /** A notification: the chat to send to and the link to send. */
  datatype Message = Message(target: int, link: string)

  /** One entry of a Redis list of notifications. The JSON text is abstracted: an entry is either the
      serialisation of a `Message` or text that does not deserialise as one. */
  datatype Payload = Encoded(msg: Message) | Garbled(text: string)

  /** `serde_json::from_str::<Message>` on an entry. */
  function Decode(p: Payload): (r: Option<Message>)
    ensures r.Some? <==> p.Encoded?
    ensures r.Some? ==> r.value == p.msg
  {
    match p
    case Encoded(m) => Some(m)
    case Garbled(_) => None
  }
}
