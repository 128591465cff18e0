/**
 * The plain records of the relay: the submission a client sends
 * (`requests.MessageRequest`, and its copy in `cmd/main.go`) and the
 * canonical message record (`models.Message`). They carry no behaviour.
 */
module Models {

  /** One octet of a frame, a request body or a cached value. */
  newtype byte = x: int | 0 <= x < 256

  type Bytes = seq<byte>

  /** A message identifier; UUID generation is outside the model, so an id is any number the generator hands out. */
  type Uuid = nat

  /** A decoded submission: `{sender_id, receiver_id, content}`. */
  datatype MessageRequest = MessageRequest(senderId: int, receiverId: int, content: string)

  /** The record built for a submission at ingestion time. */
  datatype Message = Message(messageId: Uuid, senderId: int, receiverId: int, content: string, createdAt: string)
}
