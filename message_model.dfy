/** The message document (backend/models/Message.js): required references,
    bounded content, and the unread default. */
module MessageModel {

  import opened Common

  datatype Message = Message(
    id: Id,
    listing: Id,
    sender: Id,
    receiver: Id,
    content: string,
    isRead: bool,
    readAt: Option<int>,
    createdAt: int)

  /** The sort key of the newest-first message queries. */
  function SentAt(m: Message): int {
    m.createdAt
  }

  const ContentMax := 1000

  predicate ContentOk(content: string) {
    content != "" && |content| <= ContentMax
  }

  /** A stored message has valid content, and a read time only once it has been read. */
  predicate Valid(m: Message) {
    ContentOk(m.content) && (m.readAt.Some? ==> m.isRead)
  }

  /** `Message.create`: the content validators, then the defaults: unread, no
      read time, created now. The three references are ids, so always present. */
  function NewMessage(id: Id, listing: Id, sender: Id, receiver: Id, content: string, now: int): (r: Result<Message>)
    ensures r.Ok? <==> ContentOk(content)
    ensures r.Err? ==> r.failure.BadRequest?
    ensures r.Ok? ==> Valid(r.value)
    ensures r.Ok? ==> && r.value.id == id
                      && r.value.listing == listing
                      && r.value.sender == sender
                      && r.value.receiver == receiver
                      && r.value.content == content
                      && !r.value.isRead
                      && r.value.readAt.None?
                      && r.value.createdAt == now
  {
    if content == "" then Err(BadRequest("Message content is required"))
    else if |content| > ContentMax then Err(BadRequest("Message cannot be more than 1000 characters"))
    else Ok(Message(id, listing, sender, receiver, content, false, None, now))
  }
}
