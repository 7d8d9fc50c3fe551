/** The Message record (backend/models/message.js). */
module MessageModel {
  import opened Wrappers
  import opened Strings

  datatype Message = Message(booking: Id, sender: Id, receiver: Id, content: string)

  /** `content` is required and stored trimmed, so it never starts or ends with white space. */
  predicate ValidMessage(m: Message) {
    m.content != [] && Trimmed(m.content)
  }
}
