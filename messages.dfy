/** The chat message the client builds and both relays forward unchanged. */
module Messages {

  /** `{ sender, receiver, text, createdAt, chatId }`; createdAt is `Date.now()` in milliseconds. */
  datatype ChatMessage = ChatMessage(
    sender: string,
    receiver: string,
    text: string,
    createdAt: int,
    chatId: string)
}
