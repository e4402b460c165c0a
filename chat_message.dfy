/** The chat payload a client builds when it sends, and that the server relays unchanged. */
module ChatMessages {
  datatype Kind = Text | Emoji

  /** `time` is the sender's locale clock string ("10:42") and `id` the sender's millisecond clock;
      both arrive as opaque inputs. */
  datatype ChatMessage = ChatMessage(
    room: string,
    author: string,
    message: string,
    kind: Kind,
    time: string,
    id: int)
}
