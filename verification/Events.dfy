/** The identity of an event: the `eventId` of its envelope. */
module Events {
  datatype EventId = EventId(text: string)
}
