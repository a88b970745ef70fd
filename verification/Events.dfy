/** The event record that the correlation layer works on (`correlation/src/lib.rs`, `EventRecord`). */
module Events {
  import opened Options
  import Indicators

  datatype Event = Event(id: int, eventType: string, source: string, severity: string, occurredAt: int,
                         correlationId: Option<string>, payload: Indicators.Payload)
}
