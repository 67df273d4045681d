/** The error the event bus reports when a handler fails on an event. */
module EventBus {
  import opened Wrappers
  import opened Eh

  /** The failing handler's error and the event it failed on; either may be nil. */
  datatype EventBusError = EventBusError(err: Option<Error>, event: Option<Event>)

  /** What `%s` prints for a nil value. */
  const NilText: string := "%!s(<nil>)"

  /** "<error>: (<event>)", each part printed as `%s` prints it. */
  function ErrorText(e: EventBusError): string
  {
    var head := if e.err.Some? then Text(e.err.value) else NilText;
    var tail := if e.event.Some? then EventString(e.event.value) else NilText;
    head + ": (" + tail + ")"
  }

  /** For every error and every event: the error's text, or nil's, then the event's type and version. */
  lemma ErrorTextWithEvent(err: Error, ev: Event)
    ensures ErrorText(EventBusError(Some(err), Some(ev))) ==
            Text(err) + ": (" + (ev.eventType + "@" + Format.IntToString(ev.version)) + ")"
    ensures ErrorText(EventBusError(None, Some(ev))) ==
            NilText + ": (" + (ev.eventType + "@" + Format.IntToString(ev.version)) + ")"
  {
  }

  /** For every error: with a nil event, the event part prints as nil. */
  lemma ErrorTextNilEvent(err: Error)
    ensures ErrorText(EventBusError(Some(err), None)) == Text(err) + ": (" + NilText + ")"
    ensures ErrorText(EventBusError(None, None)) == "%!s(<nil>): (%!s(<nil>))"
  {
  }

  /** The renderings of an error with a message and a new event of type `t` at version 0. */
  lemma ErrorTextAtVersionZero(msg: string, t: EventType)
    ensures ErrorText(EventBusError(Some(Custom(msg)), Some(NewEvent(t, "", 0)))) == msg + ": (" + t + "@0)"
    ensures ErrorText(EventBusError(None, Some(NewEvent(t, "", 0)))) == "%!s(<nil>): (" + t + "@0)"
  {
    assert EventString(NewEvent(t, "", 0)) == t + "@0";
  }
}
