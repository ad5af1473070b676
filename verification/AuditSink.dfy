/** The append-only audit sink both halves write to (adapters/local/audit.py). */
module AuditLog {
  import opened Kernel

  class AuditSink {
    var events: seq<AuditEvent>

    constructor ()
      ensures events == []
    {
      events := [];
    }

    method Record(event: AuditEvent)
      modifies this
      ensures events == old(events) + [event]
    {
      events := events + [event];
    }
  }
}
