/**
  The order of calls. The program's objects append to a trace, in the protocol's terms,
  what each call of a worker has done, at the moment it is done.
 */
module Tracing {
  import opened Protocol

  class Trace {
    ghost var events: seq<Event>

    constructor ()
      ensures events == []
    {
      events := [];
    }
  }
}
