/**
  How the objects the program works on relate to the protocol's state.
 */
module Refinement {
  import opened Protocol
  import opened DatabaseAccess
  import opened BrokerAccess
  import opened Storage

  /** s describes these three objects. */
  ghost predicate Represents(s: Sys, database: Database, broker: Broker, store: ObjectStore)
    reads database, broker, store
  {
    s.tables == database.Contents() && s.copies == broker.copies && s.store == store.keys
  }

  /** es is a run from s0 to a state that describes the objects as they are now. */
  ghost predicate RunTo(s0: Sys, es: seq<Event>, database: Database, broker: Broker, store: ObjectStore)
    reads database, broker, store
  {
    IsRun(s0, es) && Represents(Exec(s0, es), database, broker, store)
  }
}
