/** The session end sequence: the relational update and the flush, both from the
    same snapshot, each failing on its own. */
module SessionEnd {
  import opened Prelude
  import opened WorkingMemory
  import opened EpisodicFlush

  datatype SessionEndResult = SessionEndResult(
    session: nat,
    flushSucceeded: bool,
    relationalUpdated: bool,
    flush: Option<FlushResult>,
    errors: seq<string>)

  /** The snapshot is a copy, so what the memory becomes later does not reach the
      flush. The relational update decides neither what is written nor whether
      the flush succeeds. */
  method RunSessionEnd(server: MemoryServer, m: Memory, a: Attempt, relationalRaises: bool)
    returns (r: SessionEndResult)
    modifies server
    ensures server.writes == old(server.writes) + WritesOf(m, a)
    ensures r.session == m.session
    ensures r.flushSucceeded <==> !Fails(m, a)
    ensures r.flush.Some? <==> r.flushSucceeded
    ensures r.relationalUpdated <==> !relationalRaises
    ensures |r.errors| == (if relationalRaises then 1 else 0) + if Fails(m, a) then 1 else 0
  {
    var snapshot := m;
    r := SessionEndResult(m.session, false, false, None, []);
    var flushed := Flush(server, snapshot, a);
    if relationalRaises {
      r := r.(errors := r.errors + ["relational_update"]);
    } else {
      r := r.(relationalUpdated := true);
    }
    if flushed.Some? {
      r := r.(flush := flushed, flushSucceeded := true);
    } else {
      r := r.(errors := r.errors + ["episodic_flush"]);
    }
  }
}
