/** src/db/jobs.rs: the progress report of a job and the gate of its ready update look at the same rows. */
module Reports {
  import opened Wrappers
  import opened Tables

  function Unfinished(t: Tables, id: JobId): set<Key>
    requires id in t.jobs
  {
    set k | k in Window(t, id) && !t.signatures[k].isProcessed
  }

  /**
   * The report splits the window into processed and remaining rows, and the ready update of an indexing
   * job succeeds exactly when nothing remains.
   */
  lemma ReportAgreesWithGate(t: Tables, id: JobId)
    requires id in t.jobs
    ensures var info := JobReport(t, id).value;
            && info.total == info.processed + |Unfinished(t, id)|
            && info.remaining == |Unfinished(t, id)|
            && (GateOpen(t, id) <==> info.remaining == 0)
            && (t.jobs[id].status == Indexing ==> (CanUpdate(t, id, Ready) <==> info.remaining == 0))
            && (info.total == 0 ==> info.processed == 0 && info.remaining == 0)
  {
    var window := Window(t, id);
    var done := set k | k in window && t.signatures[k].isProcessed;
    assert window == done + Unfinished(t, id);
    assert |done + Unfinished(t, id)| == |done| + |Unfinished(t, id)|;
    if Unfinished(t, id) == {} {
      forall k | k in t.signatures && k.owner == t.jobs[id].address && InWindow(t.jobs[id], t.signatures[k].blockTime)
        ensures t.signatures[k].isProcessed
      {
        assert k in window && k !in Unfinished(t, id);
      }
    } else {
      var k :| k in Unfinished(t, id);
      assert k in window;
    }
  }
}
