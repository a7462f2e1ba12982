/** The answers of the backup barrier's calls when nobody interrupts them, over its fields. */
module BackupAnswers {
  import opened Common
  import opened BackupBarrier

  /** Begin succeeds exactly for a new epoch with a non-empty name of at most 128 bytes, on a free and
      inactive barrier whose table takes
      the row; a lock that is held makes it wait, and anything else is refused and changes nothing. */
  lemma BeginIsAnswered(f: Fields, e: Epoch, dbOk: bool, now: int)
    ensures var (after, out) := BeginAlone(f, e, dbOk, now);
            var named := e != NoEpoch && e.length <= 128;
            var held := f.writing || f.readers != {};
            && (out == Waiting <==> named && held)
            && (out == Done <==> named && !held && !f.active && dbOk && e !in f.db)
            && (out != Done ==> after == f)
            && (out == Done ==>
                  && after.active && after.writing && after.epoch == e
                  && after.db.Keys == f.db.Keys + {e} && (forall d :: d in f.db ==> after.db[d] == f.db[d])
                  && after.db[e].status == Active && after.db[e].started == now)
  {
  }

  /** End succeeds exactly with a valid status for the epoch the barrier is active for, whose row is still active. */
  lemma EndIsAnswered(f: Fields, e: Epoch, status: Option<bool>, dbOk: bool)
    ensures var (after, out) := EndAlone(f, e, status, dbOk);
            && (out == Done <==>
                  && status.Some? && f.active && f.epoch == e
                  && dbOk && e in f.db && f.db[e].status == Active)
            && (out != Done ==> out == Refused && after == f)
            && (out == Done ==>
                  && !after.active && !after.writing && after.epoch == NoEpoch && after.readers == f.readers
                  && after.db.Keys == f.db.Keys && (forall d :: d in f.db && d != e ==> after.db[d] == f.db[d])
                  && after.db[e].status == Ended(status.value) && after.db[e].started == f.db[e].started)
  {
  }

  /** What one call begins, only an End for the same epoch undoes: it frees barrier and lock and
      leaves the row ended. */
  lemma BeginThenEnd(f: Fields, e: Epoch, now: int, d: Epoch, ok: bool)
    requires BeginAlone(f, e, true, now).1 == Done
    ensures var begun := BeginAlone(f, e, true, now).0;
            var (after, out) := EndAlone(begun, d, Some(ok), true);
            if d == e then
              out == Done && after == f.(db := f.db[e := Row(Ended(ok), now)], active := false, epoch := NoEpoch)
            else out == Refused && after == begun
  {
  }

  /** A restart takes up an active epoch if there is one, and one that no other active epoch was started after. */
  lemma RestartTakesLatest(w: World, found: Option<Epoch>)
    requires Step(w, Restart(found)) != w
    ensures var after := Step(w, Restart(found));
            && after.db == w.db && after.active == after.writing
            && (after.active <==> exists e :: e in w.db && w.db[e].status == Active)
            && (after.active ==> after.epoch in w.db && w.db[after.epoch].status == Active
                                 && forall e :: e in w.db && w.db[e].status == Active ==>
                                      w.db[e].started <= w.db[after.epoch].started)
  {
  }
}
