/** Write-ahead intents, observations after them, and the classifications observations support. */
module Reconciliation {
  import opened Common
  import opened Tables

  /** A live or recovery read that returned a value. */
  predicate IsFresh(o: Observation) {
    (o.source.LiveRead? || o.source.Recovery?) && o.outcome.ValueObserved?
  }

  predicate Bound(i: Intent, o: Observation) {
    o.config == Some(i.config) && o.fingerprint == Some(i.fingerprint) && o.workspace == Some(i.workspace)
  }

  /** `_validate_classification`: whether the observations can carry the claim. */
  predicate Supports(i: Intent, os: seq<Observation>, c: Classification) {
    match c
    case Before =>
      && (exists o :: o in os && IsFresh(o))
      && (forall o :: o in os && IsFresh(o) ==> Bound(i, o) && o.value == Some(i.before))
    case AfterObserved =>
      && (exists o :: o in os && IsFresh(o))
      && (forall o :: o in os && IsFresh(o) ==> Bound(i, o) && o.value == Some(i.after))
    case Diverged =>
      exists o :: o in os && IsFresh(o) && (!Bound(i, o) || (o.value != Some(i.before) && o.value != Some(i.after)))
    case Unavailable => exists o :: o in os && !o.outcome.ValueObserved?
  }

  /** When the two values differ, observations support at most one of the three
      value claims, and support none exactly when there is no fresh read, or
      every fresh read matches its bindings and both values were seen. */
  lemma AtMostOneClaim(i: Intent, os: seq<Observation>)
    requires i.before != i.after
    ensures !(Supports(i, os, Before) && Supports(i, os, AfterObserved))
    ensures !(Supports(i, os, Before) && Supports(i, os, Diverged))
    ensures !(Supports(i, os, AfterObserved) && Supports(i, os, Diverged))
    ensures !Supports(i, os, Before) && !Supports(i, os, AfterObserved) && !Supports(i, os, Diverged) <==>
            || (forall o :: o in os ==> !IsFresh(o))
            || (&& (forall o :: o in os && IsFresh(o) ==>
                                  Bound(i, o) && (o.value == Some(i.before) || o.value == Some(i.after)))
                && (exists o :: o in os && IsFresh(o) && o.value == Some(i.before))
                && (exists o :: o in os && IsFresh(o) && o.value == Some(i.after)))
  {
    if exists o :: o in os && IsFresh(o) {
      var o :| o in os && IsFresh(o);
      if !Supports(i, os, Diverged) {
        assert Bound(i, o) && (o.value == Some(i.before) || o.value == Some(i.after));
        if !Supports(i, os, Before) {
          var p :| p in os && IsFresh(p) && p.value != Some(i.before);
          assert p.value == Some(i.after);
        }
        if !Supports(i, os, AfterObserved) {
          var p :| p in os && IsFresh(p) && p.value != Some(i.after);
          assert p.value == Some(i.before);
        }
      }
    }
  }

  /** More observations never turn one value claim into another. */
  lemma ClaimsOnlyWeaken(i: Intent, os: seq<Observation>, more: seq<Observation>)
    requires i.before != i.after
    ensures Supports(i, os, Diverged) ==> Supports(i, os + more, Diverged)
    ensures Supports(i, os, Before) ==> !Supports(i, os + more, AfterObserved)
    ensures Supports(i, os, AfterObserved) ==> !Supports(i, os + more, Before)
  {
    if Supports(i, os, Diverged) {
      var o :| o in os && IsFresh(o) && (!Bound(i, o) || (o.value != Some(i.before) && o.value != Some(i.after)));
      assert o in os + more;
    }
    if exists o :: o in os && IsFresh(o) {
      var o :| o in os && IsFresh(o);
      assert o in os + more;
    }
  }

  function CommitIntentSpec(flow: Flow, ev: Evidence, i: Intent): (Evidence, Result<Intent, Failure>) {
    if i.id in ev.intents then (ev, if ev.intents[i.id] == i then Ok(i) else Err(Conflict))
    else if i.workflow !in flow.workflows then (ev, Err(NotFound))
    else
      var w := flow.workflows[i.workflow];
      if w.version != i.version || w.latestOperation != Some(i.operation)
         || !(w.state.Executing? || w.state.RollingBack?) then
        (ev, Err(Conflict))
      else (ev.(intents := ev.intents[i.id := i]), Ok(i))
  }

  function AppendObservationSpec(ev: Evidence, o: Observation): (Evidence, Result<Observation, Failure>) {
    if o.intent !in ev.intents then (ev, Err(NotFound))
    else if o.operation != ev.intents[o.intent].operation then (ev, Err(Conflict))
    else if o.id in ev.observations then (ev, if ev.observations[o.id] == o then Ok(o) else Err(Conflict))
    else (ev.(observations := ev.observations[o.id := o]), Ok(o))
  }

  /** Every listed observation is stored and belongs to the intent. */
  predicate Listed(stored: map<Id, Observation>, intent: Id, ids: seq<Id>) {
    forall k :: 0 <= k < |ids| ==> ids[k] in stored && stored[ids[k]].intent == intent
  }

  function Gather(stored: map<Id, Observation>, ids: seq<Id>): (os: seq<Observation>)
    requires forall k :: 0 <= k < |ids| ==> ids[k] in stored
    ensures |os| == |ids| && forall k :: 0 <= k < |ids| ==> os[k] == stored[ids[k]]
  {
    seq(|ids|, k requires 0 <= k < |ids| => stored[ids[k]])
  }

  function FindRecord(records: seq<Record>, id: Id): (r: Option<Record>)
    ensures r.Some? ==> r.value in records && r.value.id == id
    ensures r.None? ==> forall x :: x in records ==> x.id != id
  {
    if records == [] then None
    else if records[|records| - 1].id == id then Some(records[|records| - 1])
    else FindRecord(records[..|records| - 1], id)
  }

  /** Why a classification is refused: checked again even for an exact replay. */
  function Unsupported(intents: map<Id, Intent>, stored: map<Id, Observation>, r: Record): Option<Failure> {
    if r.intent !in intents then Some(NotFound)
    else
      var i := intents[r.intent];
      if r.workflow != i.workflow || r.version.counter < i.version.counter || !Listed(stored, r.intent, r.observations)
         || !Supports(i, Gather(stored, r.observations), r.classification)
      then Some(Invalid)
      else None
  }

  function RecordSpec(ev: Evidence, r: Record): (Evidence, Result<Record, Failure>) {
    var refused := Unsupported(ev.intents, ev.observations, r);
    if refused.Some? then (ev, Err(refused.value))
    else match FindRecord(ev.records, r.id)
      case Some(existing) => (ev, if existing == r then Ok(r) else Err(Invalid))
      case None => (ev.(records := ev.records + [r]), Ok(r))
  }

  class ReconciliationStore {
    const database: SQLiteDatabase

    constructor (database: SQLiteDatabase)
      ensures this.database == database
    {
      this.database := database;
    }

    method CommitIntent(i: Intent) returns (r: Result<Intent, Failure>)
      modifies database`evidence
      ensures (database.evidence, r) == CommitIntentSpec(database.flow, old(database.evidence), i)
    {
      if i.id in database.evidence.intents {
        var persisted := database.evidence.intents[i.id];
        if persisted != i {
          return Err(Conflict);
        }
        return Ok(persisted);
      }
      if i.workflow !in database.flow.workflows {
        return Err(NotFound);
      }
      var w := database.flow.workflows[i.workflow];
      if w.version != i.version {
        return Err(Conflict);
      }
      if w.latestOperation != Some(i.operation) {
        return Err(Conflict);
      }
      if w.state != Executing && w.state != RollingBack {
        return Err(Conflict);
      }
      database.evidence := database.evidence.(intents := database.evidence.intents[i.id := i]);
      return Ok(i);
    }

    method AppendObservation(o: Observation) returns (r: Result<Observation, Failure>)
      modifies database`evidence
      ensures (database.evidence, r) == AppendObservationSpec(old(database.evidence), o)
    {
      if o.intent !in database.evidence.intents {
        return Err(NotFound);
      }
      if o.operation != database.evidence.intents[o.intent].operation {
        return Err(Conflict);
      }
      if o.id in database.evidence.observations {
        var persisted := database.evidence.observations[o.id];
        if persisted != o {
          return Err(Conflict);
        }
        return Ok(persisted);
      }
      database.evidence := database.evidence.(observations := database.evidence.observations[o.id := o]);
      return Ok(o);
    }

    /** Looks the listed observations up one by one; one that is missing, or of another intent, fails the call. */
    method ObservationsById(intent: Id, ids: seq<Id>) returns (os: Option<seq<Observation>>)
      ensures os.Some? <==> Listed(database.evidence.observations, intent, ids)
      ensures os.Some? ==> os.value == Gather(database.evidence.observations, ids)
    {
      var found := [];
      for k := 0 to |ids|
        invariant Listed(database.evidence.observations, intent, ids[..k])
        invariant found == Gather(database.evidence.observations, ids[..k])
      {
        if ids[k] !in database.evidence.observations || database.evidence.observations[ids[k]].intent != intent {
          return None;
        }
        found := found + [database.evidence.observations[ids[k]]];
        assert forall m :: 0 <= m < k ==> ids[..k + 1][m] == ids[..k][m];
      }
      assert ids[..|ids|] == ids;
      return Some(found);
    }

    method RecordClassification(c: Record) returns (r: Result<Record, Failure>)
      modifies database`evidence
      ensures (database.evidence, r) == RecordSpec(old(database.evidence), c)
    {
      if c.intent !in database.evidence.intents {
        return Err(NotFound);
      }
      var i := database.evidence.intents[c.intent];
      if c.workflow != i.workflow {
        return Err(Invalid);
      }
      if c.version.counter < i.version.counter {
        return Err(Invalid);
      }
      var os := ObservationsById(c.intent, c.observations);
      if os.None? {
        return Err(Invalid);
      }
      if !Supports(i, os.value, c.classification) {
        return Err(Invalid);
      }
      var existing := FindRecord(database.evidence.records, c.id);
      if existing.Some? {
        if existing.value != c {
          return Err(Invalid);
        }
        return Ok(existing.value);
      }
      database.evidence := database.evidence.(records := database.evidence.records + [c]);
      return Ok(c);
    }
  }
}
