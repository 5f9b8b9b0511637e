// AbstractEntityExporterProcess: reads (MDStore id, entity id) pairs, fetches
// each entity's MDStore record once and stores the atomic actions generated
// from it in the action manager.

module EntityExporting {
  import opened Wrappers
  import opened JavaStrings
  import opened RuntimeParameters
  import opened ProcessParameters

  /** convertToMDStoreId: the entity id without the result-entity prefix. */
  function ConvertToMDStoreId(prefix: string, id: Option<string>): (r: Option<string>)
    ensures id.None? <==> r.None?
    ensures id.Some? && StartsWith(id.value, prefix) ==> prefix + r.value == id.value
    ensures id.Some? && !StartsWith(id.value, prefix) ==> r == id
  {
    if id.None? then None
    else if StartsWith(id.value, prefix) then Some(id.value[|prefix|..])
    else id
  }

  /** Putting the prefix in front of an MDStore id and converting it back
      gives that id. */
  lemma PrefixRoundTrip(prefix: string, mdRecordId: string)
    ensures ConvertToMDStoreId(prefix, Some(prefix + mdRecordId)) == Some(mdRecordId)
  {
    assert StartsWith(prefix + mdRecordId, prefix);
  }

  /** The identifiers the abstract deliverMDStoreIds provides for an input record. */
  datatype MDStoreIdWithEntityId = MDStoreIdWithEntityId(mdStoreId: string, entityId: Option<string>)

  /** An atomic action; its payload is produced by XSLT and not modelled. */
  datatype AtomicAction = AtomicAction(payload: string)

  /** The outcome of MDStoreService.deliverRecord: the record (possibly null),
      the document-not-found exception, or any other exception. */
  datatype Delivery = Delivered(record: Option<string>) | NotFound | DeliveryError(error: JavaError)

  type MDStore = (string, Option<string>) -> Delivery

  /** ActionFactory.generateInfoPackageAction followed by asAtomicActions: a
      failure is an exception thrown by the factory, the outer None a null
      action, the inner None a null action list. */
  type ActionGenerator = (string, string) -> Result<Option<Option<seq<AtomicAction>>>>

  /** ActionManagerServiceFacade.storeAction: None when the actions were
      stored, otherwise the exception it threw. */
  type ActionStore = seq<AtomicAction> -> Option<JavaError>

  /** The exporter's settings: the result-entity prefix and the names of the
      two required parameters. */
  datatype EntityExporter = EntityExporter(
    entityIdPrefix: string, mdStoreLocationParam: string, actionSetIdParam: string)

  /** handleRecord: the actions handed to the action manager, if any, or the
      exception thrown by the factory or the action manager. */
  function HandleRecord(record: Option<string>, actionSetId: string, generate: ActionGenerator, store: ActionStore)
    : (r: Result<Option<seq<AtomicAction>>>)
    ensures record.None? ==> r == Success(None)
    ensures record.Some? && generate(record.value, actionSetId).Failure? ==>
              r == Failure(generate(record.value, actionSetId).error)
    ensures r.Success? && r.value.Some? <==>
              record.Some? && generate(record.value, actionSetId).Success?
              && generate(record.value, actionSetId).value.Some?
              && generate(record.value, actionSetId).value.value.Some?
              && store(generate(record.value, actionSetId).value.value.value).None?
    ensures r.Success? && r.value.Some? ==> r.value == generate(record.value, actionSetId).value.value
    ensures r.Failure? ==> record.Some? && generate(record.value, actionSetId).Success? ==>
              var actions := generate(record.value, actionSetId).value;
              actions.Some? && actions.value.Some? && store(actions.value.value) == Some(r.error)
  {
    if record.None? then Success(None)
    else
      var action :- generate(record.value, actionSetId);
      if action.None? || action.value.None? then Success(None)
      else
        match store(action.value.value)
        case Some(err) => Failure(err)
        case None => Success(action.value)
  }

  /** The loop state: the exported-id set, the counter, the ids in the order
      they were exported, and the action lists stored. */
  datatype ExportState = ExportState(
    exported: set<Option<string>>, counter: nat, handled: seq<Option<string>>, stored: seq<seq<AtomicAction>>)

  const InitialState := ExportState({}, 0, [], [])

  ghost predicate Distinct<T>(s: seq<T>)
  {
    forall i, j :: 0 <= i < j < |s| ==> s[i] != s[j]
  }

  /** The counter counts the exports, the set holds exactly the exported ids,
      and no id was exported twice. */
  ghost predicate Consistent(s: ExportState)
  {
    s.counter == |s.handled| && Distinct(s.handled) && s.exported == set x | x in s.handled
  }

  /** One iteration of the loop in run. */
  function ExportStep(e: EntityExporter, rec: MDStoreIdWithEntityId, s: ExportState, actionSetId: string,
                      mdStore: MDStore, generate: ActionGenerator, store: ActionStore): (r: Result<ExportState>)
    ensures Consistent(s) && r.Success? ==> Consistent(r.value)
    ensures r.Success? ==> s.exported <= r.value.exported <= s.exported + {rec.entityId}
  {
    if rec.entityId in s.exported then Success(s)
    else
      match mdStore(rec.mdStoreId, ConvertToMDStoreId(e.entityIdPrefix, rec.entityId))
      case NotFound => Success(s)
      case DeliveryError(err) => Failure(err)
      case Delivered(record) =>
        var stored :- HandleRecord(record, actionSetId, generate, store);
        var handled := s.handled + [rec.entityId];
        assert (set x | x in handled) == (set x | x in s.handled) + {rec.entityId};
        Success(ExportState(s.exported + {rec.entityId}, s.counter + 1, handled,
                            s.stored + (if stored.Some? then [stored.value] else [])))
  }

  /** The loop over the remaining records; any delivery error other than
      not-found ends the run. */
  function ExportAll(e: EntityExporter, records: seq<MDStoreIdWithEntityId>, s: ExportState, actionSetId: string,
                     mdStore: MDStore, generate: ActionGenerator, store: ActionStore): (r: Result<ExportState>)
    ensures Consistent(s) && r.Success? ==> Consistent(r.value)
    ensures r.Success? ==> s.exported <= r.value.exported
    ensures r.Success? ==> forall x :: x in r.value.exported - s.exported ==>
                                         exists k :: 0 <= k < |records| && records[k].entityId == x
    decreases |records|
  {
    if records == [] then Success(s)
    else
      var next :- ExportStep(e, records[0], s, actionSetId, mdStore, generate, store);
      var r := ExportAll(e, records[1..], next, actionSetId, mdStore, generate, store);
      assert r.Success? ==> forall x :: x in r.value.exported - s.exported ==>
                                          exists k :: 0 <= k < |records| && records[k].entityId == x by {
        if r.Success? {
          forall x | x in r.value.exported - s.exported
            ensures exists k :: 0 <= k < |records| && records[k].entityId == x
          {
            if x in next.exported {
              assert records[0].entityId == x;
            } else {
              assert x in r.value.exported - next.exported;
              var k :| 0 <= k < |records[1..]| && records[1..][k].entityId == x;
              assert records[k + 1].entityId == x;
            }
          }
        }
      }
      r
  }

  /** A required parameter counts as missing when null or "$UNDEFINED$". */
  predicate IsMissing(value: Option<string>)
  {
    value.None? || value.value == UndefinedNonemptyValue
  }

  /** run, without the I/O: both required parameters are checked before the
      input is read, then the records are exported in order. */
  function RunSpec(e: EntityExporter, conf: Option<Configuration>, parameters: Option<map<string, string>>,
                   input: seq<MDStoreIdWithEntityId>, mdStore: MDStore, generate: ActionGenerator, store: ActionStore)
    : (r: Result<ExportState>)
    ensures IsMissing(GetParameterValue(e.mdStoreLocationParam, conf, parameters)) ==> r == Failure(InvalidParameter)
    ensures (!IsMissing(GetParameterValue(e.mdStoreLocationParam, conf, parameters))
             && IsMissing(GetParameterValue(e.actionSetIdParam, conf, parameters))) ==> r == Failure(Runtime)
    ensures r.Success? ==> Consistent(r.value) && r.value.counter == |r.value.exported|
  {
    var mdStoreLocation := GetParameterValue(e.mdStoreLocationParam, conf, parameters);
    var actionSetId := GetParameterValue(e.actionSetIdParam, conf, parameters);
    if IsMissing(mdStoreLocation) then Failure(InvalidParameter)
    else if IsMissing(actionSetId) then Failure(Runtime)
    else
      var r := ExportAll(e, input, InitialState, actionSetId.value, mdStore, generate, store);
      if r.Success? then CounterIsSetSize(r.value); r else r
  }

  /** run: the while loop with its exported-id set and counter. */
  method Run(e: EntityExporter, conf: Option<Configuration>, parameters: Option<map<string, string>>,
             input: seq<MDStoreIdWithEntityId>, mdStore: MDStore, generate: ActionGenerator, store: ActionStore)
    returns (r: Result<ExportState>)
    ensures r == RunSpec(e, conf, parameters, input, mdStore, generate, store)
  {
    var mdStoreLocation := GetParameterValue(e.mdStoreLocationParam, conf, parameters);
    var actionSetId := GetParameterValue(e.actionSetIdParam, conf, parameters);
    if IsMissing(mdStoreLocation) {
      return Failure(InvalidParameter);
    }
    if IsMissing(actionSetId) {
      return Failure(Runtime);
    }
    var exportedEntityIds: set<Option<string>> := {};
    var counter := 0;
    var handled: seq<Option<string>> := [];
    var stored: seq<seq<AtomicAction>> := [];
    var i := 0;
    while i < |input|
      invariant 0 <= i <= |input|
      invariant ExportAll(e, input, InitialState, actionSetId.value, mdStore, generate, store)
             == ExportAll(e, input[i..], ExportState(exportedEntityIds, counter, handled, stored),
                          actionSetId.value, mdStore, generate, store)
    {
      var rec := input[i];
      assert input[i..][1..] == input[i + 1..];
      ghost var before := ExportState(exportedEntityIds, counter, handled, stored);
      if rec.entityId !in exportedEntityIds {
        var mdRecordId := ConvertToMDStoreId(e.entityIdPrefix, rec.entityId);
        var delivery := mdStore(rec.mdStoreId, mdRecordId);
        if delivery.DeliveryError? {
          return Failure(delivery.error);
        }
        if delivery.Delivered? {
          var handledRecord := HandleRecord(delivery.record, actionSetId.value, generate, store);
          if handledRecord.Failure? {
            return Failure(handledRecord.error);
          }
          var actions := handledRecord.value;
          if actions.Some? {
            stored := stored + [actions.value];
          } else {
            assert stored + [] == stored;
          }
          exportedEntityIds := exportedEntityIds + {rec.entityId};
          handled := handled + [rec.entityId];
          counter := counter + 1;
        }
      }
      assert ExportStep(e, rec, before, actionSetId.value, mdStore, generate, store)
          == Success(ExportState(exportedEntityIds, counter, handled, stored));
      i := i + 1;
    }
    r := Success(ExportState(exportedEntityIds, counter, handled, stored));
    if r.Success? {
      CounterIsSetSize(r.value);
    }
  }

  /** A set built from distinct elements has as many members as the
      sequence. */
  lemma {:induction false} DistinctSetSize<T>(s: seq<T>)
    requires Distinct(s)
    ensures |set x | x in s| == |s|
  {
    if s != [] {
      var init := s[..|s| - 1];
      assert Distinct(init);
      DistinctSetSize(init);
      assert (set x | x in s) == (set x | x in init) + {s[|s| - 1]} by {
        assert s == init + [s[|s| - 1]];
      }
      assert s[|s| - 1] !in init by {
        forall k | 0 <= k < |init|
          ensures init[k] != s[|s| - 1]
        {
          assert init[k] == s[k];
        }
      }
    }
  }

  /** The counter always equals the number of exported ids. */
  lemma CounterIsSetSize(s: ExportState)
    requires Consistent(s)
    ensures s.counter == |s.exported|
  {
    DistinctSetSize(s.handled);
  }

  /** An id is exported at most once: after a successful export a later record
      with the same id does nothing. */
  lemma ExportedIdIsSkipped(e: EntityExporter, rec: MDStoreIdWithEntityId, s: ExportState, actionSetId: string,
                            mdStore: MDStore, generate: ActionGenerator, store: ActionStore)
    requires rec.entityId in s.exported
    ensures ExportStep(e, rec, s, actionSetId, mdStore, generate, store) == Success(s)
  {
  }

  /** A record that was not found is not marked exported, so a later record
      with the same entity id is fetched again. */
  lemma {:induction false} NotFoundIsRetried(e: EntityExporter, first: MDStoreIdWithEntityId,
                                             second: MDStoreIdWithEntityId, s: ExportState, actionSetId: string,
                                             mdStore: MDStore, generate: ActionGenerator, store: ActionStore)
    requires first.entityId == second.entityId && first.entityId !in s.exported
    requires mdStore(first.mdStoreId, ConvertToMDStoreId(e.entityIdPrefix, first.entityId)) == NotFound
    requires var d := mdStore(second.mdStoreId, ConvertToMDStoreId(e.entityIdPrefix, second.entityId));
             d.Delivered? && HandleRecord(d.record, actionSetId, generate, store).Success?
    ensures ExportAll(e, [first, second], s, actionSetId, mdStore, generate, store).Success?
    ensures first.entityId in ExportAll(e, [first, second], s, actionSetId, mdStore, generate, store).value.exported
  {
    assert [first, second][1..] == [second];
    assert [second][1..] == [];
    assert ExportStep(e, first, s, actionSetId, mdStore, generate, store) == Success(s);
    var t := ExportStep(e, second, s, actionSetId, mdStore, generate, store);
    assert t.Success? && second.entityId in t.value.exported;
    assert ExportAll(e, [second], s, actionSetId, mdStore, generate, store) == ExportAll(e, [], t.value, actionSetId, mdStore, generate, store);
  }

  /** An exception from the action factory while a fetched record is handled
      ends the whole run: the remaining records are not looked at and the
      entity id is not marked exported. */
  lemma {:induction false} GeneratorFailureEndsRun(e: EntityExporter, rec: MDStoreIdWithEntityId,
                                                   rest: seq<MDStoreIdWithEntityId>, s: ExportState,
                                                   actionSetId: string, record: string,
                                                   mdStore: MDStore, generate: ActionGenerator, store: ActionStore)
    requires rec.entityId !in s.exported
    requires mdStore(rec.mdStoreId, ConvertToMDStoreId(e.entityIdPrefix, rec.entityId)) == Delivered(Some(record))
    requires generate(record, actionSetId).Failure?
    ensures ExportAll(e, [rec] + rest, s, actionSetId, mdStore, generate, store)
         == Failure(generate(record, actionSetId).error)
  {
    assert ([rec] + rest)[0] == rec;
    assert ExportStep(e, rec, s, actionSetId, mdStore, generate, store)
        == Failure(generate(record, actionSetId).error);
  }

  /** An exception from the action manager while storing the actions ends the
      whole run in the same way. */
  lemma {:induction false} StoreFailureEndsRun(e: EntityExporter, rec: MDStoreIdWithEntityId,
                                               rest: seq<MDStoreIdWithEntityId>, s: ExportState,
                                               actionSetId: string, record: string, actions: seq<AtomicAction>,
                                               mdStore: MDStore, generate: ActionGenerator, store: ActionStore)
    requires rec.entityId !in s.exported
    requires mdStore(rec.mdStoreId, ConvertToMDStoreId(e.entityIdPrefix, rec.entityId)) == Delivered(Some(record))
    requires generate(record, actionSetId) == Success(Some(Some(actions)))
    requires store(actions).Some?
    ensures ExportAll(e, [rec] + rest, s, actionSetId, mdStore, generate, store) == Failure(store(actions).value)
  {
    assert ([rec] + rest)[0] == rec;
    assert ExportStep(e, rec, s, actionSetId, mdStore, generate, store) == Failure(store(actions).value);
  }
}
